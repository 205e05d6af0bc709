/**
 The two formulas for an average length, storage/storage.go:426 and storage/merge.go:584, with the roundings of IEEE
 754: when they agree, and where they do not. Values stand for their bits; all of them are positive and normal.
 */
module Averages {
  import opened Words
  import opened FastLog
  import Tables

  /** To the nearest integer, ties to even. */
  function RoundEven(q: real): int {
    var f := q.Floor;
    var r := q - f as real;
    if r < 0.5 || (r == 0.5 && f % 2 == 0) then f else f + 1
  }

  /** The distance between neighbours of `p` significant bits in the binade of `v`. */
  function Ulp(p: nat, v: real): (u: real)
    requires v > 0.0
    ensures u > 0.0
  {
    TwoTo(Split(v).1 - p + 1)
  }

  function ToMultiple(v: real, u: real): real
    requires u > 0.0
  {
    RoundEven(v / u) as real * u
  }

  /** To the nearest number of `p` significant bits. */
  function Rounded(p: nat, v: real): real {
    if v <= 0.0 then 0.0 else ToMultiple(v, Ulp(p, v))
  }

  /** A division of two floats; nothing when an operand is not positive. */
  function Divided(p: nat, x: real, y: real): real {
    if y <= 0.0 then 0.0 else Rounded(p, x / y)
  }

  const Single: nat := 24
  const Double: nat := 53

  /** `float32(total) / float32(count)`. */
  function BuiltAverage(total: nat, count: nat): real {
    Divided(Single, Rounded(Single, total as real), Rounded(Single, count as real))
  }

  /** `float32(float64(total) / float64(count))`. */
  function MergedAverage(total: nat, count: nat): real {
    Rounded(Single, Divided(Double, Rounded(Double, total as real), Rounded(Double, count as real)))
  }

  lemma DoubleProduct(k: real, x: real, y: real)
    requires y == k * x
    ensures 2.0 * y == (2.0 * k) * x
  {
  }

  lemma {:induction false} TwoToPlus(s: nat, t: int, k: real, p: real)
    requires k == Pow2(s) as real && p == TwoTo(t)
    ensures TwoTo(t + s) == k * p
  {
    if s > 0 {
      var l := Pow2(s - 1) as real;
      TwoToPlus(s - 1, t, l, p);
      TwoToNext(t + s - 1);
      DoubleProduct(l, p, TwoTo(t + s - 1));
    }
  }

  lemma RoundsTo(q: real, n: int)
    requires n as real - 0.5 < q < n as real + 0.5
    ensures RoundEven(q) == n
  {
  }

  lemma RoundsNear(q: real)
    ensures q - 0.5 <= RoundEven(q) as real <= q + 0.5
  {
  }

  lemma SplitBetween(v: real, t: int, p: real)
    requires v > 0.0 && p == TwoTo(t) && p <= v < 2.0 * p
    ensures Split(v).1 == t
  {
    var m := v / p;
    MantissaOf(v, p, m);
    SplitUnique(v, m, t);
  }

  lemma MantissaOf(v: real, p: real, m: real)
    requires p > 0.0 && m == v / p && p <= v < 2.0 * p
    ensures v == m * p && 1.0 <= m < 2.0
  {
    assert m * p == v;
    MantissaBounds(m, p, v);
  }

  lemma MantissaBounds(m: real, p: real, v: real)
    requires p > 0.0 && m * p == v && p <= v < 2.0 * p
    ensures 1.0 <= m < 2.0
  {
    assert (m - 1.0) * p == v - p && (2.0 - m) * p == 2.0 * p - v;
    Signs(m - 1.0, p);
    Signs(2.0 - m, p);
  }

  lemma Signs(a: real, p: real)
    requires p > 0.0
    ensures (a * p >= 0.0 <==> a >= 0.0) && (a * p > 0.0 <==> a > 0.0)
  {
  }

  /** The power of two that a number's binade starts with. */
  ghost function Start(v: real): (p: real)
    requires v > 0.0
    ensures p > 0.0 && p <= v < 2.0 * p
  {
    InBinade(v, Split(v).0, Split(v).1, TwoTo(Split(v).1));
    TwoTo(Split(v).1)
  }

  /** A binade is `2^(p - 1)` steps long. */
  lemma UlpsToStart(p: nat, v: real, steps: real, u: real)
    requires p > 0 && v > 0.0 && steps == Pow2(p - 1) as real && u == Ulp(p, v)
    ensures Start(v) == steps * u
  {
    TwoToPlus(p - 1, Split(v).1 - p + 1, steps, u);
  }

  /** Numbers of one binade have the same neighbours' distance. */
  lemma SameUlp(p: nat, v: real, z: real)
    requires v > 0.0 && Start(v) <= z < 2.0 * Start(v)
    ensures z > 0.0 && Ulp(p, z) == Ulp(p, v)
  {
    SplitBetween(z, Split(v).1, Start(v));
  }

  lemma QuotientIs(v: real, u: real, q: real)
    requires u > 0.0 && v == q * u
    ensures v / u == q
  {
    var r := v / u;
    assert r * u == v;
    assert (r - q) * u == 0.0;
  }

  /** A multiple of the step stays where it is. */
  lemma MultipleKept(v: real, u: real, n: int)
    requires u > 0.0 && v == n as real * u
    ensures ToMultiple(v, u) == v
  {
    QuotientIs(v, u, n as real);
    RoundsTo(n as real, n);
  }

  /** Steps of a number below `2^p`, when they are fractions of one: how many of them make up one. */
  lemma StepsInOne(p: nat, v: real) returns (steps: nat)
    requires p > 0 && 0.0 < v && v < TwoTo(p)
    ensures steps > 0 && 1.0 / steps as real == Ulp(p, v)
  {
    var t := Split(v).1;
    if p <= t {
      assert Start(v) == TwoTo(t);
      NoSmaller(p, t);
    }
    steps := Pow2(p - 1 - t);
    TwoToPlus(p - 1 - t, t - p + 1, steps as real, Ulp(p, v));
    Reciprocal(steps as real, Ulp(p, v));
  }

  lemma Reciprocal(k: real, u: real)
    requires k > 0.0 && 1.0 == k * u
    ensures 1.0 / k == u
  {
    QuotientIs(1.0, k, u);
  }

  lemma NoSmaller(s: int, t: int)
    requires s <= t
    ensures TwoTo(s) <= TwoTo(t)
  {
    if s < t {
      TwoToAscends(s, t);
    }
  }

  /** A whole number of at most `p` bits is not changed. */
  lemma WholeKept(p: nat, n: nat)
    requires p > 0 && 0 < n && n as real < TwoTo(p)
    ensures Rounded(p, n as real) == n as real
  {
    var k := StepsInOne(p, n as real);
    WholeSteps(n, k, Ulp(p, n as real));
  }

  lemma WholeSteps(n: nat, k: nat, u: real)
    requires k > 0 && u > 0.0 && 1.0 / k as real == u
    ensures ToMultiple(n as real, u) == n as real
  {
    assert k as real * u == 1.0;
    assert (n * k) as real * u == n as real * (k as real * u);
    MultipleKept(n as real, u, n * k);
  }

  /** Steps of a double in one of a single. */
  const Finer := 536870912.0

  /** A quotient by `b` lies half way between two integers, or at least `1 / 2b` away from that. */
  lemma NoNearTie(n: nat, b: nat, q: real)
    requires b > 0 && q * b as real == n as real
    ensures q - q.Floor as real == 0.5 || (q - RoundEven(q) as real) * (2 * b) as real <= (b - 1) as real
    ensures q - q.Floor as real == 0.5 || (RoundEven(q) as real - q) * (2 * b) as real <= (b - 1) as real
  {
    var k := RoundEven(q);
    RoundsNear(q);
    Remains(n, b, q, k);
    Within(q - k as real, b, 2 * n - 2 * k * b);
    assert (k as real - q) * (2 * b) as real == -((q - k as real) * (2 * b) as real);
  }

  lemma Remains(n: nat, b: nat, q: real, k: int)
    requires q * b as real == n as real
    ensures (q - k as real) * (2 * b) as real == (2 * n - 2 * k * b) as real
  {
    assert k as real * b as real == (k * b) as real;
    assert (q - k as real) * (2 * b) as real == 2.0 * (q * b as real) - 2.0 * (k as real * b as real);
  }

  lemma SignOf(a: real, p: real, x: real)
    requires p > 0.0 && x == a * p
    ensures (x >= 0.0 <==> a >= 0.0) && (x > 0.0 <==> a > 0.0)
  {
    Signs(a, p);
  }

  lemma Within(r: real, b: nat, d: int)
    requires b > 0 && -0.5 <= r <= 0.5 && r * (2 * b) as real == d as real
    ensures r == 0.5 || r == -0.5 || 0 - b < d < b
  {
    var c := (2 * b) as real;
    SignOf(0.5 - r, c, (b - d) as real);
    SignOf(r + 0.5, c, (d + b) as real);
  }

  /** Far enough from a tie, a small step does not change where a number is rounded to. */
  lemma SmallStep(q: real, x: real, b: nat)
    requires 0 < b < 0x100_0000 && -1.0 / 1073741824.0 <= x - q <= 1.0 / 1073741824.0
    requires (q - RoundEven(q) as real) * (2 * b) as real <= (b - 1) as real
    requires (RoundEven(q) as real - q) * (2 * b) as real <= (b - 1) as real
    ensures RoundEven(x) == RoundEven(q)
  {
    Margin(q - RoundEven(q) as real, b);
    Margin(RoundEven(q) as real - q, b);
    RoundsTo(x, RoundEven(q));
  }

  lemma Margin(r: real, b: nat)
    requires 0 < b < 0x100_0000 && r * (2 * b) as real <= (b - 1) as real
    ensures r < 0.5 - 1.0 / 1073741824.0
  {
    var s, c := 0.5 - 1.0 / 1073741824.0, (2 * b) as real;
    assert s * c > (b - 1) as real;
    assert (s - r) * c == s * c - r * c;
    Signs(s - r, c);
  }

  lemma TwiceIsOnce(q: real, n: nat, b: nat)
    requires 0 < b < 0x100_0000 && q * b as real == n as real
    ensures RoundEven(RoundEven(q * Finer) as real / Finer) == RoundEven(q)
  {
    RoundsNear(q * Finer);
    NoNearTie(n, b, q);
    if q - q.Floor as real == 0.5 {
      RoundsTo(q * Finer, (2 * q.Floor + 1) * 268435456);
    } else {
      SmallStep(q, RoundEven(q * Finer) as real / Finer, b);
    }
  }

  lemma FinerSteps(v: real, u: real, w: real, q: real)
    requires u > 0.0 && w > 0.0 && u == Finer * w && v / u == q
    ensures ToMultiple(v, w) == RoundEven(q * Finer) as real * w && ToMultiple(v, u) == RoundEven(q) as real * u
  {
    Coarser(v, u, w, q);
    MultipleIs(v, w, q * Finer);
    MultipleIs(v, u, q);
  }

  lemma FinerMultiple(z: real, u: real, w: real, c: int)
    requires u > 0.0 && w > 0.0 && u == Finer * w && z == c as real * w
    ensures ToMultiple(z, u) == RoundEven(c as real / Finer) as real * u
  {
    StepsOfSteps(c as real, z, u, w);
    MultipleIs(z, u, c as real / Finer);
  }

  lemma SteppedOver(v: real, u: real, w: real, q: real, c: int, z: real)
    requires u > 0.0 && w > 0.0 && u == Finer * w && v / u == q && c == RoundEven(q * Finer) && z == ToMultiple(v, w)
    ensures z == c as real * w && ToMultiple(z, u) == RoundEven(c as real / Finer) as real * u
  {
    FinerSteps(v, u, w, q);
    FinerMultiple(z, u, w, c);
  }

  /** Rounding to the finer steps first makes no difference where the number of steps is rounded the same either way. */
  lemma SteppedTwice(v: real, u: real, w: real, q: real, z: real)
    requires u > 0.0 && w > 0.0 && u == Finer * w && v / u == q && z == ToMultiple(v, w)
    requires RoundEven(RoundEven(q * Finer) as real / Finer) == RoundEven(q)
    ensures ToMultiple(z, u) == ToMultiple(v, u)
  {
    SteppedOver(v, u, w, q, RoundEven(q * Finer), z);
    MultipleIs(v, u, q);
  }

  lemma MultipleIs(v: real, u: real, q: real)
    requires u > 0.0 && v / u == q
    ensures ToMultiple(v, u) == RoundEven(q) as real * u
  {
  }

  lemma StepsOfSteps(c: real, z: real, u: real, w: real)
    requires u > 0.0 && w > 0.0 && u == Finer * w && z == c * w
    ensures z / u == c / Finer
  {
    var p := c / Finer;
    assert p * Finer == c;
    Coarser(z, u, w, p);
  }

  lemma Coarser(v: real, u: real, w: real, q: real)
    requires u > 0.0 && w > 0.0 && u == Finer * w && (v / u == q || v == (q * Finer) * w)
    ensures v / u == q && v / w == q * Finer && v == (q * Finer) * w
  {
    assert (v / u) * u == v;
    assert (q * Finer) * w == q * u;
    QuotientIs(v, u, q);
    QuotientIs(v, w, q * Finer);
  }

  /** What is rounded to finer steps stays in its binade, short of the end by more than half a step. */
  lemma StaysInBinade(q: real, c: int, n: nat, b: nat)
    requires 0 < b < 0x100_0000 && q * b as real == n as real && 8388608.0 <= q < 16777216.0
    requires c == RoundEven(q * Finer)
    ensures 8388608.0 <= c as real / Finer < 16777216.0
  {
    RoundsNear(q * Finer);
    assert n < 16777216 * b by {
      SignOf(16777216.0 - q, b as real, (16777216 * b - n) as real);
    }
    ShortOf(q, n, b);
    if q * Finer < 8388608.0 * Finer + 0.5 {
      assert c >= 8388608 * 536870912;
    }
  }

  lemma ShortOf(q: real, n: nat, b: nat)
    requires 0 < b < 0x100_0000 && q * b as real == n as real && n < 16777216 * b
    ensures q <= 16777216.0 - 1.0 / 16777216.0
  {
    var s := 16777216.0 - 1.0 / 16777216.0;
    assert s * b as real >= (16777216 * b - 1) as real;
    assert (s - q) * b as real == s * b as real - q * b as real;
    Signs(s - q, b as real);
  }

  lemma Powers()
    ensures TwoTo(24) == 16777216.0 && TwoTo(53) == 9007199254740992.0 && Pow2(23) == 8388608 && Pow2(29) == 536870912
  {
    Powers23();
    TwoToPlus(12, 0, 4096.0, 1.0);
    TwoToPlus(12, 12, 4096.0, 4096.0);
    TwoToPlus(12, 24, 4096.0, 16777216.0);
    TwoToPlus(12, 36, 4096.0, 68719476736.0);
    TwoToPlus(5, 48, 32.0, 281474976710656.0);
    assert Pow2(29) == 64 * Pow2(23);
  }

  lemma UlpRatio(v: real)
    requires v > 0.0
    ensures Ulp(Single, v) == Finer * Ulp(Double, v)
  {
    Powers();
    TwoToPlus(29, Split(v).1 - Double + 1, Finer, Ulp(Double, v));
  }

  /** A quotient of small numbers in steps of a single: a fraction with the same denominator, between 2^23 and 2^24. */
  lemma QuotientSteps(a: nat, b: nat, v: real) returns (n: nat, q: real)
    requires 0 < a < 0x100_0000 && 0 < b < 0x100_0000 && v == a as real / b as real
    ensures v > 0.0 && q == v / Ulp(Single, v) && q * b as real == n as real && 8388608.0 <= q < 16777216.0
  {
    QuotientBounds(a, b, v);
    Powers();
    var k := StepsInOne(Single, v);
    n, q := a * k, v * k as real;
    Inverted(v, k, Ulp(Single, v));
    Multiplied(a, b, v, k, n, q);
    UlpsToStart(Single, v, 8388608.0, Ulp(Single, v));
    InSteps(v, Start(v), Ulp(Single, v), q);
  }

  lemma Multiplied(a: nat, b: nat, v: real, k: nat, n: nat, q: real)
    requires v * b as real == a as real && n == a * k && q == v * k as real
    ensures q * b as real == n as real
  {
    assert q * b as real == (v * b as real) * k as real;
  }

  lemma QuotientBounds(a: nat, b: nat, v: real)
    requires 0 < a < 0x100_0000 && 0 < b && v == a as real / b as real
    ensures 0.0 < v < 16777216.0 && v * b as real == a as real
  {
    assert v * b as real == a as real;
    Signs(v, b as real);
    assert (16777216.0 - v) * b as real == 16777216.0 * b as real - a as real;
    Signs(16777216.0 - v, b as real);
  }

  lemma Inverted(v: real, k: nat, u: real)
    requires k > 0 && u > 0.0 && 1.0 / k as real == u
    ensures v / u == v * k as real
  {
    assert k as real * u == 1.0;
    assert (v * k as real) * u == v * (k as real * u);
    QuotientIs(v, u, v * k as real);
  }

  lemma InSteps(v: real, p: real, u: real, q: real)
    requires u > 0.0 && p == 8388608.0 * u && p <= v < 2.0 * p && v / u == q
    ensures 8388608.0 <= q < 16777216.0
  {
    assert q * u == v;
    assert (q - 8388608.0) * u == v - p && (16777216.0 - q) * u == 2.0 * p - v;
    Signs(q - 8388608.0, u);
    Signs(16777216.0 - q, u);
  }

  lemma FromSteps(z: real, p: real, u: real, w: real, c: real)
    requires w > 0.0 && u == Finer * w && p == 8388608.0 * u && z == c * w && 8388608.0 <= c / Finer < 16777216.0
    ensures p <= z < 2.0 * p
  {
    var x := c / Finer;
    assert x * Finer == c;
    assert z == x * u;
    assert (x - 8388608.0) * u == z - p && (16777216.0 - x) * u == 2.0 * p - z;
    Signs(x - 8388608.0, u);
    Signs(16777216.0 - x, u);
  }

  /**
   What two roundings need to know of a number: its steps in a single and in a double, and where its binade starts.
   */
  ghost predicate Steps(v: real, u: real, w: real, p: real, q: real) {
    v > 0.0 && u > 0.0 && w > 0.0 && u == Finer * w && p == 8388608.0 * u && v / u == q
  }

  lemma SameSteps(v: real, u: real, w: real, p: real, q: real, n: nat, b: nat, z: real)
    requires Steps(v, u, w, p, q) && 0 < b < 0x100_0000 && q * b as real == n as real && z == ToMultiple(v, w)
    ensures ToMultiple(z, u) == ToMultiple(v, u)
  {
    TwiceIsOnce(q, n, b);
    SteppedTwice(v, u, w, q, z);
  }

  lemma FineCount(v: real, u: real, w: real, q: real, c: real)
    requires u > 0.0 && w > 0.0 && u == Finer * w && v / u == q && c == RoundEven(q * Finer) as real
    ensures ToMultiple(v, w) == c * w
  {
    FinerSteps(v, u, w, q);
  }

  lemma SameBinade(v: real, u: real, w: real, p: real, q: real, c: real, z: real)
    requires Steps(v, u, w, p, q) && z == ToMultiple(v, w) && c == RoundEven(q * Finer) as real
    requires 8388608.0 <= c / Finer < 16777216.0
    ensures p <= z < 2.0 * p
  {
    FineCount(v, u, w, q, c);
    FromSteps(z, p, u, w, c);
  }

  lemma StepsOf(v: real)
    requires v > 0.0
    ensures Steps(v, Ulp(Single, v), Ulp(Double, v), Start(v), v / Ulp(Single, v))
  {
    UlpRatio(v);
    Powers();
    UlpsToStart(Single, v, 8388608.0, Ulp(Single, v));
  }

  lemma UlpTwice(p: nat, v: real, z: real)
    requires v > 0.0 && z == 2.0 * v
    ensures Ulp(p, z) == 2.0 * Ulp(p, v)
  {
    var t := Split(v).1;
    assert Start(v) == TwoTo(t);
    TwoToNext(t);
    SplitBetween(z, t + 1, TwoTo(t + 1));
    TwoToNext(t - p + 1);
  }

  lemma QuotientTwice(v: real, u: real, z: real, w: real)
    requires u > 0.0 && w == 2.0 * u && z == 2.0 * v
    ensures z / w == v / u
  {
    var q := v / u;
    assert q * u == v;
    QuotientIs(z, w, q);
  }

  lemma MultipleTwice(v: real, u: real, z: real, w: real)
    requires u > 0.0 && w == 2.0 * u && z == 2.0 * v && z / w == v / u
    ensures ToMultiple(z, w) == 2.0 * ToMultiple(v, u)
  {
    var n := RoundEven(v / u) as real;
    assert n * w == 2.0 * (n * u);
  }

  /** Twice a number is as many steps, and is rounded to twice as much. */
  lemma StepsTwice(p: nat, v: real, z: real)
    requires v > 0.0 && z == 2.0 * v
    ensures z / Ulp(p, z) == v / Ulp(p, v) && Rounded(p, z) == 2.0 * Rounded(p, v)
  {
    UlpTwice(p, v, z);
    QuotientTwice(v, Ulp(p, v), z, Ulp(p, z));
    MultipleTwice(v, Ulp(p, v), z, Ulp(p, z));
  }

  function Doubled(n: nat, s: nat): nat {
    if s == 0 then n else 2 * Doubled(n, s - 1)
  }

  /** A whole number that is a float: at most 24 bits, and zeros behind them. */
  ghost predicate Bits24(n: nat, m: nat, s: nat) {
    0 < m < 0x100_0000 && n == Doubled(m, s)
  }

  lemma {:induction false} ExactBits(n: nat) returns (m: nat, s: nat)
    requires n > 0 && Rounded(Single, n as real) == n as real
    ensures Bits24(n, m, s)
  {
    if n < 0x100_0000 {
      m, s := n, 0;
    } else {
      var half := LargeIsEven(n);
      StepsTwice(Single, half as real, n as real);
      m, s := ExactBits(half);
      s := s + 1;
    }
  }

  /** From 2^24 on, the steps of a single are even. */
  lemma LargeIsEven(n: nat) returns (half: nat)
    requires n >= 0x100_0000 && Rounded(Single, n as real) == n as real
    ensures n == 2 * half
  {
    var u := EvenSteps(n as real);
    var k := RoundEven(n as real / Ulp(Single, n as real));
    half := EvenMultiple(n, k, u);
  }

  lemma EvenMultiple(n: nat, k: int, u: nat) returns (half: nat)
    requires n as real == k as real * (2 * u) as real
    ensures n == 2 * half
  {
    assert n == k * (2 * u);
    assert k * (2 * u) == 2 * (k * u);
    half := k * u;
  }

  lemma EvenSteps(v: real) returns (u: nat)
    requires v >= 16777216.0
    ensures Ulp(Single, v) == (2 * u) as real
  {
    var t := Split(v).1;
    LargeBinade(v, t);
    u := Pow2(t - 24);
    TwoToNext(t - 24);
    TwoToPlus(t - 24, 0, u as real, TwoTo(0));
  }

  lemma LargeBinade(v: real, t: int)
    requires v >= 16777216.0 && t == Split(v).1
    ensures t >= 24
  {
    Powers();
    if t < 24 {
      assert Start(v) == TwoTo(t);
      NoSmaller(t + 1, 24);
      TwoToNext(t);
    }
  }

  /** It is a double too. */
  lemma {:induction false} ExactInDouble(n: nat, m: nat, s: nat)
    requires Bits24(n, m, s)
    ensures n > 0 && Rounded(Double, n as real) == n as real
    decreases s
  {
    if s == 0 {
      Powers();
      WholeKept(Double, m);
    } else {
      ExactInDouble(Doubled(m, s - 1), m, s - 1);
      StepsTwice(Double, Doubled(m, s - 1) as real, n as real);
    }
  }

  /** A fraction over `k`, between 2^23 and 2^24. */
  ghost predicate Fraction(q: real, n: nat, k: nat) {
    q * k as real == n as real && 8388608.0 <= q < 16777216.0
  }

  /** The quotient of two floats: as many steps as that of their bits. */
  lemma {:induction false} ExactSteps(m: nat, s: nat, k: nat, r: nat, x: nat, y: nat, v: real) returns (n: nat, q: real)
    requires Bits24(x, m, s) && Bits24(y, k, r) && y > 0 && v == x as real / y as real
    ensures v > 0.0 && q == v / Ulp(Single, v) && Fraction(q, n, k)
    decreases s + r
  {
    if s > 0 {
      var half := Doubled(m, s - 1);
      var z := half as real / y as real;
      n, q := ExactSteps(m, s - 1, k, r, half, y, z);
      TwiceOver(half as real, y as real, x as real, z, v);
      StepsTwice(Single, z, v);
    } else if r > 0 {
      n, q := ExactHalves(m, k, r, y, v);
    } else {
      n, q := QuotientSteps(m, k, v);
    }
  }

  lemma ExactHalves(m: nat, k: nat, r: nat, y: nat, v: real) returns (n: nat, q: real)
    requires 0 < m < 0x100_0000 && Bits24(y, k, r) && y > 0 && v == m as real / y as real && r > 0
    ensures v > 0.0 && q == v / Ulp(Single, v) && Fraction(q, n, k)
    decreases r, 0
  {
    var half := Doubled(k, r - 1);
    var z := m as real / half as real;
    n, q := ExactSteps(m, 0, k, r - 1, m, half, z);
    HalfOf(m as real, half as real, y as real, z, v);
    StepsTwice(Single, v, z);
  }

  lemma TwiceOver(x: real, y: real, xx: real, z: real, v: real)
    requires y > 0.0 && xx == 2.0 * x && z == x / y && v == xx / y
    ensures v == 2.0 * z
  {
    assert z * y == x;
    QuotientIs(xx, y, 2.0 * z);
  }

  lemma HalfOf(x: real, y: real, yy: real, z: real, v: real)
    requires y > 0.0 && yy == 2.0 * y && z == x / y && v == x / yy
    ensures z == 2.0 * v
  {
    assert v * yy == x;
    QuotientIs(x, y, 2.0 * v);
  }

  /** A quotient of two floats can be rounded to a double first. */
  lemma DoubleRounding(v: real, q: real, n: nat, b: nat)
    requires v > 0.0 && q == v / Ulp(Single, v) && 0 < b < 0x100_0000 && Fraction(q, n, b)
    ensures Rounded(Single, Rounded(Double, v)) == Rounded(Single, v)
  {
    StepsOf(v);
    SameSteps(v, Ulp(Single, v), Ulp(Double, v), Start(v), q, n, b, Rounded(Double, v));
    StaysInBinade(q, RoundEven(q * Finer), n, b);
    SameBinade(v, Ulp(Single, v), Ulp(Double, v), Start(v), q, RoundEven(q * Finer) as real, Rounded(Double, v));
    SameUlp(Single, v, Rounded(Double, v));
  }

  /** Both formulas give the same average whenever total and count are exact as singles. */
  lemma ExactAveragesAgree(total: nat, count: nat)
    requires total > 0 && count > 0
    requires Rounded(Single, total as real) == total as real && Rounded(Single, count as real) == count as real
    ensures BuiltAverage(total, count) == MergedAverage(total, count)
  {
    var v := total as real / count as real;
    var m, s := ExactBits(total);
    var k, r := ExactBits(count);
    ExactInDouble(total, m, s);
    ExactInDouble(count, k, r);
    var n, q := ExactSteps(m, s, k, r, total, count, v);
    DoubleRounding(v, q, n, k);
  }

  lemma SmallIsExact(n: nat)
    requires 0 < n <= 0x100_0000
    ensures Rounded(Single, n as real) == n as real
  {
    Powers();
    if n < 0x100_0000 {
      WholeKept(Single, n);
    } else {
      var half := n / 2;
      WholeKept(Single, half);
      StepsTwice(Single, half as real, n as real);
    }
  }

  /** So they are up to 2^24. */
  lemma SmallAveragesAgree(total: nat, count: nat)
    requires 0 < total <= 0x100_0000 && 0 < count <= 0x100_0000
    ensures BuiltAverage(total, count) == MergedAverage(total, count)
  {
    SmallIsExact(total);
    SmallIsExact(count);
    ExactAveragesAgree(total, count);
  }

  /** Rounding where the binade and the step are known. */
  lemma RoundedIn(p: nat, v: real, t: int, start: real, u: real, n: int)
    requires v > 0.0 && start == TwoTo(t) && start <= v < 2.0 * start && u == TwoTo(t - p + 1)
    requires RoundEven(v / u) == n
    ensures Rounded(p, v) == n as real * u
  {
    SplitBetween(v, t, start);
  }

  lemma SmallPowers()
    ensures TwoTo(22) == 4194304.0 && TwoTo(25) == 33554432.0 && TwoTo(2) == 4.0 && TwoTo(-1) == 0.5
    ensures TwoTo(-30) == 1.0 / 1073741824.0
  {
    TwoToPlus(11, 0, 2048.0, 1.0);
    TwoToPlus(11, 11, 2048.0, 2048.0);
    TwoToPlus(3, 22, 8.0, 4194304.0);
    TwoToNext(-1);
    Powers();
    TwoToNext(29);
    TwoToPlus(15, 0, 32768.0, 1.0);
    TwoToPlus(15, -15, 32768.0, TwoTo(-15));
    TwoToPlus(15, -30, 32768.0, TwoTo(-30));
  }

  lemma HalfWay()
    ensures RoundEven(33554434.0 / 4.0) == 8388608
  {
    assert 33554434.0 / 4.0 == 8388608.5;
  }

  lemma TotalCut()
    ensures Rounded(Single, 33554434.0) == 33554432.0
  {
    SmallPowers();
    HalfWay();
    RoundedIn(Single, 33554434.0, 25, 33554432.0, 4.0, 8388608);
  }

  lemma AroundAverage(v: real, n: int)
    requires 6710886.0 < v < 6710888.0 && n as real - 0.5 < v / 0.5 < n as real + 0.5
    ensures Rounded(Single, v) == n as real * 0.5
  {
    SmallPowers();
    RoundsTo(v / 0.5, n);
    RoundedIn(Single, v, 22, 4194304.0, 0.5, n);
  }

  lemma DoubleIsNear(v: real)
    requires v == 33554434.0 / 5.0
    ensures v - 0.01 < Rounded(Double, v) < v + 0.01
  {
    SmallPowers();
    SplitBetween(v, 22, 4194304.0);
    RoundsNear(v / TwoTo(-30));
  }

  /** Five documents of 33554434 tokens in all: the build says 6710886.5 and the merge 6710887. */
  lemma LargeAveragesDiffer()
    ensures BuiltAverage(33554434, 5) == 6710886.5 && MergedAverage(33554434, 5) == 6710887.0
  {
    Powers();
    TotalCut();
    WholeKept(Single, 5);
    AroundAverage(33554432.0 / 5.0, 13421773);
    WholeKept(Double, 33554434);
    WholeKept(Double, 5);
    DoubleIsNear(33554434.0 / 5.0);
    AroundAverage(Rounded(Double, 33554434.0 / 5.0), 13421774);
  }

  /** Mantissa and exponent of a value are those of its bits. */
  lemma SplitOfBits(b: nat, x: real)
    requires IsFloat(b, x)
    ensures x > 0.0 && Split(x) == (Mantissa(b), b / 0x80_0000 - 127)
  {
    LnOfSplit(x, Mantissa(b), b / 0x80_0000 - 127);
    SplitUnique(x, Mantissa(b), b / 0x80_0000 - 127);
  }

  lemma SameParts(b: nat, c: nat, s: (real, int))
    requires s == (Mantissa(b), b / 0x80_0000 - 127) && s == (Mantissa(c), c / 0x80_0000 - 127)
    ensures b == c
  {
    SameFraction(b, c);
  }

  lemma SameBits(b: nat, c: nat, x: real)
    requires IsFloat(b, x) && IsFloat(c, x)
    ensures b == c
  {
    SplitOfBits(b, x);
    SplitOfBits(c, x);
    SameParts(b, c, Split(x));
  }

  /** Bits stand for one value, and no two for the same. */
  lemma BitsOfValue(b: nat, c: nat, x: real, y: real)
    requires IsFloat(b, x) && IsFloat(c, y)
    ensures b == c <==> x == y
  {
    if x == y {
      SameBits(b, c, x);
    }
  }

  lemma SameFraction(b: nat, c: nat)
    requires Mantissa(b) == Mantissa(c)
    ensures b % 0x80_0000 == c % 0x80_0000
  {
  }

  /** Where the bits are those of the two values, they agree exactly where the values do. */
  lemma AverageBits(ratio: Tables.Ratio, total: nat, count: nat)
    requires IsFloat(ratio.built(total, count), BuiltAverage(total, count))
    requires IsFloat(ratio.merged(total, count), MergedAverage(total, count))
    ensures ratio.built(total, count) == ratio.merged(total, count)
            <==> BuiltAverage(total, count) == MergedAverage(total, count)
  {
    BitsOfValue(ratio.built(total, count), ratio.merged(total, count), BuiltAverage(total, count),
                MergedAverage(total, count));
  }
}
