/**
 fastlog/ln.go and query/bm25.go: the piecewise cubic logarithm and the inverse document frequency, over exact reals.
 The source reads mantissa and exponent off the bits of a float; here a positive real is split into the same two.
 */
module FastLog {
  import opened Words

  function TwoTo(t: int): (p: real)
    ensures p > 0.0
    decreases if t < 0 then -t else t
  {
    if t == 0 then 1.0 else if t > 0 then 2.0 * TwoTo(t - 1) else TwoTo(t + 1) / 2.0
  }

  lemma TwoToNext(t: int)
    ensures TwoTo(t + 1) == 2.0 * TwoTo(t)
  {
  }

  predicate Splits(x: real, m: real, t: int) {
    1.0 <= m < 2.0 && x == m * TwoTo(t)
  }

  lemma Doubled(x: real, m: real, t: int)
    ensures Splits(x, m, t) <==> Splits(2.0 * x, m, t + 1)
  {
    TwoToNext(t);
    assert m * (2.0 * TwoTo(t)) == 2.0 * (m * TwoTo(t));
  }

  /** Mantissa and exponent from one up, by halving. */
  function SplitUp(x: real): (s: (real, int))
    requires x >= 1.0
    ensures Splits(x, s.0, s.1)
    decreases x.Floor
  {
    if x < 2.0 then (x, 0) else
      var s := SplitUp(x / 2.0);
      Doubled(x / 2.0, s.0, s.1);
      (s.0, s.1 + 1)
  }

  lemma Inverse(x: real)
    requires 0.0 < x < 1.0
    ensures 1.0 / (2.0 * x) == (1.0 / x) / 2.0 && 1.0 / x > 1.0
  {
    var y := 1.0 / x;
    assert y * x == 1.0;
    assert (y / 2.0) * (2.0 * x) == 1.0;
    if y <= 1.0 {
      Product(y, 1.0, x);
    }
  }

  lemma Product(a: real, b: real, p: real)
    requires a <= b && p >= 0.0
    ensures a * p <= b * p
  {
  }

  /** Mantissa and exponent below one, by doubling. */
  function SplitDown(x: real): (s: (real, int))
    requires 0.0 < x < 1.0
    ensures Splits(x, s.0, s.1)
    decreases (1.0 / x).Floor
  {
    Inverse(x);
    var s := if x >= 0.5 then (2.0 * x, 0) else SplitDown(2.0 * x);
    Doubled(x, s.0, s.1 - 1);
    (s.0, s.1 - 1)
  }

  /** The mantissa and the exponent of a positive real. */
  function Split(x: real): (s: (real, int))
    requires x > 0.0
    ensures Splits(x, s.0, s.1)
  {
    if x >= 1.0 then SplitUp(x) else SplitDown(x)
  }

  function Cubic(m: real): real {
    -1.49278 + (2.11263 + (-0.729104 + 0.10969 * m) * m) * m
  }

  const LN2: real := 0.6931471806

  function Ln(x: real): real
    requires x > 0.0
  {
    var (m, t) := Split(x);
    Cubic(m) + LN2 * t as real
  }

  lemma Expanded(m: real)
    ensures Cubic(m) == -1.49278 + 2.11263 * m - 0.729104 * (m * m) + 0.10969 * (m * m * m)
  {
  }

  lemma Differences(m: real, n: real)
    ensures (n - m) * (m + n) == n * n - m * m
    ensures (n - m) * (m * m + m * n + n * n) == n * n * n - m * m * m
  {
  }

  /** `Cubic(n) - Cubic(m)` over `n - m`. */
  ghost function Slope(m: real, n: real): real {
    2.11263 - 0.729104 * (m + n) + 0.10969 * (m * m + m * n + n * n)
  }

  lemma Spread(d: real, a: real, b: real)
    ensures d * (2.11263 - 0.729104 * a + 0.10969 * b) == 2.11263 * d - 0.729104 * (d * a) + 0.10969 * (d * b)
  {
  }

  lemma SlopePositive(m: real, n: real)
    requires m + n <= 4.0
    ensures Slope(m, n) > 0.0
  {
    var u, v := m + n - 4.0, m - n;
    assert u * u >= 0.0 && v * v >= 0.0;
    Squares(m, n);
  }

  lemma Squares(m: real, n: real)
    ensures 4.0 * (m * m + m * n + n * n)
            == 3.0 * ((m + n - 4.0) * (m + n - 4.0)) + (m - n) * (m - n) + 24.0 * (m + n) - 48.0
  {
  }

  lemma CubicAscends(m: real, n: real)
    requires m < n <= 2.0
    ensures Cubic(m) < Cubic(n)
  {
    Expanded(m);
    Expanded(n);
    Differences(m, n);
    Spread(n - m, m + n, m * m + m * n + n * n);
    SlopePositive(m, n);
    assert (n - m) * Slope(m, n) > 0.0;
  }

  lemma {:induction false} TwoToAscends(t: int, u: int)
    requires t < u
    ensures 2.0 * TwoTo(t) <= TwoTo(u)
    decreases u - t
  {
    TwoToNext(u - 1);
    if t < u - 1 {
      TwoToAscends(t, u - 1);
    }
  }

  lemma InBinade(x: real, m: real, t: int, p: real)
    requires Splits(x, m, t) && p == TwoTo(t)
    ensures p <= x < 2.0 * p
  {
    Doubling(x, m, p);
  }

  lemma Doubling(x: real, m: real, p: real)
    requires 1.0 <= m < 2.0 && p > 0.0 && x == m * p
    ensures p <= x < 2.0 * p
  {
    assert (m - 1.0) * p >= 0.0 && (2.0 - m) * p > 0.0;
  }

  lemma HigherBinade(x: real, m: real, t: int, y: real, n: real, u: int)
    requires Splits(x, m, t) && Splits(y, n, u) && u < t
    ensures y < x
  {
    InBinade(x, m, t, TwoTo(t));
    InBinade(y, n, u, TwoTo(u));
    TwoToAscends(u, t);
  }

  lemma Below(a: real, b: real, p: real)
    requires a < b && p > 0.0
    ensures a * p < b * p
  {
  }

  /** A larger number has a larger exponent, or the same one and a larger mantissa. */
  lemma SplitOrder(x: real, m: real, t: int, y: real, n: real, u: int)
    requires Splits(x, m, t) && Splits(y, n, u) && x < y
    ensures t < u || (t == u && m < n)
  {
    if u < t {
      HigherBinade(x, m, t, y, n, u);
    } else if t == u && n <= m {
      Product(n, m, TwoTo(t));
    }
  }

  lemma SplitUnique(x: real, m: real, t: int)
    requires x > 0.0 && Splits(x, m, t)
    ensures Split(x) == (m, t)
  {
    var (n, u) := Split(x);
    if u < t {
      HigherBinade(x, m, t, x, n, u);
    } else if t < u {
      HigherBinade(x, n, u, x, m, t);
    } else if m < n {
      Below(m, n, TwoTo(t));
    } else if n < m {
      Below(n, m, TwoTo(t));
    }
  }

  /** Within a binade the logarithm strictly grows. */
  lemma LnAscends(x: real, y: real)
    requires 0.0 < x < y && Split(x).1 == Split(y).1
    ensures Ln(x) < Ln(y)
  {
    SplitOrder(x, Split(x).0, Split(x).1, y, Split(y).0, Split(y).1);
    CubicAscends(Split(x).0, Split(y).0);
  }

  /** Over all it drops by less than a millionth. */
  lemma LnNearlyAscends(x: real, y: real)
    requires 0.0 < x < y
    ensures Ln(x) < Ln(y) + 0.000001
  {
    var (m, t) := Split(x);
    var (n, u) := Split(y);
    SplitOrder(x, m, t, y, n, u);
    if t == u {
      LnAscends(x, y);
    } else {
      CubicAscends(m, 2.0);
      if 1.0 < n {
        CubicAscends(1.0, n);
      }
      Expanded(1.0);
      Expanded(2.0);
    }
  }

  /** The first number of the next binade, and what the logarithm is there. */
  lemma NextBinade(x: real)
    requires x > 0.0
    ensures var y := TwoTo(Split(x).1 + 1); x < y && Ln(y) == Cubic(1.0) + LN2 * (Split(x).1 + 1) as real
  {
    var (m, t) := Split(x);
    TwoToNext(t);
    InBinade(x, m, t, TwoTo(t));
    SplitUnique(TwoTo(t + 1), 1.0, t + 1);
  }

  /** Nothing in a later binade lies below its first number in the next one. */
  lemma LaterBinade(x: real, y: real)
    requires 0.0 < x && y > 0.0 && Split(x).1 < Split(y).1
    ensures Ln(y) >= Cubic(1.0) + LN2 * (Split(x).1 + 1) as real
  {
    if 1.0 < Split(y).0 {
      CubicAscends(1.0, Split(y).0);
    }
  }

  /**
   Everything above a number has a larger logarithm, exactly when the number lies before the drop at the end of its
   binade.
   */
  lemma LnBelowAllAbove(x: real)
    requires x > 0.0
    ensures (forall y: real :: y > x ==> Ln(x) < Ln(y)) <==> Cubic(Split(x).0) < Cubic(1.0) + LN2
  {
    NextBinade(x);
    if Cubic(Split(x).0) < Cubic(1.0) + LN2 {
      forall y: real | y > x
        ensures Ln(x) < Ln(y)
      {
        SplitOrder(x, Split(x).0, Split(x).1, y, Split(y).0, Split(y).1);
        if Split(x).1 == Split(y).1 {
          LnAscends(x, y);
        } else {
          LaterBinade(x, y);
        }
      }
    }
  }

  /** Which pairs come out in the wrong order: neighbouring binades, and the upper mantissa has not caught up. */
  lemma LnOutOfOrder(x: real, y: real)
    requires 0.0 < x < y
    ensures Ln(x) >= Ln(y) <==> Split(y).1 == Split(x).1 + 1 && Cubic(Split(x).0) >= Cubic(Split(y).0) + LN2
  {
    var (m, t) := Split(x);
    var (n, u) := Split(y);
    SplitOrder(x, m, t, y, n, u);
    if t == u {
      LnAscends(x, y);
    } else if u > t + 1 {
      LaterBinade(x, y);
      CubicAscends(m, 2.0);
      if 1.0 < n {
        CubicAscends(1.0, n);
      }
      Expanded(1.0);
      Expanded(2.0);
    }
  }

  /** The last mantissa that a float32 can have. */
  const LastMantissa := 2.0 - 1.0 / 8388608.0

  /** It drops where a binade ends, at every one: from its last float to the first of the next. */
  lemma LnDrops(t: int)
    ensures var x, y := LastMantissa * TwoTo(t), TwoTo(t + 1); 0.0 < x < y && Ln(x) > Ln(y)
  {
    var p := TwoTo(t);
    var x := LastMantissa * p;
    TwoToNext(t);
    Doubling(x, LastMantissa, p);
    LnOfSplit(x, LastMantissa, t);
    LnOfSplit(TwoTo(t + 1), 1.0, t + 1);
    Expanded(1.0);
    Expanded(LastMantissa);
  }

  /** Doubling adds the same everywhere, as with the logarithm. */
  lemma LnDoubled(x: real)
    requires x > 0.0
    ensures Ln(2.0 * x) == Ln(x) + LN2
  {
    var (m, t) := Split(x);
    Doubled(x, m, t);
    SplitUnique(2.0 * x, m, t + 1);
  }

  lemma LnPositive(x: real)
    requires x >= 1.0
    ensures Ln(x) > 0.0
  {
    var (m, t) := Split(x);
    if t < 0 {
      HigherBinade(1.0, 1.0, 0, x, m, t);
    }
    if 1.0 < m {
      CubicAscends(1.0, m);
    }
    Expanded(1.0);
  }

  /** The mantissa that the low bits of a float32 stand for. */
  function Mantissa(bx: nat): (m: real)
    ensures 1.0 <= m < 2.0
  {
    1.0 + (bx % 0x80_0000) as real / 8388608.0
  }

  /** The value of a positive normal float32, given by its bits. */
  ghost predicate IsFloat(bx: nat, x: real) {
    0x80_0000 <= bx < 0x7F80_0000 && x == Mantissa(bx) * TwoTo(bx / 0x80_0000 - 127)
  }

  function FractionOf(bx: nat): nat {
    Bitwise(AND, bx, 8388607, 32)
  }

  function UnderOne(fraction: nat): nat {
    Bitwise(OR, 1065353216, fraction, 32)
  }

  /** What the code makes of the bits: the exponent shifted out, the fraction put under the exponent of one. */
  function LnOfBits(bx: nat): real
    requires bx < 0x1_0000_0000
  {
    var t := bx / 0x80_0000 - 127;
    Cubic(Mantissa(UnderOne(FractionOf(bx)))) + LN2 * t as real
  }

  lemma Sixteenfold(w: nat)
    ensures Pow2(w + 4) == 16 * Pow2(w)
  {
    assert Pow2(w + 4) == 4 * Pow2(w + 2) && Pow2(w + 2) == 4 * Pow2(w);
  }

  lemma Powers23()
    ensures Pow2(23) == 0x80_0000 && Pow2(9) == 512
  {
    Sixteenfold(1);
    Sixteenfold(5);
    assert Pow2(1) == 2;
    Sixteenfold(3);
    Sixteenfold(7);
    Sixteenfold(11);
    Sixteenfold(15);
    Sixteenfold(19);
  }

  lemma LowBits(n: nat, high: nat, low: nat, p: nat, mask: nat)
    requires p == Pow2(23) && low < p && n == high * p + low && mask == p - 1
    ensures Bitwise(AND, n, mask, 32) == low
  {
    AndLow(high, low, 23, 32);
  }

  lemma UnderExponent(low: nat, p: nat)
    requires p == Pow2(23) && low < p && Pow2(9) == 512
    ensures Bitwise(OR, 127 * p, low, 32) == 127 * p + low
  {
    OrApart(127, low, 23, 32);
  }

  lemma FractionIsLow(bx: nat)
    ensures FractionOf(bx) == bx % 0x80_0000
  {
    var high, low := bx / 0x80_0000, bx % 0x80_0000;
    Powers23();
    assert bx == high * 0x80_0000 + low;
    LowBits(bx, high, low, 0x80_0000, 0x7F_FFFF);
  }

  lemma UnderOneAdds(fraction: nat)
    requires fraction < 0x80_0000
    ensures UnderOne(fraction) == 1065353216 + fraction
  {
    Powers23();
    UnderExponent(fraction, 0x80_0000);
  }

  lemma MantissaBits(bx: nat)
    ensures Mantissa(UnderOne(FractionOf(bx))) == Mantissa(bx)
  {
    FractionIsLow(bx);
    UnderOneAdds(bx % 0x80_0000);
    LowUnderOne(bx % 0x80_0000);
  }

  lemma LowUnderOne(fraction: nat)
    requires fraction < 0x80_0000
    ensures (1065353216 + fraction) % 0x80_0000 == fraction
  {
  }

  lemma SplitPositive(x: real, m: real, t: int, p: real)
    requires Splits(x, m, t) && p == TwoTo(t)
    ensures x > 0.0
  {
    InBinade(x, m, t, p);
  }

  lemma LnOfSplit(x: real, m: real, t: int)
    requires Splits(x, m, t)
    ensures x > 0.0 && Ln(x) == Cubic(m) + LN2 * t as real
  {
    SplitPositive(x, m, t, TwoTo(t));
    SplitUnique(x, m, t);
  }

  /** The logarithm of a mantissa times a power of two. */
  lemma LnIs(m: real, t: int)
    requires 1.0 <= m < 2.0
    ensures m * TwoTo(t) > 0.0
    ensures Ln(m * TwoTo(t))
            == -1.49278 + 2.11263 * m - 0.729104 * (m * m) + 0.10969 * (m * m * m) + 0.6931471806 * t as real
  {
    LnOfSplit(m * TwoTo(t), m, t);
    Expanded(m);
  }

  /** The bits of a positive normal float32 are its exponent and its mantissa. */
  lemma LnBits(bx: nat, x: real)
    requires IsFloat(bx, x)
    ensures x > 0.0 && LnOfBits(bx) == Ln(x)
  {
    MantissaBits(bx);
    LnOfSplit(x, Mantissa(bx), bx / 0x80_0000 - 127);
  }

  /** `InverseDocumentFrequency`. */
  function Idf(docCount: nat, docFreq: nat): real {
    if docFreq > docCount || docCount == 0 then 0.0
    else Ln(1.0 + Odds(docCount, docFreq))
  }

  function Odds(docCount: nat, docFreq: nat): (o: real)
    requires docFreq <= docCount
    ensures o > 0.0
  {
    ((docCount - docFreq) as real + 0.5) / (docFreq as real + 0.5)
  }

  /** A token in d of n documents has the inverse odds of one in all the others; one in none has the most. */
  lemma OddsBalance(n: nat, d: nat)
    requires d <= n
    ensures Odds(n, d) * Odds(n, n - d) == 1.0
    ensures Odds(n, 0) == 2.0 * n as real + 1.0
    ensures (1.0 + Odds(n, d)) * (2.0 * d as real + 1.0) == 2.0 * n as real + 2.0
  {
    Reciprocal((n - d) as real + 0.5, d as real + 0.5);
    var o, b := Odds(n, d), d as real + 0.5;
    assert o * b == (n - d) as real + 0.5;
    assert (1.0 + o) * (2.0 * b) == 2.0 * b + 2.0 * (o * b);
  }

  /** The weight of a token is the logarithm of twice the documents and two over twice its own and one. */
  lemma IdfIs(n: nat, d: nat)
    requires d <= n && n > 0
    ensures Idf(n, d) == Ln((2.0 * n as real + 2.0) / (2.0 * d as real + 1.0))
  {
    OddsBalance(n, d);
    DividedBy(1.0 + Odds(n, d), 2.0 * d as real + 1.0, 2.0 * n as real + 2.0);
  }

  lemma DividedBy(q: real, b: real, a: real)
    requires b > 0.0 && q * b == a
    ensures a / b == q
  {
    var r := a / b;
    assert r * b == a;
    if q < r {
      Below(q, r, b);
    } else if r < q {
      Below(r, q, b);
    }
  }

  lemma Reciprocal(a: real, b: real)
    requires a > 0.0 && b > 0.0
    ensures (a / b) * (b / a) == 1.0
  {
    var x, y := a / b, b / a;
    assert x * b == a && y * a == b;
    Regrouped(x, y, a);
    if x * y < 1.0 {
      Below(x * y, 1.0, a);
    } else if x * y > 1.0 {
      Below(1.0, x * y, a);
    }
  }

  lemma Regrouped(x: real, y: real, a: real)
    ensures (x * y) * a == x * (y * a)
  {
  }

  lemma OddsDescend(n: nat, d: nat, d': nat)
    requires d < d' <= n
    ensures Odds(n, d') < Odds(n, d)
  {
    var a, b, a', b' := (n - d) as real + 0.5, d as real + 0.5, (n - d') as real + 0.5, d' as real + 0.5;
    Fraction(a', b', a, b);
  }

  lemma Fraction(a: real, b: real, c: real, d: real)
    requires 0.0 < a < c && 0.0 < d < b
    ensures a / b < c / d
  {
    var x, y := a / b, c / d;
    assert x * b == a && y * d == c;
    if y <= x {
      Product(y, x, d);
      Product(d, b, x);
    }
  }

  /** The weight of a token is positive exactly when its frequency is possible in the collection, and zero otherwise. */
  lemma IdfPositive(docCount: nat, docFreq: nat)
    ensures Idf(docCount, docFreq) > 0.0 <==> docFreq <= docCount && docCount > 0
    ensures Idf(docCount, docFreq) >= 0.0
  {
    if docFreq <= docCount && docCount > 0 {
      LnPositive(1.0 + Odds(docCount, docFreq));
    }
  }

  /** A rarer token never weighs less, but for a millionth. */
  lemma IdfRarer(docCount: nat, docFreq: nat, more: nat)
    requires docFreq < more <= docCount
    ensures Idf(docCount, more) < Idf(docCount, docFreq) + 0.000001
  {
    OddsDescend(docCount, docFreq, more);
    LnNearlyAscends(1.0 + Odds(docCount, more), 1.0 + Odds(docCount, docFreq));
  }
}
