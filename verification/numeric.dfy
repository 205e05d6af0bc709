/**
 numeric/int64.go and numeric/float64.go: numbers as eight bytes that sort as the numbers do. A float64 is given by its
 bits, as `math.Float64bits` gives them.
 */
module Numeric {
  import opened Bytes
  import opened Words

  type Int64 = v: int | -0x8000_0000_0000_0000 <= v < 0x8000_0000_0000_0000

  /** The conversion `uint64(v)`. */
  function Unsigned(v: Int64): Word {
    if v < 0 then v + ONES + 1 else v
  }

  /** The conversion `int64(n)`. */
  function Signed(n: Word): Int64 {
    if n < TOP then n else n - ONES - 1
  }

  /** The bytes of an integer: its distance from the smallest one. */
  function SortableInteger(v: Int64): bytes {
    BE(v + TOP, 8)
  }

  method PutSortableInteger(dst: array<byte>, v: Int64)
    requires dst.Length >= 8
    modifies dst
    ensures dst[..] == SortableInteger(v) + old(dst[8..])
  {
    var n := Bitwise(XOR, Unsigned(v), TOP, 64);
    Constants(64);
    OnTop(XOR, Unsigned(v), 64);
    PutUint64(dst, n);
    assert dst[..] == dst[..8] + dst[8..];
  }

  method DecodeInteger(src: bytes) returns (v: Int64)
    requires |src| >= 8
    ensures SortableInteger(v) == src[..8]
  {
    var n := UnBE(src[..8]);
    BEOfUnBE(src[..8]);
    Constants(64);
    OnTop(XOR, n, 64);
    var flipped: Word := Bitwise(XOR, n, TOP, 64);
    SignedBack(flipped, n);
    v := Signed(flipped);
  }

  /** Turning the top bit over shifts by half the words. */
  lemma SignedBack(flipped: Word, n: Word)
    requires flipped == if n < TOP then n + TOP else n - TOP
    ensures Signed(flipped) + TOP == n
  {
  }

  /** Byte order of encoded integers is the order of the integers; with it, no two share their bytes. */
  lemma IntegerOrder(v: Int64, w: Int64)
    ensures Less(SortableInteger(v), SortableInteger(w)) <==> v < w
    ensures SortableInteger(v) == SortableInteger(w) ==> v == w
  {
    Constants(64);
    BEOrder(v + TOP, w + TOP, 8);
    BEOrder(w + TOP, v + TOP, 8);
    LessTotal(SortableInteger(v), SortableInteger(v));
  }

  function Negative(x: Word): bool {
    x >= TOP
  }

  function Exponent(x: Word): nat {
    x / 0x10_0000_0000_0000 % 2048
  }

  function Fraction(x: Word): nat {
    x % 0x10_0000_0000_0000
  }

  function IsNaN(x: Word): bool {
    Exponent(x) == 2047 && Fraction(x) != 0
  }

  function IsInfinite(x: Word): bool {
    Exponent(x) == 2047 && Fraction(x) == 0
  }

  function Scaled(exponent: nat, fraction: nat): nat {
    if exponent == 0 then fraction else (0x10_0000_0000_0000 + fraction) * Pow2(exponent - 1)
  }

  /** The value of a finite number, in units of the smallest positive one. */
  function Value(x: Word): int {
    var m: int := Scaled(Exponent(x), Fraction(x));
    if Negative(x) then -m else m
  }

  /** `x < y` of two that are no NaN. */
  predicate LessValue(x: Word, y: Word) {
    if IsInfinite(x) then Negative(x) && !(IsInfinite(y) && Negative(y))
    else if IsInfinite(y) then !Negative(y)
    else Value(x) < Value(y)
  }

  predicate IsQuiet(x: Word) {
    Fraction(x) >= 0x8_0000_0000_0000
  }

  function Payload(x: Word): nat {
    Fraction(x) % 0x8_0000_0000_0000
  }

  /** Of two positive NaN, the signalling one comes first, then the one of smaller payload. */
  predicate LessNaN(x: Word, y: Word) {
    if IsQuiet(x) == IsQuiet(y) then Payload(x) < Payload(y) else IsQuiet(y)
  }

  /** `x` strictly before `y` in the total order of section 5.10 of IEEE 754-2019, on binary64. */
  predicate TotallyBefore(x: Word, y: Word) {
    if IsNaN(x) && IsNaN(y) then
      if Negative(x) != Negative(y) then Negative(x) else if Negative(x) then LessNaN(y, x) else LessNaN(x, y)
    else if IsNaN(x) then Negative(x)
    else if IsNaN(y) then !Negative(y)
    else LessValue(x, y) || (!LessValue(y, x) && Negative(x) && !Negative(y))
  }

  /** The bytes of a float: negative ones in reverse, below the others. */
  function SortableFloat(x: Word): bytes {
    BE(FloatRank(x), 8)
  }

  function FloatRank(x: Word): Word {
    if Negative(x) then ONES - x else x + TOP
  }

  method PutSortableFloat(dst: array<byte>, x: Word)
    requires dst.Length >= 8
    modifies dst
    ensures dst[..] == SortableFloat(x) + old(dst[8..])
  {
    var bits := x;
    Constants(64);
    AndTop(x, 64);
    OnTop(OR, x, 64);
    FlipAll(x, 64);
    if Bitwise(AND, bits, TOP, 64) != 0 {
      bits := Bitwise(XOR, bits, ONES, 64);
    } else {
      bits := Bitwise(OR, bits, TOP, 64);
    }
    PutUint64(dst, bits);
    assert dst[..] == dst[..8] + dst[8..];
  }

  method DecodeFloat(src: bytes) returns (x: Word)
    requires |src| >= 8
    ensures SortableFloat(x) == src[..8]
  {
    BEOfUnBE(src[..8]);
    Constants(64);
    x := FloatOfRank(UnBE(src[..8]));
  }

  method FloatOfRank(bits: Word) returns (x: Word)
    ensures FloatRank(x) == bits
  {
    Constants(64);
    AndTop(bits, 64);
    OnTop(CLEAR, bits, 64);
    FlipAll(bits, 64);
    if Bitwise(AND, bits, TOP, 64) != 0 {
      x := Bitwise(CLEAR, bits, TOP, 64);
    } else {
      x := Bitwise(XOR, bits, ONES, 64);
    }
  }

  lemma {:induction false} Pow2Ascends(m: nat, n: nat)
    requires m <= n
    ensures Pow2(m) <= Pow2(n)
  {
    if m < n {
      Pow2Ascends(m, n - 1);
    }
  }

  /** Along exponent and then fraction the value grows. */
  lemma ScaledAscends(e: nat, f: nat, e': nat, f': nat)
    requires f < 0x10_0000_0000_0000 && f' < 0x10_0000_0000_0000 && (e < e' || (e == e' && f < f'))
    ensures Scaled(e, f) < Scaled(e', f')
  {
    if e == e' {
      if e > 0 {
        Times(0x10_0000_0000_0000 + f, 0x10_0000_0000_0000 + f', Pow2(e - 1));
      }
    } else if e == 0 {
      Times(1, 0x10_0000_0000_0000 + f' + 1, Pow2(e' - 1));
      AtLeast(0x10_0000_0000_0000 + f', Pow2(e' - 1));
    } else {
      Times(0x10_0000_0000_0000 + f, 0x20_0000_0000_0000, Pow2(e - 1));
      Pow2Ascends(e, e' - 1);
      AtMostTimes(0x10_0000_0000_0000, Pow2(e), 0x10_0000_0000_0000 + f', Pow2(e' - 1));
      assert 0x20_0000_0000_0000 * Pow2(e - 1) == 0x10_0000_0000_0000 * Pow2(e);
    }
  }

  lemma Times(a: nat, b: nat, p: nat)
    requires a < b && p > 0
    ensures a * p < b * p
  {
  }

  lemma AtLeast(a: nat, p: nat)
    requires p > 0
    ensures a <= a * p
  {
  }

  lemma AtMostTimes(a: nat, p: nat, b: nat, q: nat)
    requires a <= b && p <= q
    ensures a * p <= b * q
  {
    assert a * p <= a * q <= b * q;
  }

  /** The bits without the sign. */
  function Unsign(x: Word): nat {
    if Negative(x) then x - TOP else x
  }

  lemma Fields(x: Word)
    ensures Unsign(x) == Exponent(x) * 0x10_0000_0000_0000 + Fraction(x)
  {
  }

  lemma ValuesOrder(x: Word, y: Word)
    ensures Scaled(Exponent(x), Fraction(x)) < Scaled(Exponent(y), Fraction(y)) <==> Unsign(x) < Unsign(y)
  {
    Fields(x);
    Fields(y);
    if Unsign(x) < Unsign(y) {
      ScaledAscends(Exponent(x), Fraction(x), Exponent(y), Fraction(y));
    } else if Unsign(y) < Unsign(x) {
      ScaledAscends(Exponent(y), Fraction(y), Exponent(x), Fraction(x));
    }
  }

  lemma RankByUnsign(x: Word, y: Word)
    ensures FloatRank(x) < FloatRank(y) <==>
            if Negative(x) != Negative(y) then Negative(x) else if Negative(x) then Unsign(y) < Unsign(x)
                else Unsign(x) < Unsign(y)
  {
  }

  lemma NaNOrder(x: Word, y: Word)
    requires IsNaN(x) && IsNaN(y)
    ensures LessNaN(x, y) <==> Unsign(x) < Unsign(y)
  {
    Fields(x);
    Fields(y);
  }

  lemma NumberBelowNaN(x: Word, y: Word)
    requires !IsNaN(x) && IsNaN(y)
    ensures Unsign(x) < Unsign(y)
  {
    Fields(x);
    Fields(y);
  }

  lemma FiniteBelowInfinite(x: Word, y: Word)
    requires !IsNaN(x) && !IsInfinite(x) && IsInfinite(y)
    ensures Unsign(x) < Unsign(y)
  {
    Fields(x);
    Fields(y);
  }

  lemma InfiniteSame(x: Word, y: Word)
    requires IsInfinite(x) && IsInfinite(y)
    ensures Unsign(x) == Unsign(y)
  {
    Fields(x);
    Fields(y);
  }

  lemma NumberOrder(x: Word, y: Word)
    requires !IsNaN(x) && !IsNaN(y)
    ensures FloatRank(x) < FloatRank(y) <==> TotallyBefore(x, y)
  {
    RankByUnsign(x, y);
    if IsInfinite(x) && IsInfinite(y) {
      InfiniteSame(x, y);
    } else if IsInfinite(x) {
      FiniteBelowInfinite(y, x);
    } else if IsInfinite(y) {
      FiniteBelowInfinite(x, y);
    } else {
      ValuesOrder(x, y);
      ValuesOrder(y, x);
    }
  }

  lemma RankOrder(x: Word, y: Word)
    ensures FloatRank(x) < FloatRank(y) <==> TotallyBefore(x, y)
  {
    RankByUnsign(x, y);
    if IsNaN(x) && IsNaN(y) {
      NaNOrder(x, y);
      NaNOrder(y, x);
    } else if IsNaN(x) {
      NumberBelowNaN(y, x);
    } else if IsNaN(y) {
      NumberBelowNaN(x, y);
    } else {
      NumberOrder(x, y);
    }
  }

  /** Byte order of encoded floats is the total order of IEEE 754; with it, no two share their bytes. */
  lemma FloatOrder(x: Word, y: Word)
    ensures Less(SortableFloat(x), SortableFloat(y)) <==> TotallyBefore(x, y)
    ensures SortableFloat(x) == SortableFloat(y) ==> x == y
  {
    Constants(64);
    RankOrder(x, y);
    BEOrder(FloatRank(x), FloatRank(y), 8);
    BEOrder(FloatRank(y), FloatRank(x), 8);
    LessTotal(SortableFloat(x), SortableFloat(x));
  }
}
