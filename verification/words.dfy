/** 64-bit words: Go's bitwise operators on them, and big-endian bytes, whose order is the order of the words. */
module Words {
  import opened Bytes
  import opened Codec

  function Pow2(w: nat): (p: nat)
    ensures p > 0
  {
    if w == 0 then 1 else 2 * Pow2(w - 1)
  }

  const TOP: nat := 0x8000_0000_0000_0000

  const ONES: nat := 0xFFFF_FFFF_FFFF_FFFF

  type Word = n: nat | n <= ONES

  /** A bitwise operator on words of `w` bits. */
  function Bitwise(op: (bool, bool) -> bool, a: nat, b: nat, w: nat): nat
    decreases w, a, b
  {
    if w == 0 then 0 else 2 * Bitwise(op, a / 2, b / 2, w - 1) + if op(a % 2 == 1, b % 2 == 1) then 1 else 0
  }

  const XOR: (bool, bool) -> bool := (x, y) => x != y
  const OR: (bool, bool) -> bool := (x, y) => x || y
  const AND: (bool, bool) -> bool := (x, y) => x && y
  const CLEAR: (bool, bool) -> bool := (x, y) => x && !y

  /** With the sign bit alone on the right, an operator that keeps what meets a zero changes the sign bit alone. */
  lemma {:induction false} OnTop(op: (bool, bool) -> bool, a: nat, w: nat)
    requires 0 < w && a < Pow2(w) && op(true, false) && !op(false, false)
    ensures var top := Pow2(w - 1);
            Bitwise(op, a, top, w) == (if a < top then a else a - top) + if op(a >= top, true) then top else 0
  {
    if w == 1 {
      assert Bitwise(op, a / 2, Pow2(0) / 2, 0) == 0;
    } else {
      OnTop(op, a / 2, w - 1);
    }
  }

  lemma {:induction false} AndTop(a: nat, w: nat)
    requires 0 < w && a < Pow2(w)
    ensures Bitwise(AND, a, Pow2(w - 1), w) == if a < Pow2(w - 1) then 0 else Pow2(w - 1)
  {
    if w == 1 {
      assert Bitwise(AND, a / 2, Pow2(0) / 2, 0) == 0;
    } else {
      AndTop(a / 2, w - 1);
    }
  }

  /** A mask keeps the low bits. */
  lemma {:induction false} AndLow(high: nat, low: nat, k: nat, w: nat)
    requires k <= w && low < Pow2(k)
    ensures Bitwise(AND, high * Pow2(k) + low, Pow2(k) - 1, w) == low
  {
    if k == 0 {
      AndZero(high, w);
    } else {
      var rest := high * Pow2(k - 1);
      assert high * Pow2(k) == 2 * rest;
      AndLow(high, low / 2, k - 1, w - 1);
      assert (Pow2(k) - 1) / 2 == Pow2(k - 1) - 1 && (2 * rest + low) / 2 == rest + low / 2;
    }
  }

  lemma {:induction false} AndZero(a: nat, w: nat)
    ensures Bitwise(AND, a, 0, w) == 0
  {
    if w > 0 {
      AndZero(a / 2, w - 1);
    }
  }

  lemma {:induction false} OrZero(a: nat, w: nat)
    requires a < Pow2(w)
    ensures Bitwise(OR, a, 0, w) == a
  {
    if w > 0 {
      OrZero(a / 2, w - 1);
    }
  }

  /** Bits that do not meet are added. */
  lemma {:induction false} OrApart(a: nat, b: nat, k: nat, w: nat)
    requires k <= w && b < Pow2(k) && a < Pow2(w - k)
    ensures Bitwise(OR, a * Pow2(k), b, w) == a * Pow2(k) + b
  {
    if k == 0 {
      OrZero(a, w);
    } else {
      assert a * Pow2(k) == 2 * (a * Pow2(k - 1));
      OrApart(a, b / 2, k - 1, w - 1);
    }
  }

  lemma {:induction false} FlipAll(a: nat, w: nat)
    requires a < Pow2(w)
    ensures Bitwise(XOR, a, Pow2(w) - 1, w) == Pow2(w) - 1 - a
  {
    if w > 0 {
      FlipAll(a / 2, w - 1);
      assert (Pow2(w) - 1) / 2 == Pow2(w - 1) - 1;
    }
  }

  lemma {:induction false} Powers(w: nat)
    ensures Pow256(w) == Pow2(8 * w)
  {
    if w > 0 {
      Powers(w - 1);
      var v := 8 * w;
      assert Pow2(v) == 4 * Pow2(v - 2) && Pow2(v - 2) == 4 * Pow2(v - 4) && Pow2(v - 4) == 4 * Pow2(v - 6)
             && Pow2(v - 6) == 4 * Pow2(v - 8);
    }
  }

  lemma Constants(w: nat)
    requires w == 64
    ensures Pow2(w) == ONES + 1 && Pow2(w - 1) == TOP && Pow256(8) == ONES + 1
  {
    Widths();
    Powers(8);
  }

  function BE(n: nat, w: nat): (b: bytes)
    ensures |b| == w
    decreases w, n
  {
    if w == 0 then [] else BE(n / 256, w - 1) + [n % 256]
  }

  function UnBE(b: bytes): nat {
    if b == [] then 0 else 256 * UnBE(b[..|b| - 1]) + b[|b| - 1]
  }

  lemma {:induction false} BEOfUnBE(b: bytes)
    ensures UnBE(b) < Pow256(|b|) && BE(UnBE(b), |b|) == b
  {
    if b != [] {
      BEOfUnBE(b[..|b| - 1]);
    }
  }

  lemma LessSnoc(a: bytes, b: bytes, x: byte, y: byte)
    requires |a| == |b| && (Less(a, b) || (a == b && x < y))
    ensures Less(a + [x], b + [y])
  {
    if a == b {
      assert (a + [x])[..|a|] == (b + [y])[..|a|];
      assert Splits(a + [x], b + [y], |a|);
    } else {
      var p: nat :| Splits(a, b, p);
      assert (a + [x])[..p] == a[..p] && (b + [y])[..p] == b[..p];
      assert Splits(a + [x], b + [y], p);
    }
  }

  lemma {:induction false} BEAscends(m: nat, n: nat, w: nat)
    requires m < n < Pow256(w)
    ensures Less(BE(m, w), BE(n, w))
    decreases w
  {
    if w > 0 {
      if m / 256 < n / 256 {
        BEAscends(m / 256, n / 256, w - 1);
      }
      LessSnoc(BE(m / 256, w - 1), BE(n / 256, w - 1), m % 256, n % 256);
    }
  }

  /** Byte order of big-endian words of one width is their order. */
  lemma BEOrder(m: nat, n: nat, w: nat)
    requires m < Pow256(w) && n < Pow256(w)
    ensures Less(BE(m, w), BE(n, w)) <==> m < n
  {
    LessTotal(BE(m, w), BE(n, w));
    if m < n {
      BEAscends(m, n, w);
    } else if n < m {
      BEAscends(n, m, w);
    }
  }

  /** `binary.BigEndian.PutUint64`. */
  method PutUint64(dst: array<byte>, n: Word)
    requires dst.Length >= 8
    modifies dst
    ensures dst[..8] == BE(n, 8) && dst[8..] == old(dst[8..])
  {
    var i, rest := 8, n;
    while i > 0
      invariant 0 <= i <= 8 && BE(n, 8) == BE(rest, i) + dst[i..8] && dst[8..] == old(dst[8..])
    {
      i := i - 1;
      dst[i], rest := rest % 256, rest / 256;
      assert dst[i..8] == [dst[i]] + dst[i + 1..8];
    }
  }
}
