/** Little-endian integers and tables of fixed-stride records, as the index file stores them. */
module Codec {
  import opened Bytes

  function Pow256(w: nat): (p: nat)
    ensures p > 0
  {
    if w == 0 then 1 else 256 * Pow256(w - 1)
  }

  function LE(n: nat, w: nat): (b: bytes)
    ensures |b| == w
    decreases w, n
  {
    if w == 0 then [] else [n % 256] + LE(n / 256, w - 1)
  }

  function UnLE(b: bytes): nat {
    if b == [] then 0 else b[0] + 256 * UnLE(b[1..])
  }

  lemma {:induction false} UnLEOfLE(n: nat, w: nat)
    requires n < Pow256(w)
    ensures UnLE(LE(n, w)) == n
    decreases w
  {
    if w > 0 {
      UnLEOfLE(n / 256, w - 1);
      assert LE(n, w)[1..] == LE(n / 256, w - 1);
    }
  }

  lemma {:induction false} UnLEBound(b: bytes)
    ensures UnLE(b) < Pow256(|b|)
  {
    if b != [] {
      UnLEBound(b[1..]);
    }
  }

  lemma Widths()
    ensures Pow256(2) == 0x1_0000 && Pow256(4) == 0x1_0000_0000 && Pow256(8) == 0x1_0000_0000_0000_0000
  {
    assert Pow256(4) == 256 * (256 * (256 * (256 * Pow256(0))));
  }

  /** The records of `xs`, one after the other. */
  function Encode<T>(f: T -> bytes, xs: seq<T>): bytes {
    if xs == [] then [] else Encode(f, xs[..|xs| - 1]) + f(xs[|xs| - 1])
  }

  /** `n` records of `size` bytes each, read from the front of `b`. */
  function Decode<T>(g: bytes -> T, size: nat, n: nat, b: bytes): (xs: seq<T>)
    requires n * size <= |b|
    ensures |xs| == n
  {
    seq(n, i requires 0 <= i < n => (Stride(i, n, size); g(b[i * size..i * size + size])))
  }

  lemma {:induction false} Stride(i: nat, n: nat, size: nat)
    requires i < n
    ensures i * size + size <= n * size
  {
    if i < n - 1 {
      Stride(i, n - 1, size);
    }
    assert n * size == (n - 1) * size + size;
  }

  lemma {:induction false} EncodeConcat<T>(f: T -> bytes, xs: seq<T>, ys: seq<T>)
    ensures Encode(f, xs + ys) == Encode(f, xs) + Encode(f, ys)
    decreases |ys|
  {
    if ys == [] {
      assert xs + ys == xs;
    } else {
      var init, y := ys[..|ys| - 1], ys[|ys| - 1];
      EncodeConcat(f, xs, init);
      EncodeSnoc(f, xs + init, y);
      assert xs + init + [y] == xs + ys;
    }
  }

  lemma EncodeSnoc<T>(f: T -> bytes, xs: seq<T>, x: T)
    ensures Encode(f, xs + [x]) == Encode(f, xs) + f(x)
  {
    assert (xs + [x])[..|xs|] == xs;
  }

  /** Record i of a table stands where the records before it end. */
  lemma {:induction false} EncodeAt<T>(f: T -> bytes, size: nat, xs: seq<T>, i: nat, rest: bytes, at: nat)
    requires i < |xs| && at == i * size && forall x :: |f(x)| == size
    ensures at + size <= |Encode(f, xs)| && (Encode(f, xs) + rest)[at..at + size] == f(xs[i])
    decreases |xs|
  {
    var n := |xs| - 1;
    EncodeLength(f, size, xs[..n]);
    if i < n {
      EncodeAt(f, size, xs[..n], i, f(xs[n]) + rest, at);
      assert Encode(f, xs) + rest == Encode(f, xs[..n]) + (f(xs[n]) + rest);
    }
  }

  lemma {:induction false} EncodeLength<T>(f: T -> bytes, size: nat, xs: seq<T>)
    requires forall x :: |f(x)| == size
    ensures |Encode(f, xs)| == |xs| * size
    decreases |xs|
  {
    if xs != [] {
      EncodeLength(f, size, xs[..|xs| - 1]);
      assert |xs| * size == (|xs| - 1) * size + size;
    }
  }

  /** Reading back the table that was written, whatever follows it. */
  lemma DecodeOfEncode<T>(f: T -> bytes, g: bytes -> T, size: nat, xs: seq<T>, rest: bytes)
    requires (forall x :: |f(x)| == size) && forall i | 0 <= i < |xs| :: g(f(xs[i])) == xs[i]
    ensures |xs| * size <= |Encode(f, xs) + rest|
    ensures Decode(g, size, |xs|, Encode(f, xs) + rest) == xs
  {
    EncodeLength(f, size, xs);
    forall i | 0 <= i < |xs|
      ensures Decode(g, size, |xs|, Encode(f, xs) + rest)[i] == xs[i]
    {
      EncodeAt(f, size, xs, i, rest, i * size);
      Stride(i, |xs|, size);
    }
  }
}
