/** Byte strings under the order of Go's `bytes.Compare`, which every token table of the index is sorted by. */
module Bytes {

  type byte = x: int | 0 <= x < 256

  type bytes = seq<byte>

  /** `a` and `b` share their first `p` bytes; there `a` ends, or has the smaller byte. */
  ghost predicate Splits(a: bytes, b: bytes, p: nat) {
    p <= |a| && p < |b| && a[..p] == b[..p] && (p == |a| || a[p] < b[p])
  }

  ghost predicate Less(a: bytes, b: bytes) {
    exists p: nat :: Splits(a, b, p)
  }

  ghost predicate AtMost(a: bytes, b: bytes) {
    a == b || Less(a, b)
  }

  /** Length of the longest common prefix. */
  function Common(a: bytes, b: bytes): (p: nat)
    ensures p <= |a| && p <= |b| && a[..p] == b[..p]
    ensures p < |a| && p < |b| ==> a[p] != b[p]
  {
    if a == [] || b == [] || a[0] != b[0] then 0 else
      var q := Common(a[1..], b[1..]);
      assert a[..q + 1] == [a[0]] + a[1..][..q] && b[..q + 1] == [b[0]] + b[1..][..q];
      q + 1
  }

  /** The three-way result of `bytes.Compare`. */
  function Compare(a: bytes, b: bytes): (c: int)
    ensures c == -1 || c == 0 || c == 1
    ensures c == -1 <==> Less(a, b)
    ensures c == 0 <==> a == b
    ensures c == 1 <==> Less(b, a)
  {
    LessTotal(a, b);
    var p := Common(a, b);
    assert Splits(a, b, p) ==> Less(a, b);
    assert Splits(b, a, p) ==> Less(b, a);
    if p == |a| && p == |b| then
      assert a == a[..p] == b[..p] == b;
      0
    else if p < |b| && (p == |a| || a[p] < b[p]) then -1
    else 1
  }

  lemma LessTotal(a: bytes, b: bytes)
    ensures Less(a, b) || a == b || Less(b, a)
    ensures !(Less(a, b) && Less(b, a))
    ensures !Less(a, a)
  {
    var c := Common(a, b);
    if c == |a| == |b| {
      assert a == a[..c] == b[..c] == b;
    } else {
      assert Splits(a, b, c) || Splits(b, a, c);
    }
    forall p: nat, q: nat | Splits(a, b, p)
      ensures !Splits(b, a, q)
    {
      assert forall i | 0 <= i < p :: a[i] == a[..p][i] == b[..p][i] == b[i];
      assert forall i | 0 <= i < q && q <= |a| && q <= |b| && a[..q] == b[..q] ::
             a[i] == a[..q][i] == b[..q][i] == b[i];
    }
  }

  lemma LessTransitive(a: bytes, b: bytes, c: bytes)
    requires Less(a, b) && Less(b, c)
    ensures Less(a, c)
  {
    var p: nat :| Splits(a, b, p);
    var q: nat :| Splits(b, c, q);
    var r := if p < q then p else q;
    assert a[..r] == a[..p][..r] == b[..p][..r] == b[..q][..r] == c[..q][..r] == c[..r];
    if p < q {
      assert b[p] == b[..q][p] == c[..q][p] == c[p];
    } else if q < p {
      assert a[q] == a[..p][q] == b[..p][q] == b[q];
    }
    assert Splits(a, c, r);
  }
}
