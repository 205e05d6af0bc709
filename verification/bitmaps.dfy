/**
 Roaring bitmaps as the finite sets of document indexes they stand for. Their bytes are a sorted list of
 4-byte integers: a concrete codec in the place of the library's own.
 */
module Bitmaps {
  import opened Bytes
  import opened Codec
  import opened Headers
  import opened Records

  type Bitmap = set<uint32>

  ghost predicate Ascending(a: seq<uint32>) {
    forall i, j | 0 <= i < j < |a| :: a[i] < a[j]
  }

  function Elements<T(==)>(a: seq<T>): set<T> {
    set i | 0 <= i < |a| :: a[i]
  }

  ghost predicate IsMaximum(s: Bitmap, m: uint32) {
    m in s && forall x | x in s :: x <= m
  }

  lemma {:induction false} MaximumExists(s: Bitmap)
    requires s != {}
    ensures exists m :: IsMaximum(s, m)
  {
    var y :| y in s;
    var rest := s - {y};
    assert forall x | x in s :: x == y || x in rest;
    if rest == {} {
      assert IsMaximum(s, y);
    } else {
      MaximumExists(rest);
      var m :| IsMaximum(rest, m);
      var top := if m < y then y else m;
      assert IsMaximum(s, top);
    }
  }

  function Maximum(s: Bitmap): (m: uint32)
    requires s != {}
    ensures m in s && forall x | x in s :: x <= m
  {
    MaximumExists(s);
    assert exists m :: m in s && forall x | x in s :: x <= m by {
      var m :| IsMaximum(s, m);
    }
    var m: uint32 :| m in s && forall x | x in s :: x <= m;
    m
  }

  /** `ToArray`: the elements in ascending order. */
  function ToArray(s: Bitmap): (a: seq<uint32>)
    ensures Ascending(a) && Elements(a) == s && |a| == |s|
  {
    if s == {} then [] else
      var m := Maximum(s);
      var a := ToArray(s - {m});
      ArraySnoc(s, a, m);
      a + [m]
  }

  lemma ArraySnoc(s: Bitmap, a: seq<uint32>, m: uint32)
    requires m in s && (forall x | x in s :: x <= m) && Ascending(a) && Elements(a) == s - {m}
    ensures Ascending(a + [m]) && Elements(a + [m]) == s
  {
    ElementsSnoc(a, m);
    forall i | 0 <= i < |a|
      ensures a[i] < m
    {
      assert a[i] in Elements(a);
    }
  }

  lemma ElementsSnoc(a: seq<uint32>, m: uint32)
    ensures Elements(a + [m]) == Elements(a) + {m}
  {
    assert (a + [m])[|a|] == m;
    forall x | x in Elements(a)
      ensures x in Elements(a + [m])
    {
      var i :| 0 <= i < |a| && a[i] == x;
      assert (a + [m])[i] == x;
    }
  }

  function Marshal(s: Bitmap): bytes {
    Encode(PutUint32, ToArray(s))
  }

  function GetUint32(b: bytes): uint32 {
    if |b| == 4 then Uint32(b) else 0
  }

  /** Words of four bytes as a set; a length that is no multiple of four does not parse and leaves it empty. */
  function Words<T(==)>(g: bytes -> T, b: bytes): set<T> {
    if |b| % 4 == 0 then Elements(Decode(g, 4, |b| / 4, b)) else {}
  }

  /** `UnsafeBitmap`. */
  function Unmarshal(b: bytes): Bitmap {
    Words(GetUint32, b)
  }

  lemma WordsOf<T>(g: bytes -> T, b: bytes, a: seq<T>)
    requires |b| == |a| * 4 && Decode(g, 4, |a|, b) == a
    ensures Words(g, b) == Elements(a)
  {
    assert |b| / 4 == |a|;
  }

  lemma WordsBack<T(!new)>(f: T -> bytes, g: bytes -> T, a: seq<T>)
    requires (forall x :: |f(x)| == 4) && forall i | 0 <= i < |a| :: g(f(a[i])) == a[i]
    ensures Words(g, Encode(f, a)) == Elements(a)
  {
    EncodeLength(f, 4, a);
    DecodeOfEncode(f, g, 4, a, []);
    assert Encode(f, a) + [] == Encode(f, a);
    WordsOf(g, Encode(f, a), a);
  }

  lemma UnmarshalOfMarshal(s: Bitmap)
    ensures Unmarshal(Marshal(s)) == s
  {
    var a := ToArray(s);
    forall i | 0 <= i < |a|
      ensures GetUint32(PutUint32(a[i])) == a[i]
    {
      Uint32Back(a[i]);
    }
    WordsBack(PutUint32, GetUint32, a);
  }
}
