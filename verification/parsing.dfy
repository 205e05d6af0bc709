/** A run of keyed entries, each read from the front of the bytes that are left. */
module Parsing {
  import opened Bytes
  import opened Collecting
  import opened Options
  import opened Totals

  type Reader<K, V> = bytes -> Option<(K, V, bytes)>

  /** `n` entries, one after the other; the first that cannot be read ends it. */
  function ReadAll<K, V>(read: Reader<K, V>, n: nat, buf: bytes, acc: map<K, V>): Option<(map<K, V>, bytes)> {
    if n == 0 then Some((acc, buf))
    else match read(buf)
      case None => None
      case Some((k, v, rest)) => ReadAll(read, n - 1, rest, acc[k := v])
  }

  /** The same as a loop. */
  method ReadEntries<K, V>(read: Reader<K, V>, n: nat, buf: bytes) returns (r: Option<(map<K, V>, bytes)>)
    ensures r == ReadAll(read, n, buf, map[])
  {
    var entries, rest := map[], buf;
    for i := 0 to n
      invariant ReadAll(read, n, buf, map[]) == ReadAll(read, n - i, rest, entries)
    {
      var entry := read(rest);
      if entry.None? {
        return None;
      }
      entries, rest := entries[entry.value.0 := entry.value.1], entry.value.2;
    }
    r := Some((entries, rest));
  }

  /** Piece k reads as entry `order[k]` of `entries`, whatever follows it. */
  ghost predicate PieceReads<K, V>(read: Reader<K, V>, f: nat -> bytes, entries: map<K, V>, order: seq<K>, k: nat)
    requires k < |order|
  {
    && order[k] in entries
    && forall rest {:trigger read(f(k) + rest)} :: read(f(k) + rest) == Some((order[k], entries[order[k]], rest))
  }

  ghost predicate PiecesRead<K, V>(read: Reader<K, V>, f: nat -> bytes, entries: map<K, V>, order: seq<K>) {
    forall k: nat {:trigger PieceReads(read, f, entries, order, k)} | k < |order| ::
        PieceReads(read, f, entries, order, k)
  }

  /** Piece k is the image of entry `order[k]`, with the padding that came with it. */
  ghost function PieceOf<K,
      V>(image: (K, V, bytes) -> bytes, entries: map<K, V>, order: seq<K>, pads: seq<bytes>): nat -> bytes {
    (k: nat) => if k < |order| && k < |pads| && order[k] in entries then image(order[k], entries[order[k]], pads[k])
        else []
  }

  /** One more entry is one more piece at the end. */
  lemma PieceAppended<K, V>(image: (K, V, bytes) -> bytes, entries: map<K, V>, order: seq<K>, pads: seq<bytes>, h: K,
                            pad: bytes)
    requires |pads| == |order| && h in entries
    ensures Collect(|order| + 1, PieceOf(image, entries, order + [h], pads + [pad]))
            == Collect(|order|, PieceOf(image, entries, order, pads)) + image(h, entries[h], pad)
  {
    var f, g := PieceOf(image, entries, order, pads), PieceOf(image, entries, order + [h], pads + [pad]);
    forall k: nat | k < |order|
      ensures g(k) == f(k)
    {
      assert (order + [h])[k] == order[k] && (pads + [pad])[k] == pads[k];
    }
    CollectEqual(|order|, g, f);
    assert g(|order|) == image(h, entries[h], pad);
  }

  /** An entry that is not among the pieces changes none of them. */
  lemma PiecesKept<K, V>(image: (K, V, bytes) -> bytes, entries: map<K, V>, order: seq<K>, pads: seq<bytes>, h: K, v: V)
    requires |pads| == |order| && forall k | 0 <= k < |order| :: order[k] != h
    ensures Collect(|order|, PieceOf(image, entries[h := v], order, pads))
            == Collect(|order|, PieceOf(image, entries, order, pads))
  {
    CollectEqual(|order|, PieceOf(image, entries[h := v], order, pads), PieceOf(image, entries, order, pads));
  }

  ghost predicate ReadUpTo<K, V>(acc: map<K, V>, entries: map<K, V>, order: seq<K>, k: nat) {
    && (forall i | 0 <= i < k && i < |order| :: order[i] in acc)
    && (forall h | h in acc :: h in entries && acc[h] == entries[h])
  }

  lemma ReadUpToAll<K, V>(acc: map<K, V>, entries: map<K, V>, order: seq<K>)
    requires Enumerates(order, entries.Keys) && ReadUpTo(acc, entries, order, |order|)
    ensures acc == entries
  {
    forall h | h in entries
      ensures h in acc
    {
      var i :| 0 <= i < |order| && order[i] == h;
    }
  }

  lemma Associative<X>(a: seq<X>, b: seq<X>, c: seq<X>)
    ensures a + b + c == a + (b + c)
  {
  }

  lemma {:induction false} ReadFrom<K, V>(read: Reader<K, V>, f: nat -> bytes, entries: map<K, V>, order: seq<K>,
                                          k: nat, acc: map<K, V>, rest: bytes)
    requires PiecesRead(read, f, entries, order) && k <= |order| && ReadUpTo(acc, entries, order, k)
    ensures var r := ReadAll(read, |order| - k, From(k, |order|, f) + rest, acc);
            r.Some? && r.value.1 == rest && ReadUpTo(r.value.0, entries, order, |order|)
    decreases |order| - k
  {
    var n := |order|;
    if k == n {
      assert From(k, n, f) + rest == rest;
    } else {
      var tail := From(k + 1, n, f);
      assert PieceReads(read, f, entries, order, k);
      Associative(f(k), tail, rest);
      assert read(f(k) + (tail + rest)) == Some((order[k], entries[order[k]], tail + rest));
      ReadFrom(read, f, entries, order, k + 1, acc[order[k] := entries[order[k]]], rest);
    }
  }

  /** Entries written in any order are read back as the map they came from. */
  lemma ReadBack<K, V>(read: Reader<K, V>, f: nat -> bytes, entries: map<K, V>, order: seq<K>, rest: bytes)
    requires PiecesRead(read, f, entries, order) && Enumerates(order, entries.Keys)
    ensures ReadAll(read, |order|, Collect(|order|, f) + rest, map[]) == Some((entries, rest))
  {
    CollectSplit(0, |order|, f);
    assert Collect(|order|, f) == From(0, |order|, f);
    ReadFrom(read, f, entries, order, 0, map[], rest);
    ReadUpToAll(ReadAll(read, |order|, From(0, |order|, f) + rest, map[]).value.0, entries, order);
  }

  /** A reader that looks at no byte behind what it takes. */
  ghost predicate Prefixed<K, V>(read: Reader<K, V>) {
    forall b, e {:trigger read(b + e)} | read(b).Some? ::
        read(b + e) == Some((read(b).value.0, read(b).value.1, read(b).value.2 + e))
  }

  lemma {:induction false} ReadExtends<K, V>(read: Reader<K, V>, n: nat, b: bytes, acc: map<K, V>, e: bytes)
    requires Prefixed(read) && ReadAll(read, n, b, acc).Some?
    ensures var (entries, rest) := ReadAll(read, n, b, acc).value;
            ReadAll(read, n, b + e, acc) == Some((entries, rest + e))
  {
    if n > 0 {
      var (k, v, rest) := read(b).value;
      assert read(b + e) == Some((k, v, rest + e));
      ReadExtends(read, n - 1, rest, acc[k := v], e);
    }
  }
}
