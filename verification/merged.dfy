/**
 What a merge has to produce (storage/merge.go): field by field, the rows of both sides zipped by token, with the
 second side's documents renumbered. Stated on tables, before any byte is written.
 */
module Merged {
  import opened Bytes
  import opened Headers
  import opened Bitmaps
  import opened Tables
  import opened Blocks
  import opened Shifts
  import opened Zipping

  ghost function Keys(rows: seq<Row>): seq<bytes> {
    seq(|rows|, i requires 0 <= i < |rows| => RawBytes(rows[i].value))
  }

  ghost function MergedList(rs: seq<Row>, ss: seq<Row>, offset: uint32, p: Pair): bytes
    requires PairOk(Keys(rs), Keys(ss), p)
  {
    if p.a >= 0 && p.b >= 0 then Marshal(Unmarshal(rs[p.a].list) + ShiftSet(Unmarshal(ss[p.b].list), offset))
    else if p.a >= 0 then rs[p.a].list
    else Marshal(ShiftSet(Unmarshal(ss[p.b].list), offset))
  }

  ghost function MergedEntries(rs: seq<Row>, ss: seq<Row>, offset: uint32, p: Pair): seq<TokenFrequencyEntry>
    requires PairOk(Keys(rs), Keys(ss), p)
  {
    (if p.a >= 0 then rs[p.a].entries else []) + Shift(if p.b >= 0 then ss[p.b].entries else [], offset)
  }

  ghost function MergedRow(rs: seq<Row>, ss: seq<Row>, offset: uint32, p: Pair): Row
    requires PairOk(Keys(rs), Keys(ss), p)
  {
    Row(if p.a >= 0 then rs[p.a].value
        else ss[p.b].value, MergedEntries(rs, ss, offset, p), MergedList(rs, ss, offset, p))
  }

  ghost function MergeRows(rs: seq<Row>, ss: seq<Row>, offset: uint32): (rows: seq<Row>)
    ensures |rows| == |Zipped(Keys(rs), Keys(ss))|
  {
    var ps := Zipped(Keys(rs), Keys(ss));
    seq(|ps|, k requires 0 <= k < |ps| => (ZippedOk(Keys(rs), Keys(ss), k); MergedRow(rs, ss, offset, ps[k])))
  }

  lemma KeysAscend(rows: seq<Row>)
    requires RowsSorted(rows)
    ensures Ascends(Keys(rows))
  {
  }

  /** The list of a merged row reads as the documents of both sides. */
  lemma MergedListReads(rs: seq<Row>, ss: seq<Row>, offset: uint32, p: Pair)
    requires PairOk(Keys(rs), Keys(ss), p)
    ensures Unmarshal(MergedList(rs, ss, offset, p))
            == (if p.a >= 0 then Unmarshal(rs[p.a].list) else {})
                + (if p.b >= 0 then ShiftSet(Unmarshal(ss[p.b].list), offset) else {})
  {
    if p.b >= 0 {
      var right := ShiftSet(Unmarshal(ss[p.b].list), offset);
      UnmarshalOfMarshal(right);
      if p.a >= 0 {
        UnmarshalOfMarshal(Unmarshal(rs[p.a].list) + right);
      }
    }
  }

  lemma MergedRowOk(rs: seq<Row>, ss: seq<Row>, m: uint32, n: nat, p: Pair)
    requires m + n < MaxDocuments && RowsOk(rs, m) && RowsOk(ss, n) && PairOk(Keys(rs), Keys(ss), p)
    ensures RowOk(MergedRow(rs, ss, m, p), m + n)
  {
    var xs, ys := if p.a >= 0 then rs[p.a].entries else [], if p.b >= 0 then ss[p.b].entries else [];
    assert (p.a >= 0 ==> RowOk(rs[p.a], m)) && (p.b >= 0 ==> RowOk(ss[p.b], n));
    EntriesAppend(xs, ys, m, n);
    DocumentsConcat(xs, Shift(ys, m));
    DocumentsShift(ys, m);
    MergedListReads(rs, ss, m, p);
  }

  lemma MergedRowsSorted(rs: seq<Row>, ss: seq<Row>, offset: uint32)
    requires RowsSorted(rs) && RowsSorted(ss)
    ensures RowsSorted(MergeRows(rs, ss, offset))
  {
    var rows := MergeRows(rs, ss, offset);
    forall k, l | 0 <= k < l < |rows|
      ensures Less(RawBytes(rows[k].value), RawBytes(rows[l].value))
    {
      ZipAscends(Keys(rs), Keys(ss), 0, 0, k, l);
      ValueOfMerged(rs, ss, offset, k);
      ValueOfMerged(rs, ss, offset, l);
    }
  }

  lemma ValueOfMerged(rs: seq<Row>, ss: seq<Row>, offset: uint32, k: nat)
    requires k < |Zipped(Keys(rs), Keys(ss))|
    ensures PairOk(Keys(rs), Keys(ss), Zipped(Keys(rs), Keys(ss))[k])
    ensures RawBytes(MergeRows(rs, ss, offset)[k].value) == Key(Keys(rs), Keys(ss), Zipped(Keys(rs), Keys(ss))[k])
  {
    ZippedOk(Keys(rs), Keys(ss), k);
  }

  lemma MergedRowsOk(rs: seq<Row>, ss: seq<Row>, m: uint32, n: nat)
    requires m + n < MaxDocuments && RowsOk(rs, m) && RowsOk(ss, n)
    ensures RowsOk(MergeRows(rs, ss, m), m + n)
  {
    MergedRowsSorted(rs, ss, m);
    forall k | 0 <= k < |MergeRows(rs, ss, m)|
      ensures RowOk(MergeRows(rs, ss, m)[k], m + n)
    {
      ZippedOk(Keys(rs), Keys(ss), k);
      MergedRowOk(rs, ss, m, n, Zipped(Keys(rs), Keys(ss))[k]);
    }
  }

  ghost function EntriesAt(rows: seq<Row>, i: int): seq<TokenFrequencyEntry> {
    if 0 <= i < |rows| then rows[i].entries else []
  }

  /** The entries under a key are those of the row at position `i`, which is -1 when no row has the key. */
  lemma RowEntriesBy(rows: seq<Row>, v: bytes, i: int)
    requires RowsSorted(rows) && -1 <= i < |rows|
    requires forall j: nat :: HasRow(rows, v, j) <==> j == i
    ensures RowEntries(rows, v) == EntriesAt(rows, i)
  {
    if i >= 0 {
      assert HasRow(rows, v, i);
      RowEntriesAt(rows, i);
    }
  }

  /** Where a key of the merge sits on either side. */
  lemma MergedSides(rs: seq<Row>, ss: seq<Row>, k: nat)
    requires RowsSorted(rs) && RowsSorted(ss) && k < |Zipped(Keys(rs), Keys(ss))|
    ensures PairOk(Keys(rs), Keys(ss), Zipped(Keys(rs), Keys(ss))[k])
    ensures var p := Zipped(Keys(rs), Keys(ss))[k];
            var v := Key(Keys(rs), Keys(ss), p);
            (forall j: nat :: HasRow(rs, v, j) <==> j == p.a) && (forall j: nat :: HasRow(ss, v, j) <==> j == p.b)
  {
    var xs, ys := Keys(rs), Keys(ss);
    ZippedOk(xs, ys, k);
    KeysAscend(rs);
    KeysAscend(ss);
    var p := Zipped(xs, ys)[k];
    forall j: nat | HasRow(rs, Key(xs, ys, p), j)
      ensures j == p.a
    {
      TakenWherePresent(xs, ys, k, j);
    }
    forall j: nat | HasRow(ss, Key(xs, ys, p), j)
      ensures j == p.b
    {
      TakenWherePresent(xs, ys, k, j);
    }
  }

  lemma MergedRowEntriesAt(rs: seq<Row>, ss: seq<Row>, offset: uint32, k: nat)
    requires RowsSorted(rs) && RowsSorted(ss) && k < |MergeRows(rs, ss, offset)|
    ensures var rows := MergeRows(rs, ss, offset);
            var v := RawBytes(rows[k].value);
            RowEntries(rows, v) == RowEntries(rs, v) + Shift(RowEntries(ss, v), offset)
  {
    var rows, p := MergeRows(rs, ss, offset), Zipped(Keys(rs), Keys(ss))[k];
    MergedSides(rs, ss, k);
    var v := RawBytes(rows[k].value);
    assert v == Key(Keys(rs), Keys(ss), p);
    RowEntriesBy(rs, v, p.a);
    RowEntriesBy(ss, v, p.b);
    MergedRowsSorted(rs, ss, offset);
    RowEntriesAt(rows, k);
  }

  /** Token by token, a merge has the entries of the first side and then those of the second, renumbered. */
  lemma MergedRowEntries(rs: seq<Row>, ss: seq<Row>, offset: uint32, v: bytes)
    requires RowsSorted(rs) && RowsSorted(ss)
    ensures RowEntries(MergeRows(rs, ss, offset), v) == RowEntries(rs, v) + Shift(RowEntries(ss, v), offset)
  {
    var rows := MergeRows(rs, ss, offset);
    if i: nat :| HasRow(rs, v, i) {
      var k := ZipCoversLeft(Keys(rs), Keys(ss), 0, 0, i);
      MergedRowEntriesAt(rs, ss, offset, k);
    } else if j: nat :| HasRow(ss, v, j) {
      var k := ZipCoversRight(Keys(rs), Keys(ss), 0, 0, j);
      KeyOnRight(rs, ss, offset, k, j);
      MergedRowEntriesAt(rs, ss, offset, k);
    } else {
      NoRow(rs, ss, offset, v);
    }
  }

  lemma KeyOnRight(rs: seq<Row>, ss: seq<Row>, offset: uint32, k: nat, j: nat)
    requires k < |MergeRows(rs, ss, offset)| && j < |ss| && Zipped(Keys(rs), Keys(ss))[k].b == j
    ensures RawBytes(MergeRows(rs, ss, offset)[k].value) == RawBytes(ss[j].value)
  {
    ZippedOk(Keys(rs), Keys(ss), k);
  }

  lemma NoRow(rs: seq<Row>, ss: seq<Row>, offset: uint32, v: bytes)
    requires (forall i: nat :: !HasRow(rs, v, i)) && forall j: nat :: !HasRow(ss, v, j)
    ensures RowEntries(MergeRows(rs, ss, offset), v) == []
  {
    var rows := MergeRows(rs, ss, offset);
    forall k: nat
      ensures !HasRow(rows, v, k)
    {
      if k < |rows| {
        ZippedOk(Keys(rs), Keys(ss), k);
        var p := Zipped(Keys(rs), Keys(ss))[k];
        assert p.a >= 0 ==> !HasRow(rs, v, p.a);
        assert p.b >= 0 ==> !HasRow(ss, v, p.b);
      }
    }
  }

  /** The entries of the pair taken at `i` and `j` are those of the rows it takes. */
  lemma CountTaken(rs: seq<Row>, ss: seq<Row>, offset: uint32, i: nat, j: nat)
    requires i <= |rs| && j <= |ss| && (i < |rs| || j < |ss|)
    ensures var p := Head(Keys(rs), Keys(ss), i, j);
            && PairOk(Keys(rs), Keys(ss), p) && After(i, p.a) <= |rs| && After(j, p.b) <= |ss|
            && Count(rs, i) + Count(ss, j) + |MergedEntries(rs, ss, offset, p)|
                == Count(rs, After(i, p.a)) + Count(ss, After(j, p.b))
  {
  }

  lemma CountNext(rs: seq<Row>, ss: seq<Row>, offset: uint32, k: nat)
    requires k < |MergeRows(rs, ss, offset)|
    ensures PairOk(Keys(rs), Keys(ss), Zipped(Keys(rs), Keys(ss))[k])
    ensures Count(MergeRows(rs, ss, offset), k + 1)
            == Count(MergeRows(rs, ss, offset), k) + |MergedEntries(rs, ss, offset, Zipped(Keys(rs), Keys(ss))[k])|
  {
    ZippedOk(Keys(rs), Keys(ss), k);
  }

  lemma {:induction false} CountStanding(rs: seq<Row>, ss: seq<Row>, offset: uint32, k: nat) returns (i: nat, j: nat)
    requires k <= |MergeRows(rs, ss, offset)|
    ensures Standing(Keys(rs), Keys(ss), k, i, j)
    ensures Count(MergeRows(rs, ss, offset), k) == Count(rs, i) + Count(ss, j)
  {
    if k == 0 {
      i, j := 0, 0;
      StandingStart(Keys(rs), Keys(ss));
    } else {
      var i0, j0 := CountStanding(rs, ss, offset, k - 1);
      i, j := CountStandingNext(rs, ss, offset, k - 1, i0, j0);
    }
  }

  lemma CountStandingNext(rs: seq<Row>, ss: seq<Row>, offset: uint32, k: nat, i0: nat, j0: nat) returns (i: nat, j: nat)
    requires k < |MergeRows(rs, ss, offset)| && Standing(Keys(rs), Keys(ss), k, i0, j0)
    requires Count(MergeRows(rs, ss, offset), k) == Count(rs, i0) + Count(ss, j0)
    ensures Standing(Keys(rs), Keys(ss), k + 1, i, j)
    ensures Count(MergeRows(rs, ss, offset), k + 1) == Count(rs, i) + Count(ss, j)
  {
    var xs, ys := Keys(rs), Keys(ss);
    NotDone(xs, ys, k, i0, j0);
    Step(xs, ys, k, i0, j0);
    CountTaken(rs, ss, offset, i0, j0);
    CountNext(rs, ss, offset, k);
    var p := Head(xs, ys, i0, j0);
    i, j := After(i0, p.a), After(j0, p.b);
  }

  /** No entry is lost and none is made up. */
  lemma CountMerged(rs: seq<Row>, ss: seq<Row>, offset: uint32)
    ensures Count(MergeRows(rs, ss, offset), |MergeRows(rs, ss, offset)|) == Count(rs, |rs|) + Count(ss, |ss|)
  {
    var i, j := CountStanding(rs, ss, offset, |MergeRows(rs, ss, offset)|);
    assert Zip(Keys(rs), Keys(ss), i, j) == [];
  }
}
