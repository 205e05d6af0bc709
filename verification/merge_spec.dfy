/** Merging two indexes, as a relation between tables, and what it means for the documents behind them. */
module MergeSpec {
  import opened Bytes
  import opened Collecting
  import opened Headers
  import opened Tables
  import opened Blocks
  import opened Documents
  import opened Shifts
  import opened Totals
  import opened Build
  import opened Merged

  /** The rows of one field of a storage. */
  ghost function FieldRows(t: Tables, f: Field): (rows: seq<Row>)
    ensures |rows| == |f.tokens|
  {
    seq(|f.tokens|, i requires 0 <= i < |f.tokens| =>
      Row(f.tokens[i].value, if InRegion(t, f.tokens[i]) then Slice(t, f.tokens[i]) else [],
          if f.tokens[i].postingListIndex < |t.postingLists| then t.postingLists[f.tokens[i].postingListIndex] else []))
  }

  /** One field as one of the two merged storages has it; a storage without the field has nothing. */
  datatype Side = Absent | Present(avg: uint32, field: FieldView)

  datatype FieldView = FieldView(total: nat, freqs: nat, lengths: seq<DocumentLengthEntry>, rows: seq<Row>)

  ghost function View(s: Side): FieldView {
    if s.Present? then s.field else FieldView(0, 0, [], [])
  }

  ghost function SideOf(t: Tables, h: uint64): Side {
    if h in t.fields then
      var f := t.fields[h];
      Present(f.avgDocumentLength,
              FieldView(f.totalDocumentsLength, f.totalTokenFrequenciesCount, f.documentLengths, FieldRows(t, f)))
    else Absent
  }

  ghost function SideRows(t: Tables, h: uint64): seq<Row> {
    View(SideOf(t, h)).rows
  }

  ghost function SideLengths(t: Tables, h: uint64): seq<DocumentLengthEntry> {
    View(SideOf(t, h)).lengths
  }

  ghost predicate SideOk(s: Side, n: nat, ratio: Ratio) {
    var f := View(s);
    && RowsOk(f.rows, n) && LengthsOk(f.lengths, n)
    && f.total == SumLengths(f.lengths, |f.lengths|) && f.freqs == Count(f.rows, |f.rows|)
    && (f.lengths != [] ==> ratio.Gives(s.avg, f.total, |f.lengths|))
  }

  /** The average is recomputed when both sides have the field, and copied otherwise. */
  ghost function MergedAverage(x: Side, y: Side, ratio: Ratio): uint32 {
    if x.Present? && y.Present? then ratio.merged(x.field.total + y.field.total, |x.field.lengths| + |y.field.lengths|)
    else if x.Present? then x.avg
    else if y.Present? then y.avg
    else 0
  }

  ghost function MergeSides(h: uint64, x: Side, y: Side, m: uint32, ratio: Ratio): Block {
    var f, g := View(x), View(y);
    Block(h, MergedAverage(x, y, ratio), f.total + g.total, f.freqs + g.freqs, f.lengths + ShiftLengths(g.lengths, m),
          MergeRows(f.rows, g.rows, m))
  }

  ghost function MergedBlock(a: Tables, b: Tables, h: uint64, ratio: Ratio): Block
    requires |a.documentsIds| < MaxDocuments
  {
    MergeSides(h, SideOf(a, h), SideOf(b, h), |a.documentsIds|, ratio)
  }

  lemma {:induction false} CountOfTokens(rows: seq<Row>, ts: seq<Token>, n: nat)
    requires n <= |rows| && n <= |ts| && forall i | 0 <= i < n :: |rows[i].entries| == ts[i].frequencyCount
    ensures Count(rows, n) == SumCounts(ts, n)
  {
    if n > 0 {
      CountOfTokens(rows, ts, n - 1);
    }
  }

  lemma FieldRowsOk(t: Tables, f: Field, ratio: Ratio)
    requires FieldOk(t, f, ratio)
    ensures RowsOk(FieldRows(t, f), |t.documentsIds|)
    ensures Count(FieldRows(t, f), |f.tokens|) == f.totalTokenFrequenciesCount
  {
    var rows := FieldRows(t, f);
    forall i | 0 <= i < |rows|
      ensures RowOk(rows[i], |t.documentsIds|) && |rows[i].entries| == f.tokens[i].frequencyCount
      ensures RawBytes(rows[i].value) == f.tokens[i].Bytes()
    {
      assert TokenOk(t, f.tokens[i]);
    }
    CountOfTokens(rows, f.tokens, |rows|);
  }

  /** A field of a well-formed storage, seen as rows. */
  lemma SideOfOk(t: Tables, h: uint64, ratio: Ratio)
    requires WellFormed(t, ratio)
    ensures SideOk(SideOf(t, h), |t.documentsIds|, ratio)
  {
    if h in t.fields {
      assert FieldOk(t, t.fields[h], ratio);
      FieldRowsOk(t, t.fields[h], ratio);
    }
  }

  lemma SideEntries(t: Tables, h: uint64, v: bytes, ratio: Ratio)
    requires WellFormed(t, ratio)
    ensures RowEntries(SideRows(t, h), v) == Entries(t, h, v)
  {
    SideOfOk(t, h, ratio);
    var rows := SideRows(t, h);
    if i: nat :| HasRow(rows, v, i) {
      EntriesOfToken(t, h, i, ratio);
      RowEntriesAt(rows, i);
    } else if h in t.fields {
      forall i: nat
        ensures !HasToken(t.fields[h].tokens, v, i)
      {
        assert !HasRow(rows, v, i);
      }
    }
  }

  lemma LengthsSummedUp(f: FieldView, g: FieldView, m: uint32, n: nat)
    requires LengthsOk(f.lengths, m) && LengthsOk(g.lengths, n) && m + n < MaxDocuments
    requires f.total == SumLengths(f.lengths, |f.lengths|) && g.total == SumLengths(g.lengths, |g.lengths|)
    ensures var ls := f.lengths + ShiftLengths(g.lengths, m);
            |ls| == |f.lengths| + |g.lengths| && LengthsOk(ls, m + n) && f.total + g.total == SumLengths(ls, |ls|)
  {
    LengthsAppend(f.lengths, g.lengths, m, n);
    SumOfAppended(f.lengths, g.lengths, m, |g.lengths|);
  }

  lemma AverageOk(x: Side, y: Side, m: uint32, n: nat, ratio: Ratio)
    requires SideOk(x, m, ratio) && SideOk(y, n, ratio) && (View(x).lengths != [] || View(y).lengths != [])
    ensures ratio.Gives(MergedAverage(x, y, ratio), View(x).total + View(y).total,
                        |View(x).lengths| + |View(y).lengths|)
  {
  }

  ghost predicate LengthsPart(ls: seq<DocumentLengthEntry>, total: nat, avg: uint32, n: nat, ratio: Ratio) {
    LengthsOk(ls, n) && total == SumLengths(ls, |ls|) && (ls != [] ==> ratio.Gives(avg, total, |ls|))
  }

  lemma MergedLengthsPart(x: Side, y: Side, m: uint32, n: nat, ratio: Ratio, ls: seq<DocumentLengthEntry>, total: nat,
                          avg: uint32)
    requires SideOk(x, m, ratio) && SideOk(y, n, ratio) && m + n < MaxDocuments
    requires var f, g := View(x), View(y);
             ls == f.lengths + ShiftLengths(g.lengths, m) && total == f.total + g.total
             && avg == MergedAverage(x, y, ratio)
    ensures LengthsPart(ls, total, avg, m + n, ratio)
  {
    var f, g := View(x), View(y);
    LengthsSummedUp(f, g, m, n);
    if f.lengths != [] || g.lengths != [] {
      AverageOk(x, y, m, n, ratio);
    }
  }

  lemma MergeSidesOk(h: uint64, x: Side, y: Side, m: uint32, n: nat, ratio: Ratio)
    requires SideOk(x, m, ratio) && SideOk(y, n, ratio) && m + n < MaxDocuments
    ensures BlockOk(MergeSides(h, x, y, m, ratio), m + n, ratio)
  {
    var b := MergeSides(h, x, y, m, ratio);
    MergedRowsPart(x, y, m, n, ratio, b.rows);
    MergedLengthsPart(x, y, m, n, ratio, b.lengths, b.totalLength, b.avg);
  }

  lemma MergedRowsPart(x: Side, y: Side, m: uint32, n: nat, ratio: Ratio, rows: seq<Row>)
    requires SideOk(x, m, ratio) && SideOk(y, n, ratio) && m + n < MaxDocuments
    requires rows == MergeRows(View(x).rows, View(y).rows, m)
    ensures RowsOk(rows, m + n)
  {
    MergedRowsOk(View(x).rows, View(y).rows, m, n);
  }

  lemma MergeSidesCounted(h: uint64, x: Side, y: Side, m: uint32, n: nat, ratio: Ratio)
    requires SideOk(x, m, ratio) && SideOk(y, n, ratio)
    ensures Counted(MergeSides(h, x, y, m, ratio))
  {
    CountMerged(View(x).rows, View(y).rows, m);
  }

  /** `m` is the merge of `a` and `b`: the documents of `a`, then those of `b` renumbered, in every field and token. */
  ghost predicate MergeOf(m: Tables, a: Tables, b: Tables, ratio: Ratio) {
    WellFormed(m, ratio) && Appended(m, a, b) && Averaged(m, a, b, ratio)
  }

  /** The averages of a merge: by its own formula where both have the field, copied where only one does. */
  ghost predicate Averaged(m: Tables, a: Tables, b: Tables, ratio: Ratio) {
    forall h | h in m.fields :: m.fields[h].avgDocumentLength == MergedAverage(SideOf(a, h), SideOf(b, h), ratio)
  }

  ghost predicate Appended(m: Tables, a: Tables, b: Tables) {
    && |a.documentsIds| + |b.documentsIds| < MaxDocuments
    && m.documentsIds == a.documentsIds + b.documentsIds
    && m.fields.Keys == a.fields.Keys + b.fields.Keys
    && (forall h, v :: Entries(m, h, v) == Entries(a, h, v) + Shift(Entries(b, h, v), |a.documentsIds|))
    && (forall h :: SideLengths(m, h) == SideLengths(a, h) + ShiftLengths(SideLengths(b, h), |a.documentsIds|))
  }

  lemma MergedBlockOk(a: Tables, b: Tables, h: uint64, ratio: Ratio)
    requires WellFormed(a, ratio) && WellFormed(b, ratio) && |a.documentsIds| + |b.documentsIds| < MaxDocuments
    ensures BlockOk(MergedBlock(a, b, h, ratio), |a.documentsIds| + |b.documentsIds|, ratio)
    ensures Counted(MergedBlock(a, b, h, ratio))
  {
    SideOfOk(a, h, ratio);
    SideOfOk(b, h, ratio);
    MergeSidesOk(h, SideOf(a, h), SideOf(b, h), |a.documentsIds|, |b.documentsIds|, ratio);
    MergeSidesCounted(h, SideOf(a, h), SideOf(b, h), |a.documentsIds|, |b.documentsIds|, ratio);
  }

  ghost function MergedBlocks(a: Tables, b: Tables, order: seq<uint64>, ratio: Ratio): seq<Block>
    requires |a.documentsIds| < MaxDocuments
  {
    seq(|order|, k requires 0 <= k < |order| => MergedBlock(a, b, order[k], ratio))
  }

  lemma HashesOfMerged(a: Tables, b: Tables, order: seq<uint64>, ratio: Ratio)
    requires |a.documentsIds| < MaxDocuments && Enumerates(order, a.fields.Keys + b.fields.Keys)
    ensures HashesDistinct(MergedBlocks(a, b, order, ratio))
    ensures Hashes(MergedBlocks(a, b, order, ratio)) == a.fields.Keys + b.fields.Keys
  {
    HashesOfOrder(MergedBlocks(a, b, order, ratio), order, a.fields.Keys + b.fields.Keys);
  }

  lemma HashesOfOrder(bs: seq<Block>, order: seq<uint64>, keys: set<uint64>)
    requires Enumerates(order, keys) && |bs| == |order| && forall k | 0 <= k < |bs| :: bs[k].hash == order[k]
    ensures HashesDistinct(bs) && Hashes(bs) == keys
  {
    forall h | h in keys
      ensures h in Hashes(bs)
    {
      var k :| 0 <= k < |order| && order[k] == h;
      assert bs[k].hash == h;
    }
  }

  lemma NoEntries(t: Tables, h: uint64, v: bytes)
    requires h !in t.fields
    ensures Entries(t, h, v) == []
  {
  }

  lemma BlockOfHash(a: Tables, b: Tables, order: seq<uint64>, ratio: Ratio, h: uint64) returns (k: nat)
    requires |a.documentsIds| < MaxDocuments && Enumerates(order, a.fields.Keys + b.fields.Keys)
    requires h in a.fields.Keys + b.fields.Keys
    ensures k < |order| && MergedBlocks(a, b, order, ratio)[k] == MergedBlock(a, b, h, ratio)
    ensures MergedBlocks(a, b, order, ratio)[k].hash == h
  {
    k :| k < |order| && order[k] == h;
  }

  lemma BlockEntriesMerged(m: Tables, a: Tables, b: Tables, bs: seq<Block>, k: nat, ratio: Ratio, v: bytes)
    requires WellFormed(a, ratio) && WellFormed(b, ratio) && |a.documentsIds| + |b.documentsIds| < MaxDocuments
    requires k < |bs| && bs[k] == MergedBlock(a, b, bs[k].hash, ratio) && LaidOut(m, bs) && WellFormed(m, ratio)
    ensures Entries(m, bs[k].hash, v) == Entries(a, bs[k].hash, v) + Shift(Entries(b, bs[k].hash, v), |a.documentsIds|)
  {
    var h := bs[k].hash;
    var rs, ss := SideRows(a, h), SideRows(b, h);
    SideEntries(a, h, v, ratio);
    SideEntries(b, h, v, ratio);
    SideOfOk(a, h, ratio);
    SideOfOk(b, h, ratio);
    MergedRowsSorted(rs, ss, |a.documentsIds|);
    MergedRowEntries(rs, ss, |a.documentsIds|, v);
    EntriesLaidOut(m, bs, k, v, ratio);
  }

  lemma MergedEntriesOk(m: Tables, a: Tables, b: Tables, order: seq<uint64>, ratio: Ratio, h: uint64, v: bytes)
    requires WellFormed(a, ratio) && WellFormed(b, ratio) && |a.documentsIds| + |b.documentsIds| < MaxDocuments
    requires Enumerates(order, a.fields.Keys + b.fields.Keys) && LaidOut(m, MergedBlocks(a, b, order, ratio))
    requires WellFormed(m, ratio)
    requires h in a.fields.Keys + b.fields.Keys
    ensures Entries(m, h, v) == Entries(a, h, v) + Shift(Entries(b, h, v), |a.documentsIds|)
  {
    var k := BlockOfHash(a, b, order, ratio, h);
    BlockEntriesMerged(m, a, b, MergedBlocks(a, b, order, ratio), k, ratio, v);
  }

  lemma NothingMerged(m: Tables, a: Tables, b: Tables, h: uint64, v: bytes)
    requires m.fields.Keys == a.fields.Keys + b.fields.Keys && h !in m.fields && |a.documentsIds| < MaxDocuments
    ensures Entries(m, h, v) == Entries(a, h, v) + Shift(Entries(b, h, v), |a.documentsIds|)
  {
    NoEntries(m, h, v);
    NoEntries(a, h, v);
    NoEntries(b, h, v);
  }

  lemma MergedLengthsOk(m: Tables, a: Tables, b: Tables, order: seq<uint64>, ratio: Ratio, h: uint64)
    requires |a.documentsIds| < MaxDocuments && h in a.fields.Keys + b.fields.Keys
    requires Enumerates(order, a.fields.Keys + b.fields.Keys) && LaidOut(m, MergedBlocks(a, b, order, ratio))
    ensures SideLengths(m, h) == SideLengths(a, h) + ShiftLengths(SideLengths(b, h), |a.documentsIds|)
  {
    var k := BlockOfHash(a, b, order, ratio, h);
    BlockLengths(m, MergedBlocks(a, b, order, ratio), k);
  }

  lemma NoLengthsMerged(m: Tables, a: Tables, b: Tables, h: uint64)
    requires m.fields.Keys == a.fields.Keys + b.fields.Keys && h !in m.fields && |a.documentsIds| < MaxDocuments
    ensures SideLengths(m, h) == SideLengths(a, h) + ShiftLengths(SideLengths(b, h), |a.documentsIds|)
  {
  }

  lemma BlockLengths(m: Tables, bs: seq<Block>, k: nat)
    requires LaidOut(m, bs) && k < |bs|
    ensures SideLengths(m, bs[k].hash) == bs[k].lengths
  {
    assert BlockAt(m, bs, k);
  }

  lemma AveragesLaidOut(m: Tables, a: Tables, b: Tables, order: seq<uint64>, ratio: Ratio)
    requires |a.documentsIds| < MaxDocuments && LaidOut(m, MergedBlocks(a, b, order, ratio))
    ensures Averaged(m, a, b, ratio)
  {
    var bs := MergedBlocks(a, b, order, ratio);
    forall h | h in m.fields
      ensures m.fields[h].avgDocumentLength == MergedAverage(SideOf(a, h), SideOf(b, h), ratio)
    {
      var k: nat :| k < |bs| && bs[k].hash == h;
      assert BlockAt(m, bs, k);
    }
  }

  /** Tables laid out from the merged blocks, in any order of the fields, are a merge. */
  lemma LaidOutMerge(m: Tables, a: Tables, b: Tables, order: seq<uint64>, ratio: Ratio)
    requires WellFormed(a, ratio) && WellFormed(b, ratio) && |a.documentsIds| + |b.documentsIds| < MaxDocuments
    requires Enumerates(order, a.fields.Keys + b.fields.Keys) && LaidOut(m, MergedBlocks(a, b, order, ratio))
    requires m.documentsIds == a.documentsIds + b.documentsIds
    ensures MergeOf(m, a, b, ratio)
  {
    var bs := MergedBlocks(a, b, order, ratio);
    HashesOfMerged(a, b, order, ratio);
    forall k | 0 <= k < |bs|
      ensures BlockOk(bs[k], |m.documentsIds|, ratio) && Counted(bs[k])
    {
      MergedBlockOk(a, b, order[k], ratio);
    }
    LaidOutWellFormed(m, bs, ratio);
    AveragesLaidOut(m, a, b, order, ratio);
    forall h, v
      ensures Entries(m, h, v) == Entries(a, h, v) + Shift(Entries(b, h, v), |a.documentsIds|)
    {
      if h in m.fields {
        MergedEntriesOk(m, a, b, order, ratio, h, v);
      } else {
        NothingMerged(m, a, b, h, v);
      }
    }
    forall h
      ensures SideLengths(m, h) == SideLengths(a, h) + ShiftLengths(SideLengths(b, h), |a.documentsIds|)
    {
      if h in m.fields {
        MergedLengthsOk(m, a, b, order, ratio, h);
      } else {
        NoLengthsMerged(m, a, b, h);
      }
    }
  }

  lemma UnnamedLengths(docs: seq<Document>, h: uint64)
    requires !Named(docs, |docs|, h)
    ensures LengthsOfDocuments(docs, h) == []
  {
    forall d: nat | d < |docs|
      ensures LengthsAt(docs, h)(d) == []
    {
      UnnamedLength(docs, h, d);
    }
    CollectNothing(|docs|, LengthsAt(docs, h));
  }

  lemma UnnamedLength(docs: seq<Document>, h: uint64, d: nat)
    requires !Named(docs, |docs|, h) && d < |docs|
    ensures LengthsAt(docs, h)(d) == []
  {
    var fs := docs[d].fields;
    assert !FieldNamed(fs, |fs|, h);
    if d < MaxDocuments {
      CollectNothing(|fs|, LengthAt(fs, h, d));
    }
  }

  lemma SideLengthsOfIndex(t: Tables, docs: seq<Document>, ratio: Ratio, h: uint64)
    requires IndexOf(t, docs, ratio)
    ensures SideLengths(t, h) == LengthsOfDocuments(docs, h)
  {
    if h !in t.fields {
      UnnamedLengths(docs, h);
    }
  }

  lemma AppendedNames(m: Tables, a: Tables, b: Tables, xs: seq<Document>, ys: seq<Document>, h: uint64)
    requires m.fields.Keys == a.fields.Keys + b.fields.Keys
    requires (h in a.fields <==> Named(xs, |xs|, h)) && (h in b.fields <==> Named(ys, |ys|, h))
    ensures h in m.fields <==> Named(xs + ys, |xs + ys|, h)
  {
    NamedConcat(xs, ys, h);
  }

  lemma AppendedEntries(m: Tables, a: Tables, b: Tables, xs: seq<Document>, ys: seq<Document>, h: uint64, v: bytes)
    requires |xs| + |ys| < MaxDocuments && Entries(a, h, v) == OfDocuments(xs, h, v)
    requires Entries(b, h, v) == OfDocuments(ys, h, v)
    requires Entries(m, h, v) == Entries(a, h, v) + Shift(Entries(b, h, v), |xs|)
    ensures Entries(m, h, v) == OfDocuments(xs + ys, h, v)
  {
    OfConcat(xs, ys, h, v);
  }

  lemma AppendedLengths(m: Tables, a: Tables, b: Tables, xs: seq<Document>, ys: seq<Document>, ratio: Ratio, h: uint64)
    requires IndexOf(a, xs, ratio) && IndexOf(b, ys, ratio) && |xs| + |ys| < MaxDocuments && h in m.fields
    requires SideLengths(m, h) == SideLengths(a, h) + ShiftLengths(SideLengths(b, h), |xs|)
    ensures m.fields[h].documentLengths == LengthsOfDocuments(xs + ys, h)
  {
    SideLengthsOfIndex(a, xs, ratio, h);
    SideLengthsOfIndex(b, ys, ratio, h);
    LengthsOfConcat(xs, ys, h);
    assert m.fields[h].documentLengths == SideLengths(m, h);
  }

  lemma IdsConcat(xs: seq<Document>, ys: seq<Document>)
    ensures Ids(xs + ys) == Ids(xs) + Ids(ys) && |Ids(xs)| == |xs| && |Ids(ys)| == |ys|
  {
  }

  /** Merging the indexes of two document lists gives the index of the two lists one after the other. */
  lemma MergeOfIndexes(m: Tables, a: Tables, b: Tables, xs: seq<Document>, ys: seq<Document>, ratio: Ratio)
    requires IndexOf(a, xs, ratio) && IndexOf(b, ys, ratio) && MergeOf(m, a, b, ratio)
    ensures IndexOf(m, xs + ys, ratio)
  {
    IdsConcat(xs, ys);
    forall h
      ensures h in m.fields <==> Named(xs + ys, |xs + ys|, h)
    {
      AppendedNames(m, a, b, xs, ys, h);
    }
    forall h, v
      ensures Entries(m, h, v) == OfDocuments(xs + ys, h, v)
    {
      AppendedEntries(m, a, b, xs, ys, h, v);
    }
    forall h | h in m.fields
      ensures m.fields[h].documentLengths == LengthsOfDocuments(xs + ys, h)
    {
      AppendedLengths(m, a, b, xs, ys, ratio, h);
    }
  }

  /** Two indexes that filtering cannot tell apart; scores also read the averages, of which this says nothing. */
  ghost predicate SameIndex(s: Tables, t: Tables) {
    && s.documentsIds == t.documentsIds
    && s.fields.Keys == t.fields.Keys
    && (forall h, v :: Entries(s, h, v) == Entries(t, h, v))
    && (forall h :: SideLengths(s, h) == SideLengths(t, h))
  }

  lemma EntriesAssociate(x: seq<TokenFrequencyEntry>, y: seq<TokenFrequencyEntry>, z: seq<TokenFrequencyEntry>,
                         m: uint32, n: uint32)
    requires m + n < MaxDocuments
    ensures x + Shift(y, m) + Shift(z, m + n) == x + Shift(y + Shift(z, n), m)
  {
    ShiftAppended(y, Shift(z, n), m);
    ShiftTwice(z, m, n);
  }

  lemma LengthsAssociate(x: seq<DocumentLengthEntry>, y: seq<DocumentLengthEntry>, z: seq<DocumentLengthEntry>,
                         m: uint32, n: uint32)
    requires m + n < MaxDocuments
    ensures x + ShiftLengths(y, m) + ShiftLengths(z, m + n) == x + ShiftLengths(y + ShiftLengths(z, n), m)
  {
    LengthsShiftAppended(y, ShiftLengths(z, n), m);
    LengthsShiftTwice(z, m, n);
  }

  lemma EntriesAssociative(a: Tables, b: Tables, c: Tables, ab: Tables, bc: Tables, left: Tables, right: Tables,
                           h: uint64, v: bytes)
    requires Appended(ab, a, b) && Appended(left, ab, c) && Appended(bc, b, c) && Appended(right, a, bc)
    ensures Entries(left, h, v) == Entries(right, h, v)
  {
    EntriesAssociate(Entries(a, h, v), Entries(b, h, v), Entries(c, h, v), |a.documentsIds|, |b.documentsIds|);
  }

  lemma SidesAssociative(a: Tables, b: Tables, c: Tables, ab: Tables, bc: Tables, left: Tables, right: Tables,
                         h: uint64)
    requires Appended(ab, a, b) && Appended(left, ab, c) && Appended(bc, b, c) && Appended(right, a, bc)
    ensures SideLengths(left, h) == SideLengths(right, h)
  {
    LengthsAssociate(SideLengths(a, h), SideLengths(b, h), SideLengths(c, h), |a.documentsIds|, |b.documentsIds|);
  }

  lemma AppendedAssociative(a: Tables, b: Tables, c: Tables, ab: Tables, bc: Tables, left: Tables, right: Tables)
    requires Appended(ab, a, b) && Appended(left, ab, c) && Appended(bc, b, c) && Appended(right, a, bc)
    ensures SameIndex(left, right)
  {
    forall h, v
      ensures Entries(left, h, v) == Entries(right, h, v)
    {
      EntriesAssociative(a, b, c, ab, bc, left, right, h, v);
    }
    forall h
      ensures SideLengths(left, h) == SideLengths(right, h)
    {
      SidesAssociative(a, b, c, ab, bc, left, right, h);
    }
  }

  /** It does not matter to documents, entries and lengths in which order three indexes are merged. */
  lemma MergeAssociative(a: Tables, b: Tables, c: Tables, ab: Tables, bc: Tables, left: Tables, right: Tables,
                         ratio: Ratio)
    requires MergeOf(ab, a, b, ratio) && MergeOf(left, ab, c, ratio) && MergeOf(bc, b, c, ratio)
    requires MergeOf(right, a, bc, ratio)
    ensures SameIndex(left, right)
  {
    AppendedAssociative(a, b, c, ab, bc, left, right);
  }
}
