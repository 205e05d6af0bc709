/**
 The layout that building and merging both produce. Fields come as blocks of rows, one row per token in byte
 order; posting lists are numbered across all rows, and the entries of all rows lie end to end in one region.
 */
module Blocks {
  import opened Bytes
  import opened Headers
  import opened Bitmaps
  import opened Tables

  datatype Row = Row(value: RawValue, entries: seq<TokenFrequencyEntry>, list: bytes)

  datatype Block = Block(hash: uint64, avg: uint32, totalLength: nat, totalFreqs: nat,
                         lengths: seq<DocumentLengthEntry>, rows: seq<Row>)

  /** Number of entries in the first `n` rows. */
  function Count(rows: seq<Row>, n: nat): nat
    requires n <= |rows|
  {
    if n == 0 then 0 else Count(rows, n - 1) + |rows[n - 1].entries|
  }

  function Flatten(rows: seq<Row>, n: nat): (es: seq<TokenFrequencyEntry>)
    requires n <= |rows|
    ensures |es| == Count(rows, n)
  {
    if n == 0 then [] else Flatten(rows, n - 1) + rows[n - 1].entries
  }

  function Lists(rows: seq<Row>): seq<bytes> {
    seq(|rows|, i requires 0 <= i < |rows| => rows[i].list)
  }

  /** The token records of `rows` when the two cursors stand at `pl` and `fq`. */
  function Number(rows: seq<Row>, pl: nat, fq: nat): seq<Token> {
    seq(|rows|, i requires 0 <= i < |rows| => Token(|rows[i].entries|, pl + i, fq + Count(rows, i), rows[i].value))
  }

  function FieldOf(b: Block, pl: nat, fq: nat): Field {
    Field(b.avg, b.totalLength, Number(b.rows, pl, fq), b.totalFreqs, b.lengths)
  }

  function BlockLists(bs: seq<Block>, n: nat): seq<bytes>
    requires n <= |bs|
  {
    if n == 0 then [] else BlockLists(bs, n - 1) + Lists(bs[n - 1].rows)
  }

  function BlockEntries(bs: seq<Block>, n: nat): seq<TokenFrequencyEntry>
    requires n <= |bs|
  {
    if n == 0 then [] else BlockEntries(bs, n - 1) + Flatten(bs[n - 1].rows, |bs[n - 1].rows|)
  }

  /** Posting lists and entries before block k: where its cursors start. */
  function ListBase(bs: seq<Block>, k: nat): nat
    requires k <= |bs|
  {
    |BlockLists(bs, k)|
  }

  function EntryBase(bs: seq<Block>, k: nat): nat
    requires k <= |bs|
  {
    |BlockEntries(bs, k)|
  }

  ghost predicate RowOk(r: Row, n: nat) {
    r.value.size <= MaxRawValueSize && EntriesOk(r.entries, n) && Unmarshal(r.list) == DocumentsOf(r.entries)
  }

  ghost predicate RowsSorted(rows: seq<Row>) {
    forall i, j | 0 <= i < j < |rows| :: Less(RawBytes(rows[i].value), RawBytes(rows[j].value))
  }

  ghost predicate RowsOk(rows: seq<Row>, n: nat) {
    RowsSorted(rows) && forall i | 0 <= i < |rows| :: RowOk(rows[i], n)
  }

  ghost predicate BlockOk(b: Block, n: nat, ratio: Ratio) {
    && RowsOk(b.rows, n)
    && LengthsOk(b.lengths, n)
    && b.totalLength == SumLengths(b.lengths, |b.lengths|)
    && (b.lengths != [] ==> ratio.Gives(b.avg, b.totalLength, |b.lengths|))
  }

  ghost predicate Counted(b: Block) {
    b.totalFreqs == Count(b.rows, |b.rows|)
  }

  ghost predicate HashesDistinct(bs: seq<Block>) {
    forall i, j | 0 <= i < j < |bs| :: bs[i].hash != bs[j].hash
  }

  ghost function Hashes(bs: seq<Block>): set<uint64> {
    set i | 0 <= i < |bs| :: bs[i].hash
  }

  ghost predicate BlockAt(t: Tables, bs: seq<Block>, k: nat)
    requires k < |bs|
  {
    bs[k].hash in t.fields && t.fields[bs[k].hash] == FieldOf(bs[k], ListBase(bs, k), EntryBase(bs, k))
  }

  /** `t` is the layout of the blocks `bs`: every index in a token record is where the cursors stood. */
  ghost predicate LaidOut(t: Tables, bs: seq<Block>) {
    && HashesDistinct(bs)
    && t.fields.Keys == Hashes(bs)
    && (forall k: nat {:trigger BlockAt(t, bs, k)} | k < |bs| :: BlockAt(t, bs, k))
    && t.tokenFrequencies == BlockEntries(bs, |bs|)
    && t.postingLists == BlockLists(bs, |bs|)
  }

  ghost predicate HasRow(rows: seq<Row>, v: bytes, i: nat) {
    i < |rows| && RawBytes(rows[i].value) == v
  }

  ghost function RowEntries(rows: seq<Row>, v: bytes): seq<TokenFrequencyEntry> {
    if exists i: nat :: HasRow(rows, v, i) then
      var i: nat :| HasRow(rows, v, i);
      rows[i].entries
    else []
  }

  lemma RowEntriesAt(rows: seq<Row>, i: nat)
    requires RowsSorted(rows) && i < |rows|
    ensures RowEntries(rows, RawBytes(rows[i].value)) == rows[i].entries
  {
    assert HasRow(rows, RawBytes(rows[i].value), i);
    forall j: nat | HasRow(rows, RawBytes(rows[i].value), j)
      ensures j == i
    {
      LessTotal(RawBytes(rows[i].value), RawBytes(rows[j].value));
    }
  }

  /** `part` is what stands in `s` from position `at` on. */
  ghost predicate PartAt<X>(s: seq<X>, at: nat, part: seq<X>) {
    at + |part| <= |s| && s[at..at + |part|] == part
  }

  lemma {:induction false} FlattenSlice(rows: seq<Row>, i: nat, n: nat)
    requires i < n <= |rows|
    ensures PartAt(Flatten(rows, n), Count(rows, i), rows[i].entries)
    decreases n
  {
    if i < n - 1 {
      FlattenSlice(rows, i, n - 1);
    }
  }

  lemma {:induction false} BlockSlice(bs: seq<Block>, k: nat, n: nat)
    requires k < n <= |bs|
    ensures PartAt(BlockEntries(bs, n), EntryBase(bs, k), Flatten(bs[k].rows, |bs[k].rows|))
    decreases n
  {
    if k < n - 1 {
      BlockSlice(bs, k, n - 1);
    }
  }

  lemma {:induction false} BlockListSlice(bs: seq<Block>, k: nat, n: nat)
    requires k < n <= |bs|
    ensures ListBase(bs, k) + |bs[k].rows| <= ListBase(bs, n)
    ensures BlockLists(bs, n)[ListBase(bs, k)..ListBase(bs, k) + |bs[k].rows|] == Lists(bs[k].rows)
    decreases n
  {
    if k < n - 1 {
      BlockListSlice(bs, k, n - 1);
    }
  }

  lemma PartOfPart<X>(s: seq<X>, base: nat, inner: seq<X>, i: nat, part: seq<X>)
    requires PartAt(s, base, inner) && PartAt(inner, i, part)
    ensures PartAt(s, base + i, part)
  {
    var y := s[base + i..base + i + |part|];
    assert forall j | 0 <= j < |part| :: y[j] == inner[i + j] == part[j];
  }

  lemma RowInRegion(bs: seq<Block>, k: nat, i: nat, all: seq<TokenFrequencyEntry>, base: nat, rows: seq<Row>)
    requires k < |bs| && rows == bs[k].rows && i < |rows| && all == BlockEntries(bs, |bs|) && base == EntryBase(bs, k)
    ensures PartAt(all, base + Count(rows, i), rows[i].entries)
  {
    BlockSlice(bs, k, |bs|);
    RowInBlock(all, base, rows, i);
  }

  lemma RowInBlock(all: seq<TokenFrequencyEntry>, base: nat, rows: seq<Row>, i: nat)
    requires i < |rows| && PartAt(all, base, Flatten(rows, |rows|))
    ensures PartAt(all, base + Count(rows, i), rows[i].entries)
  {
    FlattenSlice(rows, i, |rows|);
    PartOfPart(all, base, Flatten(rows, |rows|), Count(rows, i), rows[i].entries);
  }

  lemma RowInLists(bs: seq<Block>, k: nat, i: nat)
    requires k < |bs| && i < |bs[k].rows|
    ensures ListBase(bs, k) + i < |BlockLists(bs, |bs|)|
    ensures BlockLists(bs, |bs|)[ListBase(bs, k) + i] == bs[k].rows[i].list
  {
    BlockListSlice(bs, k, |bs|);
    var pl, n := ListBase(bs, k), |bs[k].rows|;
    assert BlockLists(bs, |bs|)[pl..pl + n][i] == BlockLists(bs, |bs|)[pl + i];
  }

  /** A token record leads back to its own row: its entries and its posting list. */
  lemma RowOfToken(t: Tables, bs: seq<Block>, k: nat, i: nat)
    requires LaidOut(t, bs) && k < |bs| && i < |bs[k].rows|
    ensures bs[k].hash in t.fields && |t.fields[bs[k].hash].tokens| == |bs[k].rows|
    ensures var token := t.fields[bs[k].hash].tokens[i];
            && token.value == bs[k].rows[i].value
            && InRegion(t, token) && Slice(t, token) == bs[k].rows[i].entries
            && token.postingListIndex < |t.postingLists| && t.postingLists[token.postingListIndex] == bs[k].rows[i].list
  {
    assert BlockAt(t, bs, k);
    RowInRegion(bs, k, i, BlockEntries(bs, |bs|), EntryBase(bs, k), bs[k].rows);
    RowInLists(bs, k, i);
  }

  lemma {:induction false} CountsOfNumber(rows: seq<Row>, pl: nat, fq: nat, n: nat)
    requires n <= |rows|
    ensures SumCounts(Number(rows, pl, fq), n) == Count(rows, n)
  {
    if n > 0 {
      CountsOfNumber(rows, pl, fq, n - 1);
    }
  }

  lemma {:induction false} EntriesWithin(bs: seq<Block>, k: nat, n: nat)
    requires k < n <= |bs|
    ensures Count(bs[k].rows, |bs[k].rows|) <= |BlockEntries(bs, n)|
  {
    if k < n - 1 {
      EntriesWithin(bs, k, n - 1);
    }
  }

  /** In a layout no field counts more entries than there are. */
  lemma LaidOutSpread(t: Tables, bs: seq<Block>, ratio: Ratio)
    requires LaidOut(t, bs) && WellFormed(t, ratio)
    ensures Spread(t)
  {
    forall h | h in t.fields
      ensures t.fields[h].totalTokenFrequenciesCount <= |t.tokenFrequencies|
    {
      var k: nat :| k < |bs| && bs[k].hash == h;
      assert BlockAt(t, bs, k) && FieldOk(t, t.fields[h], ratio);
      CountsOfNumber(bs[k].rows, ListBase(bs, k), EntryBase(bs, k), |bs[k].rows|);
      EntriesWithin(bs, k, |bs|);
    }
  }

  lemma FieldLaidOut(t: Tables, bs: seq<Block>, k: nat, ratio: Ratio)
    requires LaidOut(t, bs) && k < |bs| && BlockOk(bs[k], |t.documentsIds|, ratio) && Counted(bs[k])
    ensures bs[k].hash in t.fields && FieldOk(t, t.fields[bs[k].hash], ratio)
  {
    assert BlockAt(t, bs, k);
    var f, rows := t.fields[bs[k].hash], bs[k].rows;
    forall i | 0 <= i < |f.tokens|
      ensures f.tokens[i].Bytes() == RawBytes(rows[i].value) && TokenOk(t, f.tokens[i])
    {
      RowOfToken(t, bs, k, i);
      assert RowOk(rows[i], |t.documentsIds|);
    }
    CountsOfNumber(rows, ListBase(bs, k), EntryBase(bs, k), |rows|);
  }

  /** Blocks that are in order lay out as a well-formed index that means what the rows say. */
  lemma LaidOutWellFormed(t: Tables, bs: seq<Block>, ratio: Ratio)
    requires LaidOut(t, bs) && |t.documentsIds| < MaxDocuments
    requires forall k | 0 <= k < |bs| :: BlockOk(bs[k], |t.documentsIds|, ratio) && Counted(bs[k])
    ensures WellFormed(t, ratio)
    ensures forall k, v | 0 <= k < |bs| :: Entries(t, bs[k].hash, v) == RowEntries(bs[k].rows, v)
  {
    forall h | h in t.fields
      ensures FieldOk(t, t.fields[h], ratio)
    {
      var k: nat :| k < |bs| && bs[k].hash == h;
      FieldLaidOut(t, bs, k, ratio);
    }
    forall k, v | 0 <= k < |bs|
      ensures Entries(t, bs[k].hash, v) == RowEntries(bs[k].rows, v)
    {
      EntriesLaidOut(t, bs, k, v, ratio);
    }
  }

  lemma EntriesLaidOut(t: Tables, bs: seq<Block>, k: nat, v: bytes, ratio: Ratio)
    requires LaidOut(t, bs) && WellFormed(t, ratio) && k < |bs| && RowsSorted(bs[k].rows)
    ensures Entries(t, bs[k].hash, v) == RowEntries(bs[k].rows, v)
  {
    assert BlockAt(t, bs, k);
    if i: nat :| HasRow(bs[k].rows, v, i) {
      EntriesOfRow(t, bs, k, i, ratio);
    } else {
      forall i: nat | i < |bs[k].rows|
        ensures !HasToken(t.fields[bs[k].hash].tokens, v, i)
      {
        RowOfToken(t, bs, k, i);
        assert !HasRow(bs[k].rows, v, i);
      }
    }
  }

  lemma EntriesOfRow(t: Tables, bs: seq<Block>, k: nat, i: nat, ratio: Ratio)
    requires LaidOut(t, bs) && WellFormed(t, ratio) && k < |bs| && RowsSorted(bs[k].rows) && i < |bs[k].rows|
    ensures var v := RawBytes(bs[k].rows[i].value);
            Entries(t, bs[k].hash, v) == RowEntries(bs[k].rows, v)
  {
    RowOfToken(t, bs, k, i);
    EntriesOfToken(t, bs[k].hash, i, ratio);
    RowEntriesAt(bs[k].rows, i);
  }

  lemma {:induction false} BasesStable(bs: seq<Block>, b: Block, n: nat)
    requires n <= |bs|
    ensures BlockLists(bs + [b], n) == BlockLists(bs, n) && BlockEntries(bs + [b], n) == BlockEntries(bs, n)
  {
    if n > 0 {
      BasesStable(bs, b, n - 1);
    }
  }

  ghost function WithBlock(t: Tables, b: Block): Tables {
    Tables(t.documentsIds, t.tokenFrequencies + Flatten(b.rows, |b.rows|),
           t.fields[b.hash := FieldOf(b, |t.postingLists|, |t.tokenFrequencies|)], t.postingLists + Lists(b.rows))
  }

  /** One more block keeps the layout: its cursors start where the region and the lists end. */
  lemma LaidOutSnoc(t: Tables, bs: seq<Block>, b: Block)
    requires LaidOut(t, bs) && b.hash !in Hashes(bs)
    ensures LaidOut(WithBlock(t, b), bs + [b])
  {
    var t', bs' := WithBlock(t, b), bs + [b];
    BasesStable(bs, b, |bs|);
    HashesSnoc(bs, b);
    forall k: nat | k < |bs'|
      ensures BlockAt(t', bs', k)
    {
      if k < |bs| {
        assert BlockAt(t, bs, k) && bs[k].hash in Hashes(bs);
        BasesStable(bs, b, k);
      }
    }
  }

  lemma HashesSnoc(bs: seq<Block>, b: Block)
    requires HashesDistinct(bs) && b.hash !in Hashes(bs)
    ensures HashesDistinct(bs + [b]) && Hashes(bs + [b]) == Hashes(bs) + {b.hash}
  {
    assert forall i | 0 <= i < |bs| :: bs[i].hash in Hashes(bs) && (bs + [b])[i] == bs[i];
    assert (bs + [b])[|bs|] == b;
    forall h | h in Hashes(bs) + {b.hash}
      ensures h in Hashes(bs + [b])
    {
      if h in Hashes(bs) {
        var i :| 0 <= i < |bs| && bs[i].hash == h;
        assert (bs + [b])[i].hash == h;
      }
    }
  }
}
