/** storage/merge.go, the second pass over one field: its header, its document lengths and its tokens. */
module MergeFields {
  import opened Bytes
  import opened Codec
  import opened Headers
  import opened Options
  import opened Parsing
  import opened Records
  import opened Tables
  import opened Blocks
  import opened Shifts
  import opened Format
  import opened Files
  import opened Saving
  import opened Zipping
  import opened Merged
  import opened MergeSpec
  import opened MergeWalk
  import opened MergeContexts

  /** What stands behind a table of tokens in its storage. */
  datatype Behind = Behind(rows: seq<Row>, freqs: seq<TokenFrequencyEntry>, lists: seq<bytes>)

  ghost predicate Stands(x: Behind, ts: seq<Token>) {
    Reads(x.rows, ts, x.freqs, x.lists)
  }

  /** After `k` steps of the second pass over a field. */
  ghost predicate Passed(ctx: MergeContext, x: Behind, y: Behind, base: bytes, pl: nat, fq: nat,
                         before: seq<Option<bytes>>, k: nat, i: nat, j: nat)
    reads ctx, ctx.w, ctx.w.file
  {
    && Standing(Keys(x.rows), Keys(y.rows), k, i, j)
    && ctx.TokensWritten(base, MergeRows(x.rows, y.rows, ctx.offset), pl, fq, ListOf(x.lists, y.lists, ctx.offset),
                         before, k)
  }

  method PassOn(ctx: MergeContext, p: Pair, ts: seq<Token>, us: seq<Token>, i: nat, j: nat, ghost x: Behind,
                ghost y: Behind, ghost base: bytes, ghost pl: nat, ghost fq: nat, ghost before: seq<Option<bytes>>,
                ghost k: nat)
    requires Stands(x, ts) && Stands(y, us) && Passed(ctx, x, y, base, pl, fq, before, k, i, j)
    requires (i < |ts| || j < |us|) && p == Head(Keys(x.rows), Keys(y.rows), i, j)
    modifies ctx`postingListCursor, ctx`frequenciesCursor, ctx`pending, ctx.w, ctx.w.file
    ensures Passed(ctx, x, y, base, pl, fq, before, k + 1, After(i, p.a), After(j, p.b))
  {
    Step(Keys(x.rows), Keys(y.rows), k, i, j);
    ZippedOk(Keys(x.rows), Keys(y.rows), k);
    ctx.WriteRow(p, ts, us, base, x.rows, y.rows, pl, fq, x.freqs, y.freqs, x.lists, y.lists, before, k);
  }

  lemma PassStarts(ctx: MergeContext, x: Behind, y: Behind)
    requires ctx.w.Appending()
    ensures Passed(ctx, x, y, ctx.w.Written(), ctx.postingListCursor, ctx.frequenciesCursor,
                   ctx.Queued(ListOf(x.lists, y.lists, ctx.offset)), 0, 0, 0)
  {
  }

  lemma PassEnds(ctx: MergeContext, x: Behind, y: Behind, base: bytes, pl: nat, fq: nat, before: seq<Option<bytes>>,
                 k: nat)
    requires Passed(ctx, x, y, base, pl, fq, before, k, |x.rows|, |y.rows|)
    ensures k == |MergeRows(x.rows, y.rows, ctx.offset)|
    ensures Done(ctx, MergeRows(x.rows, y.rows, ctx.offset), base, pl, fq, ListOf(x.lists, y.lists, ctx.offset), before)
  {
    var rows := MergeRows(x.rows, y.rows, ctx.offset);
    StandingEnd(Keys(x.rows), Keys(y.rows), k);
    RowsDone(ctx, rows, base, pl, fq, ListOf(x.lists, y.lists, ctx.offset), before);
  }

  /** All records of `rows` are written and all their lists are queued. */
  ghost predicate Done(ctx: MergeContext, rows: seq<Row>, base: bytes, pl: nat, fq: nat,
                       listOf: Pending -> Option<bytes>, before: seq<Option<bytes>>)
    reads ctx, ctx.w, ctx.w.file
  {
    && ctx.w.Appending() && ctx.w.Written() == base + Encode(PutToken, Number(rows, pl, fq))
    && ctx.postingListCursor == pl + |rows| && ctx.frequenciesCursor == fq + Count(rows, |rows|)
    && ctx.Queued(listOf) == before + Somes(Lists(rows))
  }

  lemma RowsDone(ctx: MergeContext, rows: seq<Row>, base: bytes, pl: nat, fq: nat, listOf: Pending -> Option<bytes>,
                 before: seq<Option<bytes>>)
    requires ctx.TokensWritten(base, rows, pl, fq, listOf, before, |rows|)
    ensures Done(ctx, rows, base, pl, fq, listOf, before)
  {
    TokensEncoded(PutToken, rows, pl, fq, |rows|);
    assert Number(rows, pl, fq)[..|rows|] == Number(rows, pl, fq) && Somes(Lists(rows))[..|rows|] == Somes(Lists(rows));
  }

  /** The tokens of a field that both storages have. */
  method WriteCollisionTokens(ctx: MergeContext, ts: seq<Token>, us: seq<Token>, ghost x: Behind, ghost y: Behind)
    requires ctx.w.Appending() && Stands(x, ts) && Stands(y, us)
    modifies ctx`postingListCursor, ctx`frequenciesCursor, ctx`pending, ctx.w, ctx.w.file
    ensures Done(ctx, MergeRows(x.rows, y.rows, ctx.offset), old(ctx.w.Written()), old(ctx.postingListCursor),
                 old(ctx.frequenciesCursor),
                 ListOf(x.lists, y.lists, ctx.offset), old(ctx.Queued(ListOf(x.lists, y.lists, ctx.offset))))
  {
    ghost var base, pl, fq := ctx.w.Written(), ctx.postingListCursor, ctx.frequenciesCursor;
    ghost var before := ctx.Queued(ListOf(x.lists, y.lists, ctx.offset));
    KeysOfRows(x.rows, ts, x.freqs);
    KeysOfRows(y.rows, us, y.freqs);
    PassStarts(ctx, x, y);
    ghost var k: nat := 0;
    var i: nat, j: nat := 0, 0;
    while i < |ts| || j < |us|
      invariant Passed(ctx, x, y, base, pl, fq, before, k, i, j)
      decreases |ts| - i + |us| - j
    {
      var p := NextPair(ts, us, i, j, Keys(x.rows), Keys(y.rows));
      PassOn(ctx, p, ts, us, i, j, x, y, base, pl, fq, before, k);
      i := if p.a >= 0 then i + 1 else i;
      j := if p.b >= 0 then j + 1 else j;
      k := k + 1;
    }
    PassEnds(ctx, x, y, base, pl, fq, before, k);
  }

  /** The tokens of a field of the first storage alone. */
  method WriteLeftTokens(ctx: MergeContext, ts: seq<Token>, ghost x: Behind, ghost y: Behind)
    requires ctx.w.Appending() && Stands(x, ts) && y.rows == []
    modifies ctx`postingListCursor, ctx`frequenciesCursor, ctx`pending, ctx.w, ctx.w.file
    ensures |ts| == |MergeRows(x.rows, y.rows, ctx.offset)|
    ensures Done(ctx, MergeRows(x.rows, y.rows, ctx.offset), old(ctx.w.Written()), old(ctx.postingListCursor),
                 old(ctx.frequenciesCursor),
                 ListOf(x.lists, y.lists, ctx.offset), old(ctx.Queued(ListOf(x.lists, y.lists, ctx.offset))))
  {
    ghost var base, pl, fq := ctx.w.Written(), ctx.postingListCursor, ctx.frequenciesCursor;
    ghost var before := ctx.Queued(ListOf(x.lists, y.lists, ctx.offset));
    PassStarts(ctx, x, y);
    for i := 0 to |ts|
      invariant Passed(ctx, x, y, base, pl, fq, before, i, i, 0)
    {
      PassOn(ctx, Pair(i, -1), ts, [], i, 0, x, y, base, pl, fq, before, i);
    }
    PassEnds(ctx, x, y, base, pl, fq, before, |ts|);
  }

  /** The tokens of a field of the second storage alone. */
  method WriteRightTokens(ctx: MergeContext, us: seq<Token>, ghost x: Behind, ghost y: Behind)
    requires ctx.w.Appending() && Stands(y, us) && x.rows == []
    modifies ctx`postingListCursor, ctx`frequenciesCursor, ctx`pending, ctx.w, ctx.w.file
    ensures |us| == |MergeRows(x.rows, y.rows, ctx.offset)|
    ensures Done(ctx, MergeRows(x.rows, y.rows, ctx.offset), old(ctx.w.Written()), old(ctx.postingListCursor),
                 old(ctx.frequenciesCursor),
                 ListOf(x.lists, y.lists, ctx.offset), old(ctx.Queued(ListOf(x.lists, y.lists, ctx.offset))))
  {
    ghost var base, pl, fq := ctx.w.Written(), ctx.postingListCursor, ctx.frequenciesCursor;
    ghost var before := ctx.Queued(ListOf(x.lists, y.lists, ctx.offset));
    PassStarts(ctx, x, y);
    for j := 0 to |us|
      invariant Passed(ctx, x, y, base, pl, fq, before, j, 0, j)
    {
      PassOn(ctx, Pair(-1, j), [], us, 0, j, x, y, base, pl, fq, before, j);
    }
    PassEnds(ctx, x, y, base, pl, fq, before, |us|);
  }

  /** Document lengths of the second storage, renumbered. */
  method WriteShiftedLengths(w: Writer, ls: seq<DocumentLengthEntry>, offset: uint32)
    requires w.Appending()
    modifies w, w.file
    ensures w.Appending() && w.Written() == old(w.Written()) + Encode(PutLength, ShiftLengths(ls, offset))
  {
    ghost var base, shifted := w.Written(), ShiftLengths(ls, offset);
    for i := 0 to |ls|
      invariant w.Appending() && w.Written() == base + Encode(PutLength, shifted[..i])
    {
      var d, n := PutUint32(Add32(offset, ls[i].index)), PutUint32(ls[i].length);
      w.Write(d);
      w.Write(n);
      EncodeNext(PutLength, shifted, i);
      Longer(base, Encode(PutLength, shifted[..i]), d, n);
    }
    assert shifted[..|ls|] == shifted;
  }

  /** The document lengths of both sides, those of the second renumbered. */
  method WriteLengths(w: Writer, ks: seq<DocumentLengthEntry>, ls: seq<DocumentLengthEntry>, offset: uint32)
    requires w.Appending()
    modifies w, w.file
    ensures w.Appending() && w.Written() == old(w.Written()) + Encode(PutLength, ks + ShiftLengths(ls, offset))
  {
    ghost var base := w.Written();
    w.Write(Encode(PutLength, ks));
    WriteShiftedLengths(w, ls, offset);
    EncodeConcat(PutLength, ks, ShiftLengths(ls, offset));
    Associative(base, Encode(PutLength, ks), Encode(PutLength, ShiftLengths(ls, offset)));
  }

  /** The header of a field and its document lengths. */
  method WriteFrame(ctx: MergeContext, header: FieldHeader, ks: seq<DocumentLengthEntry>, ls: seq<DocumentLengthEntry>)
      returns (ghost p4: bytes)
    requires ctx.w.Appending() && |ctx.buffer| == 8
    modifies ctx`buffer, ctx.w, ctx.w.file
    ensures ctx.w.Appending() && |ctx.buffer| == 8 && |p4| == 4
    ensures ctx.w.Written()
            == old(ctx.w.Written())
                + (FieldHeaderBytes(header, p4) + Encode(PutLength, ks + ShiftLengths(ls, ctx.offset)))
  {
    ghost var base := ctx.w.Written();
    ctx.buffer, p4 := WriteFieldHeader(ctx.w, ctx.buffer, header);
    WriteLengths(ctx.w, ks, ls, ctx.offset);
    Associative(base, FieldHeaderBytes(header, p4), Encode(PutLength, ks + ShiftLengths(ls, ctx.offset)));
  }

  /** A field as one storage holds it, with its rows. */
  ghost function Sided(f: Field, x: Behind): Side {
    Present(f.avgDocumentLength,
            FieldView(f.totalDocumentsLength, f.totalTokenFrequenciesCount, f.documentLengths, x.rows))
  }

  /** The field that is block `b` is written from where the cursors stood, and its lists are queued. */
  ghost predicate FieldWritten(ctx: MergeContext, b: Block, p4: bytes, base: bytes, pl: nat, fq: nat,
                               listOf: Pending -> Option<bytes>, before: seq<Option<bytes>>)
    reads ctx, ctx.w, ctx.w.file
  {
    && ctx.w.Appending() && |ctx.buffer| == 8 && |p4| == 4
    && ctx.w.Written() == base + FieldImage(b.hash, FieldOf(b, pl, fq), p4)
    && ctx.postingListCursor == pl + |b.rows| && ctx.frequenciesCursor == fq + Count(b.rows, |b.rows|)
    && ctx.Queued(listOf) == before + Somes(Lists(b.rows))
  }

  ghost function HeaderOfBlock(b: Block): FieldHeader {
    FieldHeader(b.hash, b.avg, b.totalLength, |b.rows|, b.totalFreqs, |b.lengths|)
  }

  lemma FieldComplete(ctx: MergeContext, b: Block, p4: bytes, base: bytes, framed: bytes, pl: nat, fq: nat,
                      listOf: Pending -> Option<bytes>, before: seq<Option<bytes>>)
    requires |ctx.buffer| == 8 && |p4| == 4
    requires framed == base + (FieldHeaderBytes(HeaderOfBlock(b), p4) + Encode(PutLength, b.lengths))
    requires Done(ctx, b.rows, framed, pl, fq, listOf, before)
    ensures FieldWritten(ctx, b, p4, base, pl, fq, listOf, before)
  {
    TwoParts(base, FieldHeaderBytes(FieldHeaderOf(b.hash, FieldOf(b, pl, fq)), p4), Encode(PutLength, b.lengths),
             Encode(PutToken, Number(b.rows, pl, fq)));
  }

  lemma TwoParts<X>(base: seq<X>, a: seq<X>, b: seq<X>, c: seq<X>)
    ensures base + (a + b) + c == base + (a + (b + c))
  {
  }

  /** The header of a field that both storages have: averaged anew, its tokens counted before they are written. */
  method CollisionHeader(h: uint64, f: Field, g: Field, ratio: Ratio, ghost x: Behind, ghost y: Behind,
                         ghost offset: uint32)
      returns (header: FieldHeader)
    requires Stands(x, f.tokens) && Stands(y, g.tokens)
    ensures header == HeaderOfBlock(MergeSides(h, Sided(f, x), Sided(g, y), offset, ratio))
  {
    KeysOfRows(x.rows, f.tokens, x.freqs);
    KeysOfRows(y.rows, g.tokens, y.freqs);
    var total := f.totalDocumentsLength + g.totalDocumentsLength;
    var avg := ratio.merged(total, |f.documentLengths| + |g.documentLengths|);
    var tokensCount := CountTokensBetweenCollisionFields(f.tokens, g.tokens);
    header := FieldHeader(h, avg, total, tokensCount, f.totalTokenFrequenciesCount + g.totalTokenFrequenciesCount,
                          |f.documentLengths| + |g.documentLengths|);
  }

  /** A field that both storages have. */
  method WriteCollisionField(ctx: MergeContext, h: uint64, f: Field, g: Field, ratio: Ratio, ghost x: Behind,
                             ghost y: Behind)
      returns (ghost p4: bytes)
    requires ctx.w.Appending() && |ctx.buffer| == 8 && Stands(x, f.tokens) && Stands(y, g.tokens)
    modifies ctx`buffer, ctx`postingListCursor, ctx`frequenciesCursor, ctx`pending, ctx.w, ctx.w.file
    ensures FieldWritten(ctx, MergeSides(h, Sided(f, x), Sided(g, y), ctx.offset, ratio), p4, old(ctx.w.Written()),
                         old(ctx.postingListCursor),
                         old(ctx.frequenciesCursor), ListOf(x.lists, y.lists, ctx.offset),
                             old(ctx.Queued(ListOf(x.lists, y.lists, ctx.offset))))
  {
    ghost var base, b := ctx.w.Written(), MergeSides(h, Sided(f, x), Sided(g, y), ctx.offset, ratio);
    ghost var pl, fq, listOf := ctx.postingListCursor, ctx.frequenciesCursor, ListOf(x.lists, y.lists, ctx.offset);
    ghost var before := ctx.Queued(listOf);
    var header := CollisionHeader(h, f, g, ratio, x, y, ctx.offset);
    p4 := WriteFrame(ctx, header, f.documentLengths, g.documentLengths);
    ghost var framed := ctx.w.Written();
    WriteCollisionTokens(ctx, f.tokens, g.tokens, x, y);
    FieldComplete(ctx, b, p4, base, framed, pl, fq, listOf, before);
  }

  /** A field of the first storage alone: copied, with its tokens renumbered. */
  method WriteLeftField(ctx: MergeContext, h: uint64, f: Field, ghost ratio: Ratio, ghost x: Behind, ghost y: Behind)
      returns (ghost p4: bytes)
    requires ctx.w.Appending() && |ctx.buffer| == 8 && Stands(x, f.tokens) && y.rows == []
    modifies ctx`buffer, ctx`postingListCursor, ctx`frequenciesCursor, ctx`pending, ctx.w, ctx.w.file
    ensures FieldWritten(ctx, MergeSides(h, Sided(f, x), Absent, ctx.offset, ratio), p4, old(ctx.w.Written()),
                         old(ctx.postingListCursor),
                         old(ctx.frequenciesCursor), ListOf(x.lists, y.lists, ctx.offset),
                             old(ctx.Queued(ListOf(x.lists, y.lists, ctx.offset))))
  {
    ghost var base, b := ctx.w.Written(), MergeSides(h, Sided(f, x), Absent, ctx.offset, ratio);
    ghost var pl, fq, listOf := ctx.postingListCursor, ctx.frequenciesCursor, ListOf(x.lists, y.lists, ctx.offset);
    ghost var before := ctx.Queued(listOf);
    p4 := WriteFrame(ctx,
                     FieldHeader(h, f.avgDocumentLength, f.totalDocumentsLength, |f.tokens|,
                                 f.totalTokenFrequenciesCount,
                                      |f.documentLengths|), f.documentLengths, []);
    ghost var framed := ctx.w.Written();
    WriteLeftTokens(ctx, f.tokens, x, y);
    FieldComplete(ctx, b, p4, base, framed, pl, fq, listOf, before);
  }

  /** A field of the second storage alone: its documents renumbered throughout. */
  method WriteRightField(ctx: MergeContext, h: uint64, g: Field, ghost ratio: Ratio, ghost x: Behind, ghost y: Behind)
      returns (ghost p4: bytes)
    requires ctx.w.Appending() && |ctx.buffer| == 8 && Stands(y, g.tokens) && x.rows == []
    modifies ctx`buffer, ctx`postingListCursor, ctx`frequenciesCursor, ctx`pending, ctx.w, ctx.w.file
    ensures FieldWritten(ctx, MergeSides(h, Absent, Sided(g, y), ctx.offset, ratio), p4, old(ctx.w.Written()),
                         old(ctx.postingListCursor),
                         old(ctx.frequenciesCursor), ListOf(x.lists, y.lists, ctx.offset),
                             old(ctx.Queued(ListOf(x.lists, y.lists, ctx.offset))))
  {
    ghost var base, b := ctx.w.Written(), MergeSides(h, Absent, Sided(g, y), ctx.offset, ratio);
    ghost var pl, fq, listOf := ctx.postingListCursor, ctx.frequenciesCursor, ListOf(x.lists, y.lists, ctx.offset);
    ghost var before := ctx.Queued(listOf);
    p4 := WriteFrame(ctx,
                     FieldHeader(h, g.avgDocumentLength, g.totalDocumentsLength, |g.tokens|,
                                 g.totalTokenFrequenciesCount,
                                      |g.documentLengths|), [], g.documentLengths);
    ghost var framed := ctx.w.Written();
    WriteRightTokens(ctx, g.tokens, x, y);
    FieldComplete(ctx, b, p4, base, framed, pl, fq, listOf, before);
  }
}
