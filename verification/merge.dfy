/** storage/merge.go, `Merge`: the file of two storages merged. */
module Mergers {
  import opened Bytes
  import opened Codec
  import opened Headers
  import opened Options
  import opened Parsing
  import opened Records
  import opened Bitmaps
  import opened Tables
  import opened Blocks
  import opened Shifts
  import opened Totals
  import opened Build
  import opened Format
  import opened ListTables
  import opened Files
  import opened Regions
  import opened Images
  import opened Storages
  import opened MergeSpec
  import opened MergeContexts
  import opened MergePasses

  const OffsetBitmapCachedSize := 16

  /** `NextMany`: as many elements as fit, from `pos` on. */
  method NextMany(elements: seq<uint32>, pos: nat, chunk: array<uint32>) returns (n: nat)
    requires pos <= |elements|
    modifies chunk
    ensures n == (if |elements| - pos < chunk.Length then |elements| - pos else chunk.Length)
    ensures chunk[..n] == elements[pos..pos + n]
  {
    n := if |elements| - pos < chunk.Length then |elements| - pos else chunk.Length;
    for i := 0 to n
      invariant chunk[..i] == elements[pos..pos + i]
    {
      chunk[i] := elements[pos + i];
    }
  }

  function Offset(xs: seq<uint32>, offset: uint32): seq<uint32> {
    seq(|xs|, i requires 0 <= i < |xs| => Add32(xs[i], offset))
  }

  method AddInPlace(chunk: array<uint32>, n: nat, offset: uint32)
    requires n <= chunk.Length
    modifies chunk
    ensures chunk[..n] == Offset(old(chunk[..n]), offset)
  {
    for i := 0 to n
      invariant chunk[..i] == Offset(old(chunk[..n])[..i], offset) && chunk[i..n] == old(chunk[..n])[i..]
    {
      chunk[i] := Add32(chunk[i], offset);
    }
  }

  lemma OffsetElements(xs: seq<uint32>, offset: uint32)
    ensures Elements(Offset(xs, offset)) == ShiftSet(Elements(xs), offset)
  {
    forall d | d in ShiftSet(Elements(xs), offset)
      ensures d in Elements(Offset(xs, offset))
    {
      var i :| 0 <= i < |xs| && Add32(offset, xs[i]) == d;
      assert Offset(xs, offset)[i] == d;
    }
    forall i | 0 <= i < |xs|
      ensures Offset(xs, offset)[i] in ShiftSet(Elements(xs), offset)
    {
      assert xs[i] in Elements(xs);
    }
  }

  lemma ElementsJoin(xs: seq<uint32>, ys: seq<uint32>, offset: uint32)
    ensures ShiftSet(Elements(xs + ys), offset) == ShiftSet(Elements(xs), offset) + ShiftSet(Elements(ys), offset)
  {
    forall d | d in Elements(xs) + Elements(ys)
      ensures d in Elements(xs + ys)
    {
      if d in Elements(xs) {
        var i :| 0 <= i < |xs| && xs[i] == d;
        assert (xs + ys)[i] == d;
      } else {
        var i :| 0 <= i < |ys| && ys[i] == d;
        assert (xs + ys)[|xs| + i] == d;
      }
    }
    assert Elements(xs + ys) == Elements(xs) + Elements(ys);
  }

  /** The first `pos` elements have been added, shifted. */
  ghost predicate Shifted(base: Bitmap, dst: Bitmap, elements: seq<uint32>, pos: nat, offset: uint32) {
    pos <= |elements| && dst == base + ShiftSet(Elements(elements[..pos]), offset)
  }

  lemma NothingShifted(base: Bitmap, elements: seq<uint32>, offset: uint32)
    ensures Shifted(base, base, elements, 0, offset)
  {
    assert elements[..0] == [];
  }

  lemma AllShifted(base: Bitmap, dst: Bitmap, elements: seq<uint32>, pos: nat, offset: uint32)
    requires Shifted(base, dst, elements, pos, offset) && pos == |elements|
    ensures dst == base + ShiftSet(Elements(elements), offset)
  {
    assert elements[..|elements|] == elements;
  }

  lemma ChunkShifted(base: Bitmap, dst: Bitmap, elements: seq<uint32>, pos: nat, pos': nat, offset: uint32)
    requires Shifted(base, dst, elements, pos, offset) && pos <= pos' <= |elements|
    ensures Shifted(base, dst + Elements(Offset(elements[pos..pos'], offset)), elements, pos', offset)
  {
    OffsetElements(elements[pos..pos'], offset);
    ElementsJoin(elements[..pos], elements[pos..pos'], offset);
    assert elements[..pos] + elements[pos..pos'] == elements[..pos'];
  }

  /** One chunk of the shift. */
  method AddChunk(dst: Bitmap, elements: seq<uint32>, pos: nat, offset: uint32, chunk: array<uint32>,
                  ghost base: Bitmap)
      returns (dst': Bitmap, n: nat, pos': nat)
    requires Shifted(base, dst, elements, pos, offset) && chunk.Length == OffsetBitmapCachedSize
    modifies chunk
    ensures n == (if |elements| - pos < chunk.Length then |elements| - pos else chunk.Length)
    ensures pos' == pos + n && Shifted(base, dst', elements, pos', offset)
  {
    n := NextMany(elements, pos, chunk);
    AddInPlace(chunk, n, offset);
    dst', pos' := dst + Elements(chunk[..n]), pos + n;
    ChunkShifted(base, dst, elements, pos, pos', offset);
  }

  /** `addOffsetFrom`: a chunk of fewer than 8 elements can only be the last. */
  method AddOffsetFrom(dst: Bitmap, src: Bitmap, offset: uint32, chunk: array<uint32>) returns (dst': Bitmap)
    requires chunk.Length == OffsetBitmapCachedSize
    modifies chunk
    ensures dst' == dst + ShiftSet(src, offset)
  {
    var elements, pos := ToArray(src), 0;
    dst' := dst;
    NothingShifted(dst, elements, offset);
    while true
      invariant Shifted(dst, dst', elements, pos, offset)
      decreases |elements| - pos
    {
      var n;
      dst', n, pos := AddChunk(dst', elements, pos, offset, chunk, dst);
      if n < 8 {
        break;
      }
    }
    AllShifted(dst, dst', elements, pos, offset);
  }

  /** The list of a queue entry: copied, shifted, or both joined. */
  method ListFor(q: Pending, pa: PostingLists, pb: PostingLists, offset: uint32, chunk: array<uint32>,
                 ghost la: seq<bytes>, ghost lb: seq<bytes>)
      returns (list: bytes)
    requires Holds(pa, la) && Holds(pb, lb) && ListOf(la, lb, offset)(q).Some? && chunk.Length == OffsetBitmapCachedSize
    modifies chunk
    ensures ListOf(la, lb, offset)(q) == Some(list)
  {
    if q.indexA != -1 && q.indexB != -1 {
      HoldsGet(pa, la, q.indexA);
      HoldsGet(pb, lb, q.indexB);
      var bitmap := AddOffsetFrom(Unmarshal(Get(pa, q.indexA)), Unmarshal(Get(pb, q.indexB)), offset, chunk);
      list := Marshal(bitmap);
    } else if q.indexA != -1 {
      HoldsGet(pa, la, q.indexA);
      list := Get(pa, q.indexA);
    } else {
      HoldsGet(pb, lb, q.indexB);
      var bitmap := AddOffsetFrom({}, Unmarshal(Get(pb, q.indexB)), offset, chunk);
      list := Marshal(bitmap);
    }
  }

  lemma QueueEntry(ctx: MergeContext, listOf: Pending -> Option<bytes>, ls: seq<bytes>, i: nat)
    requires ctx.Queued(listOf) == Somes(ls) && i < |ls|
    ensures i < |ctx.pending| && listOf(ctx.pending[i]) == Some(ls[i])
  {
    assert ctx.Queued(listOf)[i] == Somes(ls)[i];
  }

  method QueuedList(ctx: MergeContext, i: nat, pa: PostingLists, pb: PostingLists, chunk: array<uint32>,
                    ghost la: seq<bytes>, ghost lb: seq<bytes>, ghost ls: seq<bytes>)
      returns (list: bytes)
    requires Holds(pa, la) && Holds(pb, lb) && chunk.Length == OffsetBitmapCachedSize
    requires ctx.Queued(ListOf(la, lb, ctx.offset)) == Somes(ls) && i < |ctx.pending| == |ls|
    modifies chunk
    ensures list == ls[i]
  {
    QueueEntry(ctx, ListOf(la, lb, ctx.offset), ls, i);
    list := ListFor(ctx.pending[i], pa, pb, ctx.offset, chunk, la, lb);
  }

  /** The queued lists at the end of the file, behind the space reserved for their headers. */
  method AssembleLists(ctx: MergeContext, pa: PostingLists, pb: PostingLists, chunk: array<uint32>,
                       ghost la: seq<bytes>, ghost lb: seq<bytes>, ghost ls: seq<bytes>)
      returns (dataSize: nat)
    requires Holds(pa, la) && Holds(pb, lb) && chunk.Length == OffsetBitmapCachedSize
    requires ctx.w.pending == [] && ctx.Queued(ListOf(la, lb, ctx.offset)) == Somes(ls) && |ctx.pending| == |ls|
    modifies ctx.w, ctx.w.file, chunk
    ensures ctx.w.file.data == old(ctx.w.file.data) + ListsImage(ls) && dataSize == |Join(ls, |ls|)|
  {
    ghost var base := ctx.w.file.data;
    var at := Reserve(ctx.w, |ctx.pending|, ls);
    var headers := [];
    ghost var f := 0;
    dataSize := 0;
    for i := 0 to |ctx.pending|
      invariant Tiling(ctx.w, headers, at, dataSize, base, ls, f, i)
    {
      var list := QueuedList(ctx, i, pa, pb, chunk, la, lb, ls);
      headers, at, dataSize,
          f := PutNext(ctx.w, headers, MaxPostingListHeadersBatch(|ctx.pending|), at, dataSize, list, base, ls, f, i);
    }
    Finish(ctx.w, headers, at, dataSize, base, ls, f);
  }

  lemma OverwriteFront(space: bytes, rest: bytes, head: bytes)
    requires |space| == |head|
    ensures Overwrite(space + rest, 0, head) == head + rest
  {
  }

  /** Space for the header, then the documents of both storages. */
  method WriteDocuments(file: File, xs: seq<RawValue>, ys: seq<RawValue>)
    requires file.data == [] && file.pos == 0
    modifies file
    ensures file.data == Zeros(HeaderSize) + Encode(PutRawValue, xs + ys) && file.pos == |file.data|
  {
    var reserved := HeaderSize + DocumentIdSize * (|xs| + |ys|);
    RawValuesBack();
    EncodeLength(PutRawValue, DocumentIdSize, xs);
    EncodeLength(PutRawValue, DocumentIdSize, ys);
    EncodeConcat(PutRawValue, xs, ys);
    WriteReserved(file, Encode(PutRawValue, xs), Encode(PutRawValue, ys), reserved);
  }

  method WriteReserved(file: File, xs: bytes, ys: bytes, reserved: nat)
    requires file.data == [] && file.pos == 0 && reserved == HeaderSize + |xs| + |ys|
    modifies file
    ensures file.data == Zeros(HeaderSize) + (xs + ys) && file.pos == |file.data|
  {
    file.Truncate(reserved);
    file.Seek(HeaderSize);
    if |xs| > 0 {
      file.Write(xs);
    }
    assert file.data == Zeros(HeaderSize) + (xs + Zeros(|ys|));
    if |ys| > 0 {
      file.Write(ys);
    }
    file.Seek(reserved);
  }

  ghost function PlanOf(a: Tables, b: Tables, ratio: Ratio): Plan
    requires |a.documentsIds| < MaxDocuments
  {
    Plan(order => Laid(a, b, order, ratio), (order, pads) => FieldsOf(Laid(a, b, order, ratio), order, pads),
         ListOf(a.postingLists, b.postingLists, |a.documentsIds|))
  }

  ghost predicate Begins(plan: Plan) {
    plan.laid([]).tokenFrequencies == [] && plan.laid([]).postingLists == [] && plan.image([], []) == []
  }

  lemma PlanMade(fa: map<uint64, Field>, fb: map<uint64, Field>, offset: uint32, a: Tables, b: Tables, ratio: Ratio)
    requires Mergeable(a, b, ratio) && fa == a.fields && fb == b.fields && offset == |a.documentsIds|
    ensures Job(fa, fb, offset, a, b, ratio, PlanOf(a, b, ratio)) && Begins(PlanOf(a, b, ratio))
  {
    var plan := PlanOf(a, b, ratio);
    assert plan.laid([]) == Laid(a, b, [], ratio);
  }

  ghost predicate Starting(ctx: MergeContext)
    reads ctx
  {
    ctx.postingListCursor == ctx.frequenciesCursor == ctx.postingListCount == 0 && ctx.pending == []
        && |ctx.buffer| == 8
  }

  lemma OrderedDistinct(fields: FieldsOrder, a: Tables, b: Tables)
    requires Ordered(fields, a, b)
    ensures [] + fields.a == fields.a && Distinct(fields.a) && Distinct(fields.a + fields.b)
    ensures Distinct(fields.a + fields.b + fields.collision)
    ensures (forall i | 0 <= i < |fields.a| :: fields.a[i] in a.fields)
    ensures (forall i | 0 <= i < |fields.b| :: fields.b[i] in b.fields)
    ensures forall i | 0 <= i < |fields.collision| :: fields.collision[i] in a.fields
  {
    EnumeratesConcat(fields.a, fields.b, a.fields.Keys - b.fields.Keys, b.fields.Keys - a.fields.Keys);
    OrderedAll(fields, a, b);
  }

  /** The second pass repeats the order of the first. */
  method SecondPass(ctx: MergeContext, fields: FieldsOrder, fa: map<uint64, Field>, fb: map<uint64, Field>,
                    ratio: Ratio, ghost a: Tables, ghost b: Tables, ghost base: bytes, ghost plan: Plan)
      returns (ghost pads: seq<bytes>)
    requires Job(fa, fb, ctx.offset, a, b, ratio, plan) && Ordered(fields, a, b)
    requires FieldsPassed(ctx, plan, base, [], [])
    modifies ctx`buffer, ctx`postingListCursor, ctx`frequenciesCursor, ctx`pending, ctx.w, ctx.w.file
    ensures FieldsPassed(ctx, plan, base, fields.a + fields.b + fields.collision, pads)
  {
    OrderedDistinct(fields, a, b);
    pads := PassFields(ctx, fields.a, fa, fb, ratio, a, b, base, [], [], plan);
    pads := PassFields(ctx, fields.b, fa, fb, ratio, a, b, base, fields.a, pads, plan);
    pads := PassFields(ctx, fields.collision, fa, fb, ratio, a, b, base, fields.a + fields.b, pads, plan);
  }

  /** Both passes: entries, then fields, in one order; every queued list has been counted by the first pass. */
  method BothPasses(ctx: MergeContext, fa: map<uint64, Field>, qa: seq<TokenFrequencyEntry>, fb: map<uint64, Field>,
                    qb: seq<TokenFrequencyEntry>, ratio: Ratio, ghost a: Tables, ghost b: Tables, ghost plan: Plan)
      returns (count: nat, ghost order: seq<uint64>, ghost pads: seq<bytes>)
    requires Job(fa, fb, ctx.offset, a, b, ratio, plan) && qa == a.tokenFrequencies && qb == b.tokenFrequencies
    requires Starting(ctx) && ctx.w.Appending() && Begins(plan)
    modifies ctx`buffer, ctx`postingListCursor, ctx`frequenciesCursor, ctx`pending, ctx`postingListCount, ctx.w,
        ctx.w.file
    ensures Enumerates(order, a.fields.Keys + b.fields.Keys) && count == |order|
    ensures FieldsPassed(ctx, plan, old(ctx.w.Written()) + Encode(PutFrequency, plan.laid(order).tokenFrequencies),
                         order, pads)
    ensures |ctx.pending| == ctx.postingListCount == ctx.postingListCursor
  {
    var fields := PreparationPass(ctx, fa, qa, fb, qb, a, b, ratio, plan);
    OrderedAll(fields, a, b);
    order := fields.a + fields.b + fields.collision;
    pads := SecondPass(ctx, fields, fa, fb, ratio, a, b, ctx.w.Written(), plan);
    count := |fields.a| + |fields.b| + |fields.collision|;
  }

  /** The header goes in last; its padding is whatever the record had there. */
  method WriteHeaderLast(file: File, h: Header, ghost rest: bytes) returns (ghost p6: bytes, ghost p4: bytes)
    requires file.data == Zeros(HeaderSize) + rest
    modifies file
    ensures |p6| == 6 && |p4| == 4 && file.data == HeaderBytes(h, p6, p4) + rest
  {
    assert |Zeros(6)| == 6 && |Zeros(4)| == 4;
    var six: bytes, four: bytes :| |six| == 6 && |four| == 4;
    p6, p4 := six, four;
    HeaderSizes(h, six, four);
    OverwriteFront(Zeros(HeaderSize), rest, HeaderBytes(h, six, four));
    file.WriteAt(HeaderBytes(h, six, four), 0);
  }

  lemma MergedTables(a: Tables, b: Tables, order: seq<uint64>, ratio: Ratio)
    requires Mergeable(a, b, ratio) && Enumerates(order, a.fields.Keys + b.fields.Keys)
    ensures var m := Laid(a, b, order, ratio);
            && MergeOf(m, a, b, ratio) && LaidOut(m, MergedBlocks(a, b, order, ratio)) && Spread(m)
            && Enumerates(order, m.fields.Keys) && |m.fields| == |order|
  {
    var m := Laid(a, b, order, ratio);
    LaidIsLaidOut(a, b, order, ratio);
    LaidOutMerge(m, a, b, order, ratio);
    LaidOutSpread(m, MergedBlocks(a, b, order, ratio), ratio);
    HashesOfMerged(a, b, order, ratio);
    EnumerationLength(order, m.fields.Keys);
    assert |m.fields| == |m.fields.Keys|;
  }

  /** Everything in front of the posting lists. */
  method WriteUpToLists(file: File, ctx: MergeContext, a: Storage, b: Storage, ratio: Ratio, ghost ta: Tables,
                        ghost tb: Tables, ghost plan: Plan)
      returns (count: nat, ghost order: seq<uint64>, ghost pads: seq<bytes>)
    requires a.Represents(ta) && b.Represents(tb) && Job(a.fields, b.fields, ctx.offset, ta, tb, ratio, plan)
    requires Begins(plan)
    requires ctx.w.file == file && ctx.w.pending == [] && file.data == [] && file.pos == 0 && Starting(ctx)
    modifies ctx, ctx.w, file
    ensures Enumerates(order, ta.fields.Keys + tb.fields.Keys) && count == |order|
    ensures ctx.w.pending == [] && |ctx.pending| == ctx.postingListCount == ctx.postingListCursor
    ensures FieldsPassed(ctx, plan, Zeros(HeaderSize) + Encode(PutRawValue, ta.documentsIds + tb.documentsIds)
                                    + Encode(PutFrequency, plan.laid(order).tokenFrequencies), order, pads)
    ensures file.data == ctx.w.Written()
  {
    WriteDocuments(file, a.documentsIds, b.documentsIds);
    count, order, pads :=
        BothPasses(ctx, a.fields, a.tokenFrequencies, b.fields, b.tokenFrequencies, ratio, ta, tb, plan);
    ctx.w.Flush();
  }

  /** The lists behind everything else, then the header in front of it. */
  method WriteListsAndHeader(file: File, ctx: MergeContext, pa: PostingLists, pb: PostingLists, documents: uint32,
                             count: nat, ghost la: seq<bytes>, ghost lb: seq<bytes>, ghost m: Tables,
                             ghost front: bytes)
      returns (ghost p6: bytes, ghost p4: bytes)
    requires Holds(pa, la) && Holds(pb, lb) && ctx.w.file == file && ctx.w.pending == []
    requires file.data == Zeros(HeaderSize) + front && ctx.Queued(ListOf(la, lb, ctx.offset)) == Somes(m.postingLists)
    requires ctx.postingListCursor == |ctx.pending| == |m.postingLists| && ctx.frequenciesCursor == |m.tokenFrequencies|
    requires documents == |m.documentsIds| && count == |m.fields|
    modifies ctx.w, file
    ensures |p6| == 6 && |p4| == 4
    ensures file.data == HeaderBytes(HeaderOf(m, VersionV1), p6, p4) + (front + ListsImage(m.postingLists))
  {
    var chunk := new uint32[OffsetBitmapCachedSize](_ => 0);
    var dataSize := AssembleLists(ctx, pa, pb, chunk, la, lb, m.postingLists);
    Associative(Zeros(HeaderSize), front, ListsImage(m.postingLists));
    var h := Header(VersionV1, documents, count, ctx.postingListCursor, dataSize, ctx.frequenciesCursor);
    p6, p4 := WriteHeaderLast(file, h, front + ListsImage(m.postingLists));
  }

  lemma FrontGrouped<X>(space: seq<X>, ids: seq<X>, freqs: seq<X>, fields: seq<X>)
    ensures space + ids + freqs + fields == space + (ids + freqs + fields)
  {
  }

  lemma BodyGrouped<X>(ids: seq<X>, freqs: seq<X>, fields: seq<X>, lists: seq<X>)
    ensures ids + freqs + fields + lists == ids + (freqs + (fields + lists))
  {
  }

  /** What was written is an image of the tables that were laid out. */
  lemma ImageAssembled(m: Tables, order: seq<uint64>, pads: seq<bytes>, p6: bytes, p4: bytes)
    requires |m.documentsIds| < MaxDocuments && Enumerates(order, m.fields.Keys)
    requires |pads| == |order| && (forall i | 0 <= i < |pads| :: |pads[i]| == 4) && |p6| == 6 && |p4| == 4
    ensures ShapeOk(m, Shape(VersionV1, order, pads, p6, p4))
    ensures HeaderBytes(HeaderOf(m, VersionV1), p6, p4)
            + (Encode(PutRawValue, m.documentsIds) + Encode(PutFrequency, m.tokenFrequencies)
               + FieldsOf(m, order, pads) + ListsImage(m.postingLists))
            == Image(m, Shape(VersionV1, order, pads, p6, p4))
  {
    BodyGrouped(Encode(PutRawValue, m.documentsIds), Encode(PutFrequency, m.tokenFrequencies), FieldsOf(m, order, pads),
                ListsImage(m.postingLists));
  }

  /** At the end of the passes, in terms of the tables alone. */
  lemma PassesDone(ctx: MergeContext, plan: Plan, base: bytes, order: seq<uint64>, pads: seq<bytes>, m: Tables)
    requires FieldsPassed(ctx, plan, base, order, pads) && plan.laid(order) == m
    requires plan.image(order, pads) == FieldsOf(m, order, pads)
    ensures |pads| == |order| && (forall i | 0 <= i < |pads| :: |pads[i]| == 4)
    ensures ctx.w.Written() == base + FieldsOf(m, order, pads)
    ensures ctx.postingListCursor == |m.postingLists| && ctx.frequenciesCursor == |m.tokenFrequencies|
    ensures ctx.Queued(plan.listOf) == Somes(m.postingLists) && |ctx.pending| == |m.postingLists|
  {
    assert |ctx.Queued(plan.listOf)| == |Somes(m.postingLists)|;
  }

  lemma PlanAt(plan: Plan, a: Tables, b: Tables, order: seq<uint64>, pads: seq<bytes>, ratio: Ratio)
    requires |a.documentsIds| < MaxDocuments && Lays(plan.laid, a, b, ratio) && Draws(plan)
    ensures plan.laid(order) == Laid(a, b, order, ratio)
    ensures plan.image(order, pads) == FieldsOf(Laid(a, b, order, ratio), order, pads)
  {
    assert plan.laid(order) == Laid(a, b, order, ratio);
    assert plan.image(order, pads) == FieldsOf(plan.laid(order), order, pads);
  }

  /** The merged tables and everything of them that stands in front of the lists. */
  method WriteTables(file: File, ctx: MergeContext, a: Storage, b: Storage, ratio: Ratio, ghost ta: Tables,
                     ghost tb: Tables)
      returns (count: nat, ghost m: Tables, ghost order: seq<uint64>, ghost pads: seq<bytes>)
    requires a.Represents(ta) && b.Represents(tb) && Mergeable(ta, tb, ratio)
    requires ctx.w.file == file && ctx.w.pending == [] && file.data == [] && file.pos == 0
    requires ctx.offset == |ta.documentsIds| && Starting(ctx)
    modifies ctx, ctx.w, file
    ensures MergeOf(m, ta, tb, ratio) && Spread(m) && Enumerates(order, m.fields.Keys) && count == |m.fields|
    ensures |pads| == |order| && (forall i | 0 <= i < |pads| :: |pads[i]| == 4)
    ensures file.data
            == Zeros(HeaderSize)
                + (Encode(PutRawValue, m.documentsIds) + Encode(PutFrequency, m.tokenFrequencies)
                   + FieldsOf(m, order, pads))
    ensures ctx.w.pending == [] && ctx.postingListCursor == ctx.postingListCount == |ctx.pending| == |m.postingLists|
    ensures ctx.frequenciesCursor == |m.tokenFrequencies|
    ensures ctx.Queued(ListOf(ta.postingLists, tb.postingLists, ctx.offset)) == Somes(m.postingLists)
  {
    ghost var plan := PlanOf(ta, tb, ratio);
    PlanMade(a.fields, b.fields, ctx.offset, ta, tb, ratio);
    count, order, pads := WriteUpToLists(file, ctx, a, b, ratio, ta, tb, plan);
    MergedTables(ta, tb, order, ratio);
    PlanAt(plan, ta, tb, order, pads, ratio);
    m := Laid(ta, tb, order, ratio);
    ghost var ids, freqs := Encode(PutRawValue, m.documentsIds), Encode(PutFrequency, m.tokenFrequencies);
    PassesDone(ctx, plan, Zeros(HeaderSize) + ids + freqs, order, pads, m);
    FrontGrouped(Zeros(HeaderSize), ids, freqs, FieldsOf(m, order, pads));
  }

  /**
   `Merge`: whatever the order of the fields and the padding, the file is an image of the merged tables, and the
   queue of lists is exactly as long as the first pass counted.
   */
  method Merge(a: Storage, b: Storage, ratio: Ratio, ghost ta: Tables, ghost tb: Tables)
      returns (file: File, context: MergeContext, ghost m: Tables, ghost s: Shape)
    requires a.Represents(ta) && b.Represents(tb) && Mergeable(ta, tb, ratio)
    ensures fresh(file) && MergeOf(m, ta, tb, ratio) && Spread(m)
    ensures s.version == VersionV1 && ShapeOk(m, s) && file.data == Image(m, s)
    ensures context.postingListCursor == context.postingListCount == |context.pending|
  {
    file := new File();
    var w := new Writer(file);
    context := new MergeContext(w, |a.documentsIds|);
    var count;
    ghost var order, pads, p6, p4;
    count, m, order, pads := WriteTables(file, context, a, b, ratio, ta, tb);
    ghost var front := Encode(PutRawValue, m.documentsIds) + Encode(PutFrequency, m.tokenFrequencies)
        + FieldsOf(m, order, pads);
    p6, p4 := WriteListsAndHeader(file, context, a.postingLists, b.postingLists, |a.documentsIds| + |b.documentsIds|,
                                  count,
                                  ta.postingLists, tb.postingLists, m, front);
    s := Shape(VersionV1, order, pads, p6, p4);
    ImageAssembled(m, order, pads, p6, p4);
  }
}
