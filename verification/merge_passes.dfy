/** storage/merge.go: the two passes over all fields, and the tables that both lay out. */
module MergePasses {
  import opened Bytes
  import opened Codec
  import opened Collecting
  import opened Headers
  import opened Options
  import opened Parsing
  import opened Records
  import opened Tables
  import opened Blocks
  import opened Totals
  import opened Format
  import opened Files
  import opened Images
  import opened Merged
  import opened MergeSpec
  import opened MergeWalk
  import opened MergeContexts
  import opened MergeFields

  /** Two storages that can be merged. */
  ghost predicate Mergeable(a: Tables, b: Tables, ratio: Ratio) {
    WellFormed(a, ratio) && WellFormed(b, ratio) && |a.documentsIds| + |b.documentsIds| < MaxDocuments
  }

  /** The tables laid out from the fields in `order`. */
  ghost function Laid(a: Tables, b: Tables, order: seq<uint64>, ratio: Ratio): Tables
    requires |a.documentsIds| < MaxDocuments
    decreases |order|
  {
    if order == [] then Tables(a.documentsIds + b.documentsIds, [], map[], [])
    else WithBlock(Laid(a, b, order[..|order| - 1], ratio), MergedBlock(a, b, order[|order| - 1], ratio))
  }

  lemma LaidNext(a: Tables, b: Tables, order: seq<uint64>, h: uint64, ratio: Ratio)
    requires |a.documentsIds| < MaxDocuments
    ensures Laid(a, b, order + [h], ratio) == WithBlock(Laid(a, b, order, ratio), MergedBlock(a, b, h, ratio))
  {
    assert (order + [h])[..|order + [h]| - 1] == order;
  }

  ghost predicate Distinct(order: seq<uint64>) {
    forall i, j | 0 <= i < j < |order| :: order[i] != order[j]
  }

  lemma MergedBlocksNext(a: Tables, b: Tables, order: seq<uint64>, ratio: Ratio)
    requires |a.documentsIds| < MaxDocuments && order != []
    ensures MergedBlocks(a, b, order, ratio)
            == MergedBlocks(a, b, order[..|order| - 1], ratio) + [MergedBlock(a, b, order[|order| - 1], ratio)]
  {
  }

  lemma HashesIn(a: Tables, b: Tables, order: seq<uint64>, ratio: Ratio, h: uint64)
    requires |a.documentsIds| < MaxDocuments && h in Hashes(MergedBlocks(a, b, order, ratio))
    ensures h in order
  {
  }

  /** Both passes lay out the same thing: the merged blocks in the order of the fields. */
  lemma {:induction false} LaidIsLaidOut(a: Tables, b: Tables, order: seq<uint64>, ratio: Ratio)
    requires |a.documentsIds| < MaxDocuments && Distinct(order)
    ensures LaidOut(Laid(a, b, order, ratio), MergedBlocks(a, b, order, ratio))
    ensures Laid(a, b, order, ratio).documentsIds == a.documentsIds + b.documentsIds
    decreases |order|
  {
    if order != [] {
      var n := |order| - 1;
      var init, h := order[..n], order[n];
      LaidIsLaidOut(a, b, init, ratio);
      MergedBlocksNext(a, b, order, ratio);
      if h in Hashes(MergedBlocks(a, b, init, ratio)) {
        HashesIn(a, b, init, ratio, h);
        assert false;
      }
      LaidOutSnoc(Laid(a, b, init, ratio), MergedBlocks(a, b, init, ratio), MergedBlock(a, b, h, ratio));
    }
  }

  ghost function BehindOf(t: Tables, h: uint64): Behind {
    Behind(SideRows(t, h), t.tokenFrequencies, t.postingLists)
  }

  /** In a well-formed storage every token stands for a row. */
  lemma FieldStands(t: Tables, h: uint64, ratio: Ratio)
    requires WellFormed(t, ratio) && h in t.fields
    ensures Stands(BehindOf(t, h), t.fields[h].tokens) && SideOf(t, h) == Sided(t.fields[h], BehindOf(t, h))
  {
    var ts, rows := t.fields[h].tokens, SideRows(t, h);
    assert FieldOk(t, t.fields[h], ratio);
    forall i | 0 <= i < |ts|
      ensures TokenReads(rows[i], ts[i], t.tokenFrequencies) && ListRead(rows[i], ts[i], t.postingLists)
    {
      assert TokenOk(t, ts[i]);
    }
  }

  /** What a merge is to produce, as functions of the order of the fields: their definitions stay out of the loops. */
  datatype Plan = Plan(laid: seq<uint64> -> Tables, image: (seq<uint64>, seq<bytes>) -> bytes,
                       listOf: Pending -> Option<bytes>)

  ghost predicate Lays(laid: seq<uint64> -> Tables, a: Tables, b: Tables, ratio: Ratio)
    requires |a.documentsIds| < MaxDocuments
  {
    forall order {:trigger Laid(a, b, order, ratio)} :: laid(order) == Laid(a, b, order, ratio)
  }

  ghost function FieldsOf(t: Tables, order: seq<uint64>, pads: seq<bytes>): bytes {
    Collect(|order|, FieldAt(t.fields, order, pads))
  }

  ghost predicate Draws(plan: Plan) {
    forall order, pads {:trigger FieldsOf(plan.laid(order), order, pads)} ::
        plan.image(order, pads) == FieldsOf(plan.laid(order), order, pads)
  }

  /** The two inputs of a merge, as the code reads them, and what is to be laid out from them. */
  ghost predicate Job(fa: map<uint64, Field>, fb: map<uint64, Field>, offset: uint32, a: Tables, b: Tables,
                      ratio: Ratio, plan: Plan) {
    && Mergeable(a, b, ratio) && fa == a.fields && fb == b.fields && offset == |a.documentsIds|
    && Lays(plan.laid, a, b, ratio) && Draws(plan) && plan.listOf == ListOf(a.postingLists, b.postingLists, offset)
  }

  /** After the first pass over the fields in `order`. */
  ghost predicate Prepared(ctx: MergeContext, plan: Plan, base: bytes, order: seq<uint64>)
    reads ctx, ctx.w, ctx.w.file
  {
    && ctx.w.Appending()
    && ctx.w.Written() == base + Encode(PutFrequency, plan.laid(order).tokenFrequencies)
    && ctx.postingListCount == |plan.laid(order).postingLists|
  }

  /** One more field is one more block. */
  lemma LaidStep(laid: seq<uint64> -> Tables, a: Tables, b: Tables, order: seq<uint64>, h: uint64, ratio: Ratio)
    requires |a.documentsIds| < MaxDocuments && Lays(laid, a, b, ratio)
    ensures laid(order + [h]) == WithBlock(laid(order), MergedBlock(a, b, h, ratio))
  {
    LaidNext(a, b, order, h, ratio);
    assert laid(order) == Laid(a, b, order, ratio) && laid(order + [h]) == Laid(a, b, order + [h], ratio);
  }

  lemma PreparedNext(t: Tables, b: Block, base: bytes)
    ensures base + Encode(PutFrequency, t.tokenFrequencies) + Encode(PutFrequency, Flatten(b.rows, |b.rows|))
            == base + Encode(PutFrequency, WithBlock(t, b).tokenFrequencies)
    ensures |WithBlock(t, b).postingLists| == |t.postingLists| + |b.rows|
  {
    EncodeConcat(PutFrequency, t.tokenFrequencies, Flatten(b.rows, |b.rows|));
    Associative(base, Encode(PutFrequency, t.tokenFrequencies), Encode(PutFrequency, Flatten(b.rows, |b.rows|)));
  }

  /** First pass over one field, wherever it is. */
  method FieldEntries(w: Writer, offset: uint32, h: uint64, fa: map<uint64, Field>, qa: seq<TokenFrequencyEntry>,
                      fb: map<uint64, Field>, qb: seq<TokenFrequencyEntry>, ghost a: Tables, ghost b: Tables,
                      ghost ratio: Ratio)
      returns (count: nat)
    requires Mergeable(a, b, ratio) && fa == a.fields && fb == b.fields && qa == a.tokenFrequencies
    requires qb == b.tokenFrequencies
    requires (h in fa || h in fb) && w.Appending()
    modifies w, w.file
    ensures w.Appending() && count == |MergeRows(SideRows(a, h), SideRows(b, h), offset)|
    ensures w.Written()
            == old(w.Written())
                + Encode(PutFrequency, Flatten(MergeRows(SideRows(a, h), SideRows(b, h), offset), count))
  {
    if h in fa && h in fb {
      FieldStands(a, h, ratio);
      FieldStands(b, h, ratio);
      count := PrepareCollision(w, fa[h].tokens, fb[h].tokens, qa, qb, offset, SideRows(a, h), SideRows(b, h));
    } else if h in fa {
      FieldStands(a, h, ratio);
      count := PrepareLeft(w, fa[h].tokens, qa, offset, SideRows(a, h));
    } else {
      FieldStands(b, h, ratio);
      count := PrepareRight(w, fb[h].tokens, qb, offset, SideRows(b, h));
    }
  }

  method PrepareField(ctx: MergeContext, h: uint64, fa: map<uint64, Field>, qa: seq<TokenFrequencyEntry>,
                      fb: map<uint64, Field>, qb: seq<TokenFrequencyEntry>, ghost a: Tables, ghost b: Tables,
                      ghost base: bytes, ghost order: seq<uint64>, ghost ratio: Ratio, ghost plan: Plan)
    requires Job(fa, fb, ctx.offset, a, b, ratio, plan) && qa == a.tokenFrequencies && qb == b.tokenFrequencies
    requires (h in fa || h in fb) && Prepared(ctx, plan, base, order)
    modifies ctx`postingListCount, ctx.w, ctx.w.file
    ensures Prepared(ctx, plan, base, order + [h])
  {
    LaidStep(plan.laid, a, b, order, h, ratio);
    PreparedNext(plan.laid(order), MergedBlock(a, b, h, ratio), base);
    var count := FieldEntries(ctx.w, ctx.offset, h, fa, qa, fb, qb, a, b, ratio);
    ctx.postingListCount := ctx.postingListCount + count;
  }

  /** The order in which the first pass met the fields, which the second repeats. */
  datatype FieldsOrder = FieldsOrder(a: seq<uint64>, b: seq<uint64>, collision: seq<uint64>)

  /** `preparationPass`: the fields of the first storage alone, of the second alone, and then those of both. */
  method PreparationPass(ctx: MergeContext, fa: map<uint64, Field>, qa: seq<TokenFrequencyEntry>,
                         fb: map<uint64, Field>, qb: seq<TokenFrequencyEntry>, ghost a: Tables, ghost b: Tables,
                         ghost ratio: Ratio, ghost plan: Plan)
      returns (order: FieldsOrder)
    requires Job(fa, fb, ctx.offset, a, b, ratio, plan) && qa == a.tokenFrequencies && qb == b.tokenFrequencies
    requires Prepared(ctx, plan, ctx.w.Written(), [])
    modifies ctx`postingListCount, ctx.w, ctx.w.file
    ensures Prepared(ctx, plan, old(ctx.w.Written()), order.a + order.b + order.collision)
    ensures Ordered(order, a, b)
  {
    ghost var base := ctx.w.Written();
    var onlyA, collision := PrepareFieldsOfA(ctx, fa, qa, fb, qb, a, b, base, ratio, plan);
    var onlyB := PrepareFieldsOfB(ctx, fa, qa, fb, qb, a, b, base, onlyA, ratio, plan);
    order := FieldsOrder(onlyA, onlyB, collision);
    PrepareCollisions(ctx, collision, fa, qa, fb, qb, a, b, base, onlyA + onlyB, ratio, plan);
  }

  method PrepareCollisions(ctx: MergeContext, hs: seq<uint64>, fa: map<uint64, Field>, qa: seq<TokenFrequencyEntry>,
                           fb: map<uint64, Field>, qb: seq<TokenFrequencyEntry>, ghost a: Tables, ghost b: Tables,
                           ghost base: bytes, ghost before: seq<uint64>, ghost ratio: Ratio, ghost plan: Plan)
    requires Job(fa, fb, ctx.offset, a, b, ratio, plan) && qa == a.tokenFrequencies && qb == b.tokenFrequencies
    requires (forall i | 0 <= i < |hs| :: hs[i] in fa) && Prepared(ctx, plan, base, before)
    modifies ctx`postingListCount, ctx.w, ctx.w.file
    ensures Prepared(ctx, plan, base, before + hs)
  {
    ghost var order := before;
    for i := 0 to |hs|
      invariant order == before + hs[..i] && Prepared(ctx, plan, base, order)
    {
      PrepareField(ctx, hs[i], fa, qa, fb, qb, a, b, base, order, ratio, plan);
      order := order + [hs[i]];
    }
    OrderWhole(before, hs);
  }

  ghost predicate Ordered(order: FieldsOrder, a: Tables, b: Tables) {
    && Enumerates(order.a, a.fields.Keys - b.fields.Keys)
    && Enumerates(order.b, b.fields.Keys - a.fields.Keys)
    && Enumerates(order.collision, a.fields.Keys * b.fields.Keys)
  }

  lemma OrderedAll(order: FieldsOrder, a: Tables, b: Tables)
    requires Ordered(order, a, b)
    ensures Enumerates(order.a + order.b + order.collision, a.fields.Keys + b.fields.Keys)
  {
    var onlyA, onlyB, both := a.fields.Keys - b.fields.Keys, b.fields.Keys - a.fields.Keys,
        a.fields.Keys * b.fields.Keys;
    EnumeratesConcat(order.a, order.b, onlyA, onlyB);
    EnumeratesConcat(order.a + order.b, order.collision, onlyA + onlyB, both);
    assert onlyA + onlyB + both == a.fields.Keys + b.fields.Keys;
  }

  /** The fields met in the first storage so far. */
  ghost predicate Met(onlyA: seq<uint64>, collision: seq<uint64>, ka: set<uint64>, kb: set<uint64>, left: set<uint64>) {
    left <= ka && Enumerates(onlyA, ka - kb - left) && Enumerates(collision, ka * kb - left)
  }

  lemma MetNext(onlyA: seq<uint64>, collision: seq<uint64>, ka: set<uint64>, kb: set<uint64>, left: set<uint64>,
                h: uint64)
    requires Met(onlyA, collision, ka, kb, left) && h in left
    ensures h in kb ==> Met(onlyA, collision + [h], ka, kb, left - {h})
    ensures h !in kb ==> Met(onlyA + [h], collision, ka, kb, left - {h})
  {
    if h in kb {
      EnumeratesSnoc(collision, ka * kb - left, h);
      assert ka * kb - left + {h} == ka * kb - (left - {h}) && ka - kb - left == ka - kb - (left - {h});
    } else {
      EnumeratesSnoc(onlyA, ka - kb - left, h);
      assert ka - kb - left + {h} == ka - kb - (left - {h}) && ka * kb - left == ka * kb - (left - {h});
    }
  }

  lemma MetAll(onlyA: seq<uint64>, collision: seq<uint64>, ka: set<uint64>, kb: set<uint64>)
    requires Met(onlyA, collision, ka, kb, {})
    ensures Enumerates(onlyA, ka - kb) && Enumerates(collision, ka * kb)
  {
    assert ka - kb - {} == ka - kb && ka * kb - {} == ka * kb;
  }

  method PrepareFieldsOfA(ctx: MergeContext, fa: map<uint64, Field>, qa: seq<TokenFrequencyEntry>,
                          fb: map<uint64, Field>, qb: seq<TokenFrequencyEntry>, ghost a: Tables, ghost b: Tables,
                          ghost base: bytes, ghost ratio: Ratio, ghost plan: Plan)
      returns (onlyA: seq<uint64>, collision: seq<uint64>)
    requires Job(fa, fb, ctx.offset, a, b, ratio, plan) && qa == a.tokenFrequencies && qb == b.tokenFrequencies
    requires Prepared(ctx, plan, base, [])
    modifies ctx`postingListCount, ctx.w, ctx.w.file
    ensures Prepared(ctx, plan, base, onlyA)
    ensures Enumerates(onlyA, a.fields.Keys - b.fields.Keys) && Enumerates(collision, a.fields.Keys * b.fields.Keys)
  {
    onlyA, collision := [], [];
    var left := fa.Keys;
    while left != {}
      invariant Met(onlyA, collision, fa.Keys, fb.Keys, left) && Prepared(ctx, plan, base, onlyA)
      decreases |left|
    {
      var h :| h in left;
      MetNext(onlyA, collision, fa.Keys, fb.Keys, left, h);
      if h in fb {
        collision := collision + [h];
      } else {
        PrepareField(ctx, h, fa, qa, fb, qb, a, b, base, onlyA, ratio, plan);
        onlyA := onlyA + [h];
      }
      left := left - {h};
    }
    MetAll(onlyA, collision, fa.Keys, fb.Keys);
  }

  method PrepareFieldsOfB(ctx: MergeContext, fa: map<uint64, Field>, qa: seq<TokenFrequencyEntry>,
                          fb: map<uint64, Field>, qb: seq<TokenFrequencyEntry>, ghost a: Tables, ghost b: Tables,
                          ghost base: bytes, ghost before: seq<uint64>, ghost ratio: Ratio, ghost plan: Plan)
      returns (onlyB: seq<uint64>)
    requires Job(fa, fb, ctx.offset, a, b, ratio, plan) && qa == a.tokenFrequencies && qb == b.tokenFrequencies
    requires Prepared(ctx, plan, base, before)
    modifies ctx`postingListCount, ctx.w, ctx.w.file
    ensures Prepared(ctx, plan, base, before + onlyB)
    ensures Enumerates(onlyB, b.fields.Keys - a.fields.Keys)
  {
    onlyB := [];
    var left := fb.Keys;
    assert before + onlyB == before;
    while left != {}
      invariant MetAlone(onlyB, fb.Keys, fa.Keys, left) && Prepared(ctx, plan, base, before + onlyB)
      decreases |left|
    {
      var h :| h in left;
      MetAloneNext(onlyB, fb.Keys, fa.Keys, left, h);
      onlyB := MeetInB(ctx, h, onlyB, fa, qa, fb, qb, a, b, base, before, ratio, plan);
      left := left - {h};
    }
    assert fb.Keys - fa.Keys - {} == fb.Keys - fa.Keys;
  }

  method MeetInB(ctx: MergeContext, h: uint64, onlyB: seq<uint64>, fa: map<uint64, Field>, qa: seq<TokenFrequencyEntry>,
                 fb: map<uint64, Field>, qb: seq<TokenFrequencyEntry>, ghost a: Tables, ghost b: Tables,
                 ghost base: bytes, ghost before: seq<uint64>, ghost ratio: Ratio, ghost plan: Plan)
      returns (onlyB': seq<uint64>)
    requires Job(fa, fb, ctx.offset, a, b, ratio, plan) && qa == a.tokenFrequencies && qb == b.tokenFrequencies
    requires h in fb && Prepared(ctx, plan, base, before + onlyB)
    modifies ctx`postingListCount, ctx.w, ctx.w.file
    ensures Prepared(ctx, plan, base, before + onlyB') && onlyB' == if h in fa then onlyB else onlyB + [h]
  {
    onlyB' := onlyB;
    if h !in fa {
      PrepareField(ctx, h, fa, qa, fb, qb, a, b, base, before + onlyB, ratio, plan);
      onlyB' := onlyB + [h];
      assert before + onlyB + [h] == before + onlyB';
    }
  }

  ghost predicate MetAlone(only: seq<uint64>, ka: set<uint64>, kb: set<uint64>, left: set<uint64>) {
    left <= ka && Enumerates(only, ka - kb - left)
  }

  lemma MetAloneNext(only: seq<uint64>, ka: set<uint64>, kb: set<uint64>, left: set<uint64>, h: uint64)
    requires MetAlone(only, ka, kb, left) && h in left
    ensures MetAlone(if h in kb then only else only + [h], ka, kb, left - {h})
  {
    if h in kb {
      assert ka - kb - left == ka - kb - (left - {h});
    } else {
      EnumeratesSnoc(only, ka - kb - left, h);
      assert ka - kb - left + {h} == ka - kb - (left - {h});
    }
  }

  /** After the second pass over the fields in `order`: what is written, where the cursors stand, and what is queued. */
  ghost predicate FieldsPassed(ctx: MergeContext, plan: Plan, base: bytes, order: seq<uint64>, pads: seq<bytes>)
    reads ctx, ctx.w, ctx.w.file
  {
    && ctx.w.Appending() && |ctx.buffer| == 8
    && |pads| == |order| && (forall i | 0 <= i < |pads| :: |pads[i]| == 4)
    && Keeps(ctx, plan.laid(order), base, plan.image(order, pads), plan.listOf)
  }

  ghost predicate Keeps(ctx: MergeContext, t: Tables, base: bytes, image: bytes, listOf: Pending -> Option<bytes>)
    reads ctx, ctx.w, ctx.w.file
  {
    && ctx.w.Written() == base + image
    && ctx.postingListCursor == |t.postingLists| && ctx.frequenciesCursor == |t.tokenFrequencies|
    && ctx.Queued(listOf) == Somes(t.postingLists)
  }

  lemma FieldAdded(t: Tables, order: seq<uint64>, pads: seq<bytes>, b: Block, p4: bytes, base: bytes)
    requires |pads| == |order| && forall k | 0 <= k < |order| :: order[k] != b.hash
    ensures base + FieldsOf(t, order, pads) + FieldImage(b.hash, FieldOf(b, |t.postingLists|, |t.tokenFrequencies|), p4)
            == base + FieldsOf(WithBlock(t, b), order + [b.hash], pads + [p4])
  {
    var f := FieldOf(b, |t.postingLists|, |t.tokenFrequencies|);
    PiecesKept(FieldImage, t.fields, order, pads, b.hash, f);
    PieceAppended(FieldImage, WithBlock(t, b).fields, order, pads, b.hash, p4);
    Associative(base, FieldsOf(t, order, pads), FieldImage(b.hash, f, p4));
  }

  lemma SomesAppend(xs: seq<bytes>, ys: seq<bytes>)
    ensures Somes(xs + ys) == Somes(xs) + Somes(ys)
  {
  }

  lemma KeepsNext(ctx: MergeContext, t: Tables, base: bytes, order: seq<uint64>, pads: seq<bytes>, b: Block, p4: bytes,
                  listOf: Pending -> Option<bytes>)
    requires |pads| == |order| && forall k | 0 <= k < |order| :: order[k] != b.hash
    requires FieldWritten(ctx, b, p4, base + FieldsOf(t, order, pads), |t.postingLists|, |t.tokenFrequencies|, listOf,
                          Somes(t.postingLists))
    ensures Keeps(ctx, WithBlock(t, b), base, FieldsOf(WithBlock(t, b), order + [b.hash], pads + [p4]), listOf)
  {
    FieldAdded(t, order, pads, b, p4, base);
    SomesAppend(t.postingLists, Lists(b.rows));
  }

  /** Second pass over one field, wherever it is. */
  method WriteMergedField(ctx: MergeContext, h: uint64, fa: map<uint64, Field>, fb: map<uint64, Field>, ratio: Ratio,
                          ghost a: Tables, ghost b: Tables)
      returns (ghost p4: bytes)
    requires Mergeable(a, b, ratio) && fa == a.fields && fb == b.fields && (h in fa || h in fb)
    requires ctx.w.Appending() && |ctx.buffer| == 8 && ctx.offset == |a.documentsIds|
    modifies ctx`buffer, ctx`postingListCursor, ctx`frequenciesCursor, ctx`pending, ctx.w, ctx.w.file
    ensures FieldWritten(ctx, MergedBlock(a, b, h, ratio), p4, old(ctx.w.Written()), old(ctx.postingListCursor),
                         old(ctx.frequenciesCursor),
                         ListOf(a.postingLists, b.postingLists, ctx.offset),
                             old(ctx.Queued(ListOf(a.postingLists, b.postingLists, ctx.offset))))
  {
    if h in fa && h in fb {
      FieldStands(a, h, ratio);
      FieldStands(b, h, ratio);
      p4 := WriteCollisionField(ctx, h, fa[h], fb[h], ratio, BehindOf(a, h), BehindOf(b, h));
    } else if h in fa {
      FieldStands(a, h, ratio);
      p4 := WriteLeftField(ctx, h, fa[h], ratio, BehindOf(a, h), BehindOf(b, h));
    } else {
      FieldStands(b, h, ratio);
      p4 := WriteRightField(ctx, h, fb[h], ratio, BehindOf(a, h), BehindOf(b, h));
    }
  }

  method PassField(ctx: MergeContext, h: uint64, fa: map<uint64, Field>, fb: map<uint64, Field>, ratio: Ratio,
                   ghost a: Tables, ghost b: Tables, ghost base: bytes, ghost order: seq<uint64>,
                   ghost pads: seq<bytes>, ghost plan: Plan)
      returns (ghost p4: bytes)
    requires Job(fa, fb, ctx.offset, a, b, ratio, plan) && FieldsPassed(ctx, plan, base, order, pads)
    requires (h in fa || h in fb) && forall k | 0 <= k < |order| :: order[k] != h
    modifies ctx`buffer, ctx`postingListCursor, ctx`frequenciesCursor, ctx`pending, ctx.w, ctx.w.file
    ensures FieldsPassed(ctx, plan, base, order + [h], pads + [p4])
  {
    ghost var t, block := plan.laid(order), MergedBlock(a, b, h, ratio);
    PlanNext(plan, a, b, order, pads, h, ratio);
    p4 := WriteMergedField(ctx, h, fa, fb, ratio, a, b);
    PassedNext(ctx, plan, t, base, order, pads, block, p4);
  }

  /** How a plan grows by one field. */
  lemma PlanNext(plan: Plan, a: Tables, b: Tables, order: seq<uint64>, pads: seq<bytes>, h: uint64, ratio: Ratio)
    requires |a.documentsIds| < MaxDocuments && Lays(plan.laid, a, b, ratio) && Draws(plan)
    ensures plan.laid(order + [h]) == WithBlock(plan.laid(order), MergedBlock(a, b, h, ratio))
    ensures plan.image(order, pads) == FieldsOf(plan.laid(order), order, pads)
  {
    LaidStep(plan.laid, a, b, order, h, ratio);
    assert plan.image(order, pads) == FieldsOf(plan.laid(order), order, pads);
  }

  lemma PassedNext(ctx: MergeContext, plan: Plan, t: Tables, base: bytes, order: seq<uint64>, pads: seq<bytes>,
                   block: Block, p4: bytes)
    requires Draws(plan) && |pads| == |order| && forall k | 0 <= k < |order| :: order[k] != block.hash
    requires forall i | 0 <= i < |pads| :: |pads[i]| == 4
    requires plan.laid(order + [block.hash]) == WithBlock(t, block)
    requires plan.image(order, pads) == FieldsOf(t, order, pads)
    requires FieldWritten(ctx, block, p4, base + plan.image(order, pads), |t.postingLists|, |t.tokenFrequencies|,
                          plan.listOf,
                          Somes(t.postingLists))
    ensures FieldsPassed(ctx, plan, base, order + [block.hash], pads + [p4])
  {
    KeepsNext(ctx, t, base, order, pads, block, p4, plan.listOf);
    var order', pads' := order + [block.hash], pads + [p4];
    assert plan.image(order', pads') == FieldsOf(plan.laid(order'), order', pads');
  }

  /** The fields of one of the three orders, behind those that are already written. */
  method PassFields(ctx: MergeContext, hs: seq<uint64>, fa: map<uint64, Field>, fb: map<uint64, Field>, ratio: Ratio,
                    ghost a: Tables, ghost b: Tables, ghost base: bytes, ghost before: seq<uint64>,
                    ghost pads0: seq<bytes>, ghost plan: Plan)
      returns (ghost pads: seq<bytes>)
    requires Job(fa, fb, ctx.offset, a, b, ratio, plan) && FieldsPassed(ctx, plan, base, before, pads0)
    requires Distinct(before + hs) && forall i | 0 <= i < |hs| :: hs[i] in fa || hs[i] in fb
    modifies ctx`buffer, ctx`postingListCursor, ctx`frequenciesCursor, ctx`pending, ctx.w, ctx.w.file
    ensures FieldsPassed(ctx, plan, base, before + hs, pads)
  {
    pads := pads0;
    ghost var order := before;
    for i := 0 to |hs|
      invariant order == before + hs[..i] && FieldsPassed(ctx, plan, base, order, pads)
    {
      NotBefore(before, hs, i);
      OrderGrows(before, hs, i);
      ghost var p4 := PassField(ctx, hs[i], fa, fb, ratio, a, b, base, order, pads, plan);
      pads, order := pads + [p4], order + [hs[i]];
    }
    OrderWhole(before, hs);
  }

  lemma OrderGrows(before: seq<uint64>, hs: seq<uint64>, i: nat)
    requires i < |hs|
    ensures before + hs[..i] + [hs[i]] == before + hs[..i + 1]
  {
  }

  lemma OrderWhole(before: seq<uint64>, hs: seq<uint64>)
    ensures before + hs[..|hs|] == before + hs
  {
    assert hs[..|hs|] == hs;
  }

  lemma NotBefore(before: seq<uint64>, hs: seq<uint64>, i: nat)
    requires Distinct(before + hs) && i < |hs|
    ensures forall k | 0 <= k < |before + hs[..i]| :: (before + hs[..i])[k] != hs[i]
  {
    forall k | 0 <= k < |before + hs[..i]|
      ensures (before + hs[..i])[k] != hs[i]
    {
      assert (before + hs[..i])[k] == (before + hs)[k] && hs[i] == (before + hs)[|before| + i];
    }
  }
}
