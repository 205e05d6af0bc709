/** What a search finds, in terms of the documents alone. */
module Answers {
  import opened Bytes
  import opened Headers
  import opened Tables
  import opened Documents
  import opened Build
  import opened Ranges
  import opened Clauses
  import opened Filtering
  import opened QueryContexts
  import opened Searching
  import opened Having
  import opened Keywords
  import opened Words
  import opened Numeric
  import NumericRanges

  /** How a token compares with the bound of a range. */
  ghost predicate Fits(c: NumericRanges.Comparison, v: bytes, bound: bytes) {
    match c
    case Above => Less(bound, v)
    case AtLeast => v == bound || Less(bound, v)
    case Below => Less(v, bound)
    case AtMost => v == bound || Less(v, bound)
  }

  lemma WithinFits(t: Token, c: NumericRanges.Comparison, bound: bytes)
    requires bound != []
    ensures Within(NumericRanges.RangeOf(c, bound))(t) <==> Fits(c, t.Bytes(), bound)
  {
  }

  /** Document `d` has a token of field `h` that fits. */
  ghost predicate HasFitting(docs: seq<Document>, d: uint32, h: uint64, c: NumericRanges.Comparison, bound: bytes) {
    exists v :: Has(docs, d, h, v) && Fits(c, v, bound)
  }

  /** Some token of the field is not below the bound. */
  ghost predicate BoundReached(docs: seq<Document>, h: uint64, bound: bytes) {
    exists v :: Occurs(docs, h, v) && !Less(v, bound)
  }

  ghost predicate FieldOccurs(docs: seq<Document>, h: uint64) {
    exists v :: Occurs(docs, h, v)
  }

  /** What a range says of a token. */
  ghost predicate InRange(r: Range, v: bytes) {
    (r.low == [] || AboveLow(r.low, r.mode, v)) && (r.high == [] || BelowHigh(r.high, r.mode, v))
  }

  lemma KeptInRange(ts: seq<Token>, r: Range, v: bytes)
    ensures Among(Kept(ts, Within(r), |ts|), v) <==> Among(ts, v) && InRange(r, v)
  {
    var kept := Kept(ts, Within(r), |ts|);
    if k: nat :| HasToken(kept, v, k) {
      KeptMembers(ts, Within(r), |ts|, kept[k]);
      assert kept[k] in kept;
      var i: nat :| i < |ts| && ts[i] == kept[k];
      assert HasToken(ts, v, i);
    }
    if i: nat :| HasToken(ts, v, i) && InRange(r, v) {
      KeptMembers(ts, Within(r), |ts|, ts[i]);
      var k: nat :| k < |kept| && kept[k] == ts[i];
      assert HasToken(kept, v, k);
    }
  }

  lemma KeptAmong(ts: seq<Token>, c: NumericRanges.Comparison, bound: bytes, v: bytes)
    requires bound != []
    ensures Among(Kept(ts, Within(NumericRanges.RangeOf(c, bound)), |ts|), v) <==> Among(ts, v) && Fits(c, v, bound)
  {
    KeptInRange(ts, NumericRanges.RangeOf(c, bound), v);
    if i: nat :| HasToken(ts, v, i) {
      WithinFits(ts[i], c, bound);
    }
  }

  lemma KeptFromTable(ts: seq<Token>, keep: Token -> bool)
    ensures forall t | t in Kept(ts, keep, |ts|) :: t in ts
  {
    forall t | t in Kept(ts, keep, |ts|)
      ensures t in ts
    {
      KeptMembers(ts, keep, |ts|, t);
    }
  }

  lemma KeptFits(s: Searcher, docs: seq<Document>, ratio: Ratio, h: uint64, c: NumericRanges.Comparison, bound: bytes,
                 d: uint32)
    requires IndexOf(s.tables, docs, ratio) && h in s.tables.fields && bound != []
    ensures var ts := s.tables.fields[h].tokens;
            s.Posted(Kept(ts, Within(NumericRanges.RangeOf(c, bound)), |ts|), d) <==> HasFitting(docs, d, h, c, bound)
  {
    var ts, keep := s.tables.fields[h].tokens, Within(NumericRanges.RangeOf(c, bound));
    KeptFromTable(ts, keep);
    PostedIsHas(s, docs, ratio, h, Kept(ts, keep, |ts|), d);
    forall v | Has(docs, d, h, v)
      ensures Among(Kept(ts, keep, |ts|), v) <==> Fits(c, v, bound)
    {
      HasIsAmong(s, docs, ratio, h, v, d);
      KeptAmong(ts, c, bound, v);
    }
  }

  ghost function LastOf(ts: seq<Token>): bytes
    requires ts != []
  {
    ts[|ts| - 1].Bytes()
  }

  lemma NotAboveLast(ts: seq<Token>, v: bytes)
    requires Tokens.Sorted(ts) && Among(ts, v)
    ensures ts != [] && !Less(LastOf(ts), v)
  {
    var i: nat :| HasToken(ts, v, i);
    NotBelowFirst(ts, i);
  }

  lemma LastOccurs(s: Searcher, docs: seq<Document>, ratio: Ratio, h: uint64, ts: seq<Token>, last: bytes)
    requires IndexOf(s.tables, docs, ratio) && h in s.tables.fields && ts == s.tables.fields[h].tokens && ts != []
    requires last == LastOf(ts)
    ensures Occurs(docs, h, last)
  {
    assert HasToken(ts, last, |ts| - 1);
    OccursAt(s, docs, ratio, h, |ts| - 1, last);
  }

  lemma ReachedByLast(s: Searcher, docs: seq<Document>, ratio: Ratio, h: uint64, bound: bytes, v: bytes)
    requires IndexOf(s.tables, docs, ratio) && h in s.tables.fields && s.tables.fields[h].tokens != []
    requires Occurs(docs, h, v) && !Less(v, bound)
    ensures !Less(LastOf(s.tables.fields[h].tokens), bound)
  {
    SortedTokens(s, ratio, h);
    OccursIsAmong(s, docs, ratio, h, v);
    NotAboveLast(s.tables.fields[h].tokens, v);
    NotLess(v, LastOf(s.tables.fields[h].tokens), bound);
  }

  /** The largest token decides whether the bound is reached. */
  lemma LargestReaches(s: Searcher, docs: seq<Document>, ratio: Ratio, h: uint64, bound: bytes)
    requires IndexOf(s.tables, docs, ratio) && h in s.tables.fields && s.tables.fields[h].tokens != []
    ensures BoundReached(docs, h, bound) <==> !Less(LastOf(s.tables.fields[h].tokens), bound)
  {
    LastOccurs(s, docs, ratio, h, s.tables.fields[h].tokens, LastOf(s.tables.fields[h].tokens));
    if v :| Occurs(docs, h, v) && !Less(v, bound) {
      ReachedByLast(s, docs, ratio, h, bound, v);
    }
  }

  lemma NotLess(v: bytes, last: bytes, bound: bytes)
    requires !Less(last, v) && !Less(v, bound)
    ensures !Less(last, bound)
  {
    LessTotal(v, last);
    LessTotal(v, bound);
    if Less(last, bound) && v != last && v != bound {
      LessTransitive(bound, v, last);
      LessTotal(bound, last);
    }
  }

  lemma ComparisonResolves(ts: seq<Token>, c: NumericRanges.Comparison, bound: bytes)
    requires Tokens.Sorted(ts) && ts != [] && bound != []
    ensures var r := NumericRanges.RangeOf(c, bound);
            Resolved(ts, r) == if NumericRanges.HasHigh(c) && Less(LastOf(ts), bound) then []
                else Kept(ts, Within(r), |ts|)
  {
    NumericRanges.ComparisonExact(ts, c, bound);
    if NumericRanges.HasHigh(c) && Less(LastOf(ts), bound) {
      NumericRanges.ComparisonOvershoots(ts, c, bound);
    }
  }

  lemma NothingWithoutField(s: Searcher, docs: seq<Document>, ratio: Ratio, h: uint64, c: NumericRanges.Comparison,
                            bound: bytes, d: uint32)
    requires IndexOf(s.tables, docs, ratio) && h !in s.tables.fields
    ensures !HasFitting(docs, d, h, c, bound)
  {
    forall v | Has(docs, d, h, v)
      ensures false
    {
      HasIsAmong(s, docs, ratio, h, v, d);
    }
  }

  /** What a comparison finds in one field, whatever the tokens: the documents that have a fitting one, or nothing. */
  lemma ComparisonFinds(s: Searcher, docs: seq<Document>, ratio: Ratio, h: uint64, c: NumericRanges.Comparison,
                        bound: bytes, d: uint32)
    requires IndexOf(s.tables, docs, ratio) && s.HasTokens(h) && bound != []
    ensures s.Posted(s.RangedTokens(h, NumericRanges.RangeOf(c, bound)), d)
            <==> HasFitting(docs, d, h, c, bound) && (NumericRanges.HasHigh(c) ==> BoundReached(docs, h, bound))
  {
    if h in s.tables.fields {
      SortedTokens(s, ratio, h);
      ComparisonResolves(s.tables.fields[h].tokens, c, bound);
      LargestReaches(s, docs, ratio, h, bound);
      KeptFits(s, docs, ratio, h, c, bound, d);
    } else {
      NothingWithoutField(s, docs, ratio, h, c, bound, d);
    }
  }

  /**
   A comparison finds exactly the documents that have a fitting token, if and only if it has no high bound, or the field
   reaches the bound, or has no token at all.
   */
  lemma ComparisonFindsExactly(s: Searcher, docs: seq<Document>, ratio: Ratio, h: uint64, c: NumericRanges.Comparison,
                               bound: bytes)
    requires IndexOf(s.tables, docs, ratio) && s.HasTokens(h) && bound != []
    ensures (forall d :: s.Posted(s.RangedTokens(h, NumericRanges.RangeOf(c, bound)), d)
                         <==> HasFitting(docs, d, h, c, bound))
            <==> (NumericRanges.HasHigh(c) && FieldOccurs(docs, h) ==> BoundReached(docs, h, bound))
  {
    forall d
      ensures s.Posted(s.RangedTokens(h, NumericRanges.RangeOf(c, bound)), d)
              <==> HasFitting(docs, d, h, c, bound) && (NumericRanges.HasHigh(c) ==> BoundReached(docs, h, bound))
    {
      ComparisonFinds(s, docs, ratio, h, c, bound, d);
    }
    if NumericRanges.HasHigh(c) && FieldOccurs(docs, h) && !BoundReached(docs, h, bound) {
      var v :| Occurs(docs, h, v);
      var d :| Has(docs, d, h, v);
      assert Less(v, bound) && Fits(c, v, bound);
      assert HasFitting(docs, d, h, c, bound);
    }
    if !FieldOccurs(docs, h) {
      forall d
        ensures !HasFitting(docs, d, h, c, bound)
      {
        if v :| Has(docs, d, h, v) && Fits(c, v, bound) {
          assert Occurs(docs, h, v);
        }
      }
    }
  }

  /** Every token that a document has in the field is the encoding of an integer. */
  ghost predicate IntegerField(docs: seq<Document>, h: uint64) {
    forall v | Occurs(docs, h, v) :: exists x :: v == SortableInteger(x)
  }

  ghost predicate HasInteger(docs: seq<Document>, d: uint32, h: uint64, c: NumericRanges.Comparison, bound: Int64) {
    exists x :: Has(docs, d, h, SortableInteger(x)) && NumericRanges.IntegerFits(c, x, bound)
  }

  ghost predicate IntegerReached(docs: seq<Document>, h: uint64, bound: Int64) {
    exists x: Int64 :: Occurs(docs, h, SortableInteger(x)) && x >= bound
  }

  ghost predicate FloatField(docs: seq<Document>, h: uint64) {
    forall v | Occurs(docs, h, v) :: exists x :: v == SortableFloat(x)
  }

  ghost predicate HasFloat(docs: seq<Document>, d: uint32, h: uint64, c: NumericRanges.Comparison, bound: Word) {
    exists x :: Has(docs, d, h, SortableFloat(x)) && NumericRanges.FloatFits(c, x, bound)
  }

  ghost predicate FloatReached(docs: seq<Document>, h: uint64, bound: Word) {
    exists x :: Occurs(docs, h, SortableFloat(x)) && !TotallyBefore(x, bound)
  }

  lemma IntegersFit(x: Int64, c: NumericRanges.Comparison, bound: Int64)
    ensures Fits(c, SortableInteger(x), SortableInteger(bound)) <==> NumericRanges.IntegerFits(c, x, bound)
  {
    IntegerOrder(x, bound);
    IntegerOrder(bound, x);
  }

  lemma FloatsFit(x: Word, c: NumericRanges.Comparison, bound: Word)
    ensures Fits(c, SortableFloat(x), SortableFloat(bound)) <==> NumericRanges.FloatFits(c, x, bound)
  {
    FloatOrder(x, bound);
    FloatOrder(bound, x);
  }

  lemma FittingInteger(docs: seq<Document>, d: uint32, h: uint64, c: NumericRanges.Comparison, bound: Int64)
    requires IntegerField(docs, h)
    ensures HasFitting(docs, d, h, c, SortableInteger(bound)) <==> HasInteger(docs, d, h, c, bound)
  {
    if v :| Has(docs, d, h, v) && Fits(c, v, SortableInteger(bound)) {
      assert Occurs(docs, h, v);
      var x :| v == SortableInteger(x);
      IntegersFit(x, c, bound);
    }
    if x :| Has(docs, d, h, SortableInteger(x)) && NumericRanges.IntegerFits(c, x, bound) {
      IntegersFit(x, c, bound);
    }
  }

  lemma ReachedInteger(docs: seq<Document>, h: uint64, bound: Int64)
    requires IntegerField(docs, h)
    ensures BoundReached(docs, h, SortableInteger(bound)) <==> IntegerReached(docs, h, bound)
  {
    if v :| Occurs(docs, h, v) && !Less(v, SortableInteger(bound)) {
      var x :| v == SortableInteger(x);
      IntegerOrder(x, bound);
    }
    if x: Int64 :| Occurs(docs, h, SortableInteger(x)) && x >= bound {
      IntegerOrder(x, bound);
    }
  }

  lemma FittingFloat(docs: seq<Document>, d: uint32, h: uint64, c: NumericRanges.Comparison, bound: Word)
    requires FloatField(docs, h)
    ensures HasFitting(docs, d, h, c, SortableFloat(bound)) <==> HasFloat(docs, d, h, c, bound)
  {
    if v :| Has(docs, d, h, v) && Fits(c, v, SortableFloat(bound)) {
      assert Occurs(docs, h, v);
      var x :| v == SortableFloat(x);
      FloatsFit(x, c, bound);
    }
    if x :| Has(docs, d, h, SortableFloat(x)) && NumericRanges.FloatFits(c, x, bound) {
      FloatsFit(x, c, bound);
    }
  }

  lemma ReachedFloat(docs: seq<Document>, h: uint64, bound: Word)
    requires FloatField(docs, h)
    ensures BoundReached(docs, h, SortableFloat(bound)) <==> FloatReached(docs, h, bound)
  {
    if v :| Occurs(docs, h, v) && !Less(v, SortableFloat(bound)) {
      var x :| v == SortableFloat(x);
      FloatOrder(x, bound);
    }
    if x :| Occurs(docs, h, SortableFloat(x)) && !TotallyBefore(x, bound) {
      FloatOrder(x, bound);
    }
  }

  const NoClause := Clause([], [], [])

  /** The query for one comparison in one field. */
  function Asking(h: uint64, boost: real, c: NumericRanges.Comparison, bound: bytes): Query {
    Query(NoClause, Clause([], [], [FieldRange(h, boost, NumericRanges.RangeOf(c, bound))]), NoClause)
  }

  lemma AskedFor(s: Searcher, h: uint64, boost: real, c: NumericRanges.Comparison, bound: bytes, d: uint32)
    ensures var q := Asking(h, boost, c, bound);
            Candidate(s, q, d) && !s.Any(q.mustNots, d)
            <==> s.Posted(s.RangedTokens(h, NumericRanges.RangeOf(c, bound)), d)
  {
    var c := Asking(h, boost, c, bound).musts;
    assert c.fieldRanges[0].field == h;
  }

  lemma AskingReady(s: Searcher, h: uint64, boost: real, c: NumericRanges.Comparison, bound: bytes)
    requires s.TablesReady() && s.HasTokens(h)
    ensures QueryReady(s, Asking(h, boost, c, bound))
  {
  }

  /**
   A comparison with an integer returns exactly the documents that have an integer which fits, if and only if it has no
   high bound, or the field has no token, or it has an integer that is not below the bound.
   */
  method FilterByInteger(s: Searcher, ctx: QueryContext, h: uint64, boost: real, c: NumericRanges.Comparison,
                         bound: Int64, ghost docs: seq<Document>, ghost ratio: Ratio)
    requires IndexOf(s.tables, docs, ratio) && IntegerField(docs, h) && s.HasTokens(h) && ctx.bitmap == {}
    modifies ctx`bitmap
    ensures (forall d :: d in ctx.bitmap <==> HasInteger(docs, d, h, c, bound))
            <==> (NumericRanges.HasHigh(c) && FieldOccurs(docs, h) ==> IntegerReached(docs, h, bound))
  {
    TablesAreReady(s, ratio);
    AskingReady(s, h, boost, c, SortableInteger(bound));
    FilterDocuments(s, ctx, Asking(h, boost, c, SortableInteger(bound)));
    forall d
      ensures d in ctx.bitmap <==> s.Posted(s.RangedTokens(h, NumericRanges.RangeOf(c, SortableInteger(bound))), d)
      ensures HasFitting(docs, d, h, c, SortableInteger(bound)) <==> HasInteger(docs, d, h, c, bound)
    {
      AskedFor(s, h, boost, c, SortableInteger(bound), d);
      FittingInteger(docs, d, h, c, bound);
    }
    ComparisonFindsExactly(s, docs, ratio, h, c, SortableInteger(bound));
    ReachedInteger(docs, h, bound);
  }

  /** The same for floats, in their total order. */
  method FilterByFloat(s: Searcher, ctx: QueryContext, h: uint64, boost: real, c: NumericRanges.Comparison, bound: Word,
                       ghost docs: seq<Document>, ghost ratio: Ratio)
    requires IndexOf(s.tables, docs, ratio) && FloatField(docs, h) && s.HasTokens(h) && ctx.bitmap == {}
    modifies ctx`bitmap
    ensures (forall d :: d in ctx.bitmap <==> HasFloat(docs, d, h, c, bound))
            <==> (NumericRanges.HasHigh(c) && FieldOccurs(docs, h) ==> FloatReached(docs, h, bound))
  {
    TablesAreReady(s, ratio);
    AskingReady(s, h, boost, c, SortableFloat(bound));
    FilterDocuments(s, ctx, Asking(h, boost, c, SortableFloat(bound)));
    forall d
      ensures d in ctx.bitmap <==> s.Posted(s.RangedTokens(h, NumericRanges.RangeOf(c, SortableFloat(bound))), d)
      ensures HasFitting(docs, d, h, c, SortableFloat(bound)) <==> HasFloat(docs, d, h, c, bound)
    {
      AskedFor(s, h, boost, c, SortableFloat(bound), d);
      FittingFloat(docs, d, h, c, bound);
    }
    ComparisonFindsExactly(s, docs, ratio, h, c, SortableFloat(bound));
    ReachedFloat(docs, h, bound);
  }

  /** A range that loses no token at an open end and does not overshoot: it resolves to what it says. */
  ghost predicate Faithful(s: Searcher, h: uint64, r: Range) {
    h in s.tables.fields ==>
      var ts := s.tables.fields[h].tokens;
      ts != [] && !LosesFirst(ts, r) && !LosesLast(ts, r) && !Overshoots(ts, r)
  }

  /** Document `d` has a token of field `h` in the range. */
  ghost predicate HasInRange(docs: seq<Document>, d: uint32, h: uint64, r: Range) {
    exists v :: Has(docs, d, h, v) && InRange(r, v)
  }

  lemma RangeHas(s: Searcher, docs: seq<Document>, ratio: Ratio, h: uint64, r: Range, d: uint32)
    requires IndexOf(s.tables, docs, ratio) && Faithful(s, h, r)
    ensures s.Posted(s.RangedTokens(h, r), d) <==> HasInRange(docs, d, h, r)
  {
    if h in s.tables.fields {
      var ts := s.tables.fields[h].tokens;
      SortedTokens(s, ratio, h);
      RangeExact(ts, r);
      RangeKeptHas(s, docs, ratio, h, r, d);
    } else {
      forall v | Has(docs, d, h, v)
        ensures false
      {
        HasIsAmong(s, docs, ratio, h, v, d);
      }
    }
  }

  lemma RangeKeptHas(s: Searcher, docs: seq<Document>, ratio: Ratio, h: uint64, r: Range, d: uint32)
    requires IndexOf(s.tables, docs, ratio) && h in s.tables.fields
    ensures var ts := s.tables.fields[h].tokens; s.Posted(Kept(ts, Within(r), |ts|), d) <==> HasInRange(docs, d, h, r)
  {
    var ts := s.tables.fields[h].tokens;
    KeptFromTable(ts, Within(r));
    PostedIsHas(s, docs, ratio, h, Kept(ts, Within(r), |ts|), d);
    forall v | Has(docs, d, h, v)
      ensures Among(Kept(ts, Within(r), |ts|), v) <==> InRange(r, v)
    {
      HasIsAmong(s, docs, ratio, h, v, d);
      KeptInRange(ts, r, v);
    }
  }

  /** Ranges that resolve to what they say. */
  ghost predicate RangesFaithful(s: Searcher, c: Clause) {
    forall i | 0 <= i < |c.fieldRanges| :: Faithful(s, c.fieldRanges[i].field, c.fieldRanges[i].range)
  }

  /** The document has some keyword of the clause, in its field or in any, or a token in some range. */
  ghost predicate HasAny(docs: seq<Document>, c: Clause, maxK: int, m: int, d: uint32) {
    || (exists i, h :: 0 <= i < |c.keywords| && HasKeyword(docs, d, h, c.keywords[i], maxK, m))
    || (exists i :: 0 <= i < |c.fieldKeywords|
                    && HasKeyword(docs, d, c.fieldKeywords[i].field, c.fieldKeywords[i].keyword, maxK, m))
    || (exists i :: 0 <= i < |c.fieldRanges| && HasInRange(docs, d, c.fieldRanges[i].field, c.fieldRanges[i].range))
  }

  /** Some field has the keyword, and the document has it in every field that does. */
  ghost predicate HasEverywhere(docs: seq<Document>, kw: Keyword, maxK: int, m: int, d: uint32) {
    && (exists h :: Found(docs, h, kw, maxK, m))
    && forall h | Found(docs, h, kw, maxK, m) :: HasKeyword(docs, d, h, kw, maxK, m)
  }

  ghost predicate HasAll(docs: seq<Document>, c: Clause, maxK: int, m: int, d: uint32) {
    && (forall i | 0 <= i < |c.keywords| :: HasEverywhere(docs, c.keywords[i], maxK, m, d))
    && (forall i | 0 <= i < |c.fieldKeywords| ::
        HasKeyword(docs, d, c.fieldKeywords[i].field, c.fieldKeywords[i].keyword, maxK, m))
    && (forall i | 0 <= i < |c.fieldRanges| :: HasInRange(docs, d, c.fieldRanges[i].field, c.fieldRanges[i].range))
  }

  lemma EverywhereIsHas(s: Searcher, docs: seq<Document>, ratio: Ratio, kw: Keyword, d: uint32)
    requires IndexOf(s.tables, docs, ratio)
    ensures s.Everywhere(kw, d) <==> HasEverywhere(docs, kw, s.maxK, s.m, d)
  {
    forall h
      ensures h in s.tables.fields && s.ScopedTokens(h, kw) != [] <==> Found(docs, h, kw, s.maxK, s.m)
      ensures s.Posted(s.ScopedTokens(h, kw), d) <==> HasKeyword(docs, d, h, kw, s.maxK, s.m)
    {
      KeywordIsFound(s, docs, ratio, h, kw);
      KeywordHas(s, docs, ratio, h, kw, d);
    }
  }

  lemma AnyHas(s: Searcher, docs: seq<Document>, ratio: Ratio, c: Clause, d: uint32)
    requires IndexOf(s.tables, docs, ratio) && RangesFaithful(s, c) && s.Any(c, d)
    ensures HasAny(docs, c, s.maxK, s.m, d)
  {
    if i, h :| 0 <= i < |c.keywords| && h in s.tables.fields && s.Posted(s.ScopedTokens(h, c.keywords[i]), d) {
      KeywordHas(s, docs, ratio, h, c.keywords[i], d);
    } else if i :| 0 <= i < |c.fieldKeywords|
                   && s.Posted(s.ScopedTokens(c.fieldKeywords[i].field, c.fieldKeywords[i].keyword), d) {
      KeywordHas(s, docs, ratio, c.fieldKeywords[i].field, c.fieldKeywords[i].keyword, d);
    } else {
      var i :| 0 <= i < |c.fieldRanges|
          && s.Posted(s.RangedTokens(c.fieldRanges[i].field, c.fieldRanges[i].range), d);
      RangeHas(s, docs, ratio, c.fieldRanges[i].field, c.fieldRanges[i].range, d);
    }
  }

  lemma HasIsAny(s: Searcher, docs: seq<Document>, ratio: Ratio, c: Clause, d: uint32)
    requires IndexOf(s.tables, docs, ratio) && RangesFaithful(s, c) && HasAny(docs, c, s.maxK, s.m, d)
    ensures s.Any(c, d)
  {
    if i, h :| 0 <= i < |c.keywords| && HasKeyword(docs, d, h, c.keywords[i], s.maxK, s.m) {
      KeywordHas(s, docs, ratio, h, c.keywords[i], d);
    } else if i :| 0 <= i < |c.fieldKeywords|
                   && HasKeyword(docs, d, c.fieldKeywords[i].field, c.fieldKeywords[i].keyword, s.maxK, s.m) {
      KeywordHas(s, docs, ratio, c.fieldKeywords[i].field, c.fieldKeywords[i].keyword, d);
    } else {
      var i :| 0 <= i < |c.fieldRanges| && HasInRange(docs, d, c.fieldRanges[i].field, c.fieldRanges[i].range);
      RangeHas(s, docs, ratio, c.fieldRanges[i].field, c.fieldRanges[i].range, d);
    }
  }

  /** Some entry of a clause posts a document exactly when the document has one of the things it asks for. */
  lemma AnyIsHas(s: Searcher, docs: seq<Document>, ratio: Ratio, c: Clause, d: uint32)
    requires IndexOf(s.tables, docs, ratio) && RangesFaithful(s, c)
    ensures s.Any(c, d) <==> HasAny(docs, c, s.maxK, s.m, d)
  {
    if s.Any(c, d) {
      AnyHas(s, docs, ratio, c, d);
    }
    if HasAny(docs, c, s.maxK, s.m, d) {
      HasIsAny(s, docs, ratio, c, d);
    }
  }

  /** And all entries do exactly when it has them all. */
  lemma AllIsHas(s: Searcher, docs: seq<Document>, ratio: Ratio, c: Clause, d: uint32)
    requires IndexOf(s.tables, docs, ratio) && RangesFaithful(s, c)
    ensures s.All(c, d) <==> HasAll(docs, c, s.maxK, s.m, d)
  {
    forall i | 0 <= i < |c.keywords|
      ensures s.Everywhere(c.keywords[i], d) <==> HasEverywhere(docs, c.keywords[i], s.maxK, s.m, d)
    {
      EverywhereIsHas(s, docs, ratio, c.keywords[i], d);
    }
    forall i | 0 <= i < |c.fieldKeywords|
      ensures s.Posted(s.ScopedTokens(c.fieldKeywords[i].field, c.fieldKeywords[i].keyword), d)
              <==> HasKeyword(docs, d, c.fieldKeywords[i].field, c.fieldKeywords[i].keyword, s.maxK, s.m)
    {
      KeywordHas(s, docs, ratio, c.fieldKeywords[i].field, c.fieldKeywords[i].keyword, d);
    }
    forall i | 0 <= i < |c.fieldRanges|
      ensures s.Posted(s.RangedTokens(c.fieldRanges[i].field, c.fieldRanges[i].range), d)
              <==> HasInRange(docs, d, c.fieldRanges[i].field, c.fieldRanges[i].range)
    {
      RangeHas(s, docs, ratio, c.fieldRanges[i].field, c.fieldRanges[i].range, d);
    }
  }

  ghost predicate AsksNothing(c: Clause) {
    c.keywords == [] && c.fieldKeywords == [] && c.fieldRanges == []
  }

  /** The documents that a query is about: those that have all musts, or without any must some should; no exclusion. */
  ghost predicate Answers(docs: seq<Document>, q: Query, maxK: int, m: int, d: uint32) {
    && (if AsksNothing(q.musts) then HasAny(docs, q.shoulds, maxK, m, d) else HasAll(docs, q.musts, maxK, m, d))
    && !HasAny(docs, q.mustNots, maxK, m, d)
  }

  /** A query whose ranges resolve to what they say returns exactly the documents it is about. */
  method FilterByDocuments(s: Searcher, ctx: QueryContext, q: Query, ghost docs: seq<Document>, ghost ratio: Ratio)
    requires IndexOf(s.tables, docs, ratio) && QueryReady(s, q) && ctx.bitmap == {}
    requires RangesFaithful(s, q.musts) && RangesFaithful(s, q.shoulds) && RangesFaithful(s, q.mustNots)
    modifies ctx`bitmap
    ensures forall d :: d in ctx.bitmap <==> Answers(docs, q, s.maxK, s.m, d)
  {
    FilterDocuments(s, ctx, q);
    forall d
      ensures Candidate(s, q, d) && !s.Any(q.mustNots, d) <==> Answers(docs, q, s.maxK, s.m, d)
    {
      AllIsHas(s, docs, ratio, q.musts, d);
      AnyIsHas(s, docs, ratio, q.shoulds, d);
      AnyIsHas(s, docs, ratio, q.mustNots, d);
    }
  }
}
