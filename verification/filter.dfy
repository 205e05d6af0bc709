/** query/searcher_filter.go: which documents a query keeps. */
module Filtering {
  import opened Collecting
  import opened Headers
  import opened Options
  import opened Bitmaps
  import opened Totals
  import opened Clauses
  import opened QueryContexts

  datatype Query = Query(shoulds: Clause, musts: Clause, mustNots: Clause)

  ghost function Posts(s: Searcher, d: uint32): ClauseState -> bool {
    (x: ClauseState) => s.Posted(x.tokens, d)
  }

  lemma KeywordPieces(s: Searcher, kw: Keyword, order: seq<uint64>, d: uint32, i: nat)
    requires i < |order|
    ensures SomeOf(s.KeywordAt(kw, order)(i), Posts(s, d)) <==> s.Posted(s.ScopedTokens(order[i], kw), d)
    ensures EachOf(s.KeywordAt(kw, order)(i), Posts(s, d))
            <==> s.ScopedTokens(order[i], kw) == [] || s.Posted(s.ScopedTokens(order[i], kw), d)
  {
    var piece := s.KeywordAt(kw, order)(i);
    if piece != [] {
      assert Posts(s, d)(piece[0]) <==> s.Posted(s.ScopedTokens(order[i], kw), d);
    }
  }

  lemma NoTokens(s: Searcher, boost: real, field: Option<uint64>, d: uint32)
    ensures !SomeOf([ClauseState(boost, field, [])], Posts(s, d))
    ensures !EachOf([ClauseState(boost, field, [])], Posts(s, d))
  {
    assert !Posts(s, d)([ClauseState(boost, field, [])][0]);
  }

  lemma KeywordSome(s: Searcher, kw: Keyword, order: seq<uint64>, cond: bool, d: uint32)
    requires Enumerates(order, s.tables.fields.Keys)
    ensures SomeOf(s.KeywordStates(kw, order, cond), Posts(s, d))
            <==> exists h :: h in s.tables.fields && s.Posted(s.ScopedTokens(h, kw), d)
  {
    CollectSome(|order|, s.KeywordAt(kw, order), Posts(s, d));
    NoTokens(s, kw.boost, None, d);
    forall i: nat | i < |order|
      ensures SomeOf(s.KeywordAt(kw, order)(i), Posts(s, d)) <==> s.Posted(s.ScopedTokens(order[i], kw), d)
    {
      KeywordPieces(s, kw, order, d, i);
    }
    if h :| h in s.tables.fields && s.Posted(s.ScopedTokens(h, kw), d) {
      var i: nat :| i < |order| && order[i] == h;
      assert SomeOf(s.KeywordAt(kw, order)(i), Posts(s, d));
    }
  }

  lemma KeywordEach(s: Searcher, kw: Keyword, order: seq<uint64>, d: uint32)
    requires Enumerates(order, s.tables.fields.Keys)
    ensures EachOf(s.KeywordStates(kw, order, true), Posts(s, d)) <==> s.Everywhere(kw, d)
  {
    var f := s.KeywordAt(kw, order);
    CollectEach(|order|, f, Posts(s, d));
    NoTokens(s, kw.boost, None, d);
    forall i: nat | i < |order|
      ensures EachOf(f(i), Posts(s, d))
              <==> s.ScopedTokens(order[i], kw) == [] || s.Posted(s.ScopedTokens(order[i], kw), d)
    {
      KeywordPieces(s, kw, order, d, i);
    }
    KeywordFound(s, kw, order);
    EachField(s, kw, order, d);
  }

  /** The empty state stands in exactly when no field has the keyword. */
  lemma KeywordFound(s: Searcher, kw: Keyword, order: seq<uint64>)
    requires Enumerates(order, s.tables.fields.Keys)
    ensures Collect(|order|, s.KeywordAt(kw, order)) != []
            <==> exists h :: h in s.tables.fields && s.ScopedTokens(h, kw) != []
  {
    var f := s.KeywordAt(kw, order);
    var always := (x: ClauseState) => true;
    CollectSome(|order|, f, always);
    if Collect(|order|, f) != [] {
      assert always(Collect(|order|, f)[0]);
      var i: nat :| i < |order| && SomeOf(f(i), always);
      assert s.ScopedTokens(order[i], kw) != [];
    }
    if h :| h in s.tables.fields && s.ScopedTokens(h, kw) != [] {
      var i: nat :| i < |order| && order[i] == h;
      assert always(f(i)[0]);
      assert SomeOf(f(i), always);
    }
  }

  lemma EachField(s: Searcher, kw: Keyword, order: seq<uint64>, d: uint32)
    requires Enumerates(order, s.tables.fields.Keys)
    ensures (forall i: nat | i < |order| :: s.ScopedTokens(order[i], kw) == []
                                            || s.Posted(s.ScopedTokens(order[i], kw), d))
            <==> forall h | h in s.tables.fields && s.ScopedTokens(h, kw) != [] :: s.Posted(s.ScopedTokens(h, kw), d)
  {
    if forall i: nat | i < |order| :: s.ScopedTokens(order[i], kw) == [] || s.Posted(s.ScopedTokens(order[i], kw), d) {
      forall h | h in s.tables.fields && s.ScopedTokens(h, kw) != []
        ensures s.Posted(s.ScopedTokens(h, kw), d)
      {
        var i: nat :| i < |order| && order[i] == h;
      }
    }
  }

  lemma ScopedPieces(s: Searcher, boost: real, h: uint64, tokens: seq<Token>, cond: bool, d: uint32)
    ensures SomeOf(s.ScopedStates(boost, h, tokens, cond), Posts(s, d)) <==> s.Posted(tokens, d)
    ensures cond ==> (EachOf(s.ScopedStates(boost, h, tokens, cond), Posts(s, d)) <==> s.Posted(tokens, d))
  {
    var states := s.ScopedStates(boost, h, tokens, cond);
    if states != [] {
      assert Posts(s, d)(states[0]) == s.Posted(tokens, d);
    }
  }

  lemma KeywordsMean(s: Searcher, c: Clause, orders: seq<seq<uint64>>, cond: bool, d: uint32)
    requires s.Orders(c, orders)
    ensures SomeOf(Collect(|c.keywords|, s.KeywordsAt(c, orders, cond)), Posts(s, d))
            <==> exists i, h :: 0 <= i < |c.keywords| && h in s.tables.fields
                                && s.Posted(s.ScopedTokens(h, c.keywords[i]), d)
  {
    var f := s.KeywordsAt(c, orders, cond);
    CollectSome(|c.keywords|, f, Posts(s, d));
    forall i: nat | i < |c.keywords|
      ensures SomeOf(f(i), Posts(s, d))
              <==> exists h :: h in s.tables.fields && s.Posted(s.ScopedTokens(h, c.keywords[i]), d)
    {
      KeywordSome(s, c.keywords[i], orders[i], cond, d);
    }
  }

  lemma KeywordsHold(s: Searcher, c: Clause, orders: seq<seq<uint64>>, d: uint32)
    requires s.Orders(c, orders)
    ensures EachOf(Collect(|c.keywords|, s.KeywordsAt(c, orders, true)), Posts(s, d))
            <==> forall i | 0 <= i < |c.keywords| :: s.Everywhere(c.keywords[i], d)
  {
    var f := s.KeywordsAt(c, orders, true);
    CollectEach(|c.keywords|, f, Posts(s, d));
    forall i: nat | i < |c.keywords|
      ensures EachOf(f(i), Posts(s, d)) <==> s.Everywhere(c.keywords[i], d)
    {
      KeywordEach(s, c.keywords[i], orders[i], d);
    }
  }

  lemma FieldKeywordsMean(s: Searcher, c: Clause, cond: bool, d: uint32)
    ensures SomeOf(Collect(|c.fieldKeywords|, s.FieldKeywordsAt(c, cond)), Posts(s, d))
            <==> exists i :: 0 <= i < |c.fieldKeywords|
                             && s.Posted(s.ScopedTokens(c.fieldKeywords[i].field, c.fieldKeywords[i].keyword), d)
    ensures cond ==> (EachOf(Collect(|c.fieldKeywords|, s.FieldKeywordsAt(c, cond)), Posts(s, d))
                      <==> forall i | 0 <= i < |c.fieldKeywords| ::
                          s.Posted(s.ScopedTokens(c.fieldKeywords[i].field, c.fieldKeywords[i].keyword), d))
  {
    var f := s.FieldKeywordsAt(c, cond);
    CollectSome(|c.fieldKeywords|, f, Posts(s, d));
    CollectEach(|c.fieldKeywords|, f, Posts(s, d));
    forall i: nat | i < |c.fieldKeywords|
      ensures var e := c.fieldKeywords[i];
              && (SomeOf(f(i), Posts(s, d)) <==> s.Posted(s.ScopedTokens(e.field, e.keyword), d))
              && (cond ==> (EachOf(f(i), Posts(s, d)) <==> s.Posted(s.ScopedTokens(e.field, e.keyword), d)))
    {
      var e := c.fieldKeywords[i];
      ScopedPieces(s, e.keyword.boost, e.field, s.ScopedTokens(e.field, e.keyword), cond, d);
    }
  }

  lemma FieldRangesMean(s: Searcher, c: Clause, cond: bool, d: uint32)
    ensures SomeOf(Collect(|c.fieldRanges|, s.FieldRangesAt(c, cond)), Posts(s, d))
            <==> exists i :: 0 <= i < |c.fieldRanges|
                             && s.Posted(s.RangedTokens(c.fieldRanges[i].field, c.fieldRanges[i].range), d)
    ensures cond ==> (EachOf(Collect(|c.fieldRanges|, s.FieldRangesAt(c, cond)), Posts(s, d))
                      <==> forall i | 0 <= i < |c.fieldRanges| ::
                          s.Posted(s.RangedTokens(c.fieldRanges[i].field, c.fieldRanges[i].range), d))
  {
    var f := s.FieldRangesAt(c, cond);
    CollectSome(|c.fieldRanges|, f, Posts(s, d));
    CollectEach(|c.fieldRanges|, f, Posts(s, d));
    forall i: nat | i < |c.fieldRanges|
      ensures var e := c.fieldRanges[i];
              && (SomeOf(f(i), Posts(s, d)) <==> s.Posted(s.RangedTokens(e.field, e.range), d))
              && (cond ==> (EachOf(f(i), Posts(s, d)) <==> s.Posted(s.RangedTokens(e.field, e.range), d)))
    {
      var e := c.fieldRanges[i];
      ScopedPieces(s, e.boost, e.field, s.RangedTokens(e.field, e.range), cond, d);
    }
  }

  /** What the states of a clause mean for a document, whatever the orders of the maps. */
  lemma StatesMean(s: Searcher, c: Clause, orders: seq<seq<uint64>>, cond: bool, d: uint32)
    requires s.Orders(c, orders)
    ensures SomeOf(s.States(c, orders, cond), Posts(s, d)) <==> s.Any(c, d)
    ensures cond ==> (EachOf(s.States(c, orders, cond), Posts(s, d)) <==> s.All(c, d))
  {
    var p := Posts(s, d);
    var x, y, z := Collect(|c.keywords|, s.KeywordsAt(c, orders, cond)),
        Collect(|c.fieldKeywords|, s.FieldKeywordsAt(c, cond)),
                   Collect(|c.fieldRanges|, s.FieldRangesAt(c, cond));
    KeywordsMean(s, c, orders, cond, d);
    if cond {
      KeywordsHold(s, c, orders, d);
    }
    FieldKeywordsMean(s, c, cond, d);
    FieldRangesMean(s, c, cond, d);
    SomeJoined(x, y, p);
    SomeJoined(x + y, z, p);
    EachJoined(x, y, p);
    EachJoined(x + y, z, p);
  }

  /** The union of the posting lists of some tokens. */
  method UnionOf(s: Searcher, tokens: seq<Token>, start: Bitmap) returns (b: Bitmap)
    ensures forall d :: d in b <==> d in start || s.Posted(tokens, d)
  {
    b := start;
    for i := 0 to |tokens|
      invariant forall d :: d in b <==> d in start || s.Posted(tokens[..i], d)
    {
      forall d
        ensures s.Posted(tokens[..i + 1], d) <==> s.Posted(tokens[..i], d) || d in s.ListOf(tokens[i])
      {
        PostedNext(s, tokens, i, d);
      }
      b := b + s.ListOf(tokens[i]);
    }
    assert tokens[..|tokens|] == tokens;
  }

  lemma PostedNext(s: Searcher, tokens: seq<Token>, i: nat, d: uint32)
    requires i < |tokens|
    ensures s.Posted(tokens[..i + 1], d) <==> s.Posted(tokens[..i], d) || d in s.ListOf(tokens[i])
  {
    assert tokens[..i + 1][i] == tokens[i];
    if s.Posted(tokens[..i], d) {
      var j :| 0 <= j < i && d in s.ListOf(tokens[..i][j]);
      assert tokens[..i + 1][j] == tokens[..i][j];
    }
    if s.Posted(tokens[..i + 1], d) {
      var j :| 0 <= j < i + 1 && d in s.ListOf(tokens[..i + 1][j]);
      assert j < i ==> tokens[..i][j] == tokens[..i + 1][j];
    }
  }

  /** One bitmap per conjunct; none at all once a conjunct has no tokens. */
  method MustBitmaps(s: Searcher, states: seq<ClauseState>) returns (bitmaps: seq<Bitmap>)
    ensures if exists i :: 0 <= i < |states| && states[i].tokens == [] then bitmaps == []
            else |bitmaps| == |states| && forall i, d | 0 <= i < |states| :: d in bitmaps[i]
                                                                             <==> s.Posted(states[i].tokens, d)
  {
    bitmaps := [];
    for i := 0 to |states|
      invariant |bitmaps| == i
      invariant forall j | 0 <= j < i :: states[j].tokens != []
      invariant forall j, d | 0 <= j < i :: d in bitmaps[j] <==> s.Posted(states[j].tokens, d)
    {
      if |states[i].tokens| == 0 {
        return [];
      }
      var b := UnionOf(s, states[i].tokens, {});
      bitmaps := bitmaps + [b];
    }
  }

  /** The intersection of one or more bitmaps. */
  method FastAnd(bitmaps: seq<Bitmap>) returns (b: Bitmap)
    requires bitmaps != []
    ensures forall d :: d in b <==> forall i | 0 <= i < |bitmaps| :: d in bitmaps[i]
  {
    b := bitmaps[0];
    for i := 1 to |bitmaps|
      invariant forall d :: d in b <==> forall j | 0 <= j < i :: d in bitmaps[j]
    {
      b := b * bitmaps[i];
    }
  }

  lemma UnresolvedMeansNone(s: Searcher, states: seq<ClauseState>, i: nat, d: uint32)
    requires i < |states| && states[i].tokens == []
    ensures !EachOf(states, Posts(s, d))
  {
    assert !Posts(s, d)(states[i]);
  }

  /** The documents that every conjunct posts. */
  method Intersect(s: Searcher, states: seq<ClauseState>) returns (b: Bitmap)
    requires states != []
    ensures forall d :: d in b <==> EachOf(states, Posts(s, d))
  {
    var bitmaps := MustBitmaps(s, states);
    b := {};
    if |bitmaps| != 0 {
      b := FastAnd(bitmaps);
    } else {
      forall d
        ensures !EachOf(states, Posts(s, d))
      {
        var i :| 0 <= i < |states| && states[i].tokens == [];
        UnresolvedMeansNone(s, states, i, d);
      }
    }
  }

  lemma SomeNext<X(!new)>(xs: seq<X>, i: nat, p: X -> bool)
    requires i < |xs|
    ensures SomeOf(xs[..i + 1], p) <==> SomeOf(xs[..i], p) || p(xs[i])
  {
    assert xs[..i + 1] == xs[..i] + [xs[i]];
    SomeJoined(xs[..i], [xs[i]], p);
    assert SomeOf([xs[i]], p) <==> p(xs[i]) by {
      assert [xs[i]][0] == xs[i];
    }
  }

  /** The documents that some token posts, added to those that are there. */
  method Gather(s: Searcher, states: seq<ClauseState>) returns (b: Bitmap)
    ensures forall d :: d in b <==> SomeOf(states, Posts(s, d))
  {
    b := {};
    for i := 0 to |states|
      invariant forall d :: d in b <==> SomeOf(states[..i], Posts(s, d))
    {
      forall d
        ensures SomeOf(states[..i + 1], Posts(s, d))
                <==> SomeOf(states[..i], Posts(s, d)) || s.Posted(states[i].tokens, d)
      {
        SomeNext(states, i, Posts(s, d));
      }
      b := UnionOf(s, states[i].tokens, b);
    }
    assert states[..|states|] == states;
  }

  /** `AndNot` of one token's list after the other. */
  method Without(s: Searcher, tokens: seq<Token>, start: Bitmap) returns (b: Bitmap)
    ensures forall d :: d in b <==> d in start && !s.Posted(tokens, d)
  {
    b := start;
    for i := 0 to |tokens|
      invariant forall d :: d in b <==> d in start && !s.Posted(tokens[..i], d)
    {
      forall d
        ensures s.Posted(tokens[..i + 1], d) <==> s.Posted(tokens[..i], d) || d in s.ListOf(tokens[i])
      {
        PostedNext(s, tokens, i, d);
      }
      b := b - s.ListOf(tokens[i]);
    }
    assert tokens[..|tokens|] == tokens;
  }

  /** What is left after the exclusions, which stop once nothing is. */
  method Exclude(s: Searcher, states: seq<ClauseState>, start: Bitmap) returns (b: Bitmap)
    ensures forall d :: d in b <==> d in start && !SomeOf(states, Posts(s, d))
  {
    b := start;
    for i := 0 to |states|
      invariant forall d :: d in b <==> d in start && !SomeOf(states[..i], Posts(s, d))
    {
      forall d
        ensures SomeOf(states[..i + 1], Posts(s, d))
                <==> SomeOf(states[..i], Posts(s, d)) || s.Posted(states[i].tokens, d)
      {
        SomeNext(states, i, Posts(s, d));
      }
      b := Without(s, states[i].tokens, b);
      if b == {} {
        NothingLeft(s, states, i + 1, start);
        return;
      }
    }
    assert states[..|states|] == states;
  }

  lemma NothingLeft(s: Searcher, states: seq<ClauseState>, i: nat, start: Bitmap)
    requires i <= |states| && forall d | d in start :: SomeOf(states[..i], Posts(s, d))
    ensures forall d | d in start :: SomeOf(states, Posts(s, d))
  {
    assert states[..i] + states[i..] == states;
    forall d | d in start
      ensures SomeOf(states, Posts(s, d))
    {
      SomeJoined(states[..i], states[i..], Posts(s, d));
    }
  }

  /** The candidates before exclusions: all musts, or without musts any should. */
  ghost predicate Candidate(s: Searcher, q: Query, d: uint32) {
    if q.musts.Count() > 0 then s.All(q.musts, d) else q.shoulds.Count() > 0 && s.Any(q.shoulds, d)
  }

  ghost predicate QueryReady(s: Searcher, q: Query) {
    s.TablesReady() && s.Ready(q.musts) && s.Ready(q.mustNots) && (q.musts.Count() == 0 ==> s.Ready(q.shoulds))
  }

  method Candidates(s: Searcher, q: Query) returns (b: Bitmap)
    requires QueryReady(s, q)
    ensures forall d :: d in b <==> Candidate(s, q, d)
  {
    b := {};
    if q.musts.Count() > 0 {
      b := MustCandidates(s, q.musts);
    } else if q.shoulds.Count() > 0 {
      b := ShouldCandidates(s, q.shoulds);
    }
  }

  lemma StatesExist(s: Searcher, c: Clause, orders: seq<seq<uint64>>)
    requires c.Count() > 0 && s.Orders(c, orders)
    ensures s.States(c, orders, true) != []
  {
    if c.keywords != [] {
      CollectPiece(0, |c.keywords|, s.KeywordsAt(c, orders, true));
    } else if c.fieldKeywords != [] {
      CollectPiece(0, |c.fieldKeywords|, s.FieldKeywordsAt(c, true));
    } else {
      CollectPiece(0, |c.fieldRanges|, s.FieldRangesAt(c, true));
    }
  }

  method MustCandidates(s: Searcher, c: Clause) returns (b: Bitmap)
    requires s.TablesReady() && s.Ready(c) && c.Count() > 0
    ensures forall d :: d in b <==> s.All(c, d)
  {
    ghost var orders;
    var states;
    states, orders := s.Iterate(c, true);
    StatesExist(s, c, orders);
    b := Intersect(s, states);
    forall d
      ensures EachOf(states, Posts(s, d)) <==> s.All(c, d)
    {
      StatesMean(s, c, orders, true, d);
    }
  }

  method ShouldCandidates(s: Searcher, c: Clause) returns (b: Bitmap)
    requires s.TablesReady() && s.Ready(c)
    ensures forall d :: d in b <==> s.Any(c, d)
  {
    ghost var orders;
    var states;
    states, orders := s.Iterate(c, false);
    b := Gather(s, states);
    forall d
      ensures SomeOf(states, Posts(s, d)) <==> s.Any(c, d)
    {
      StatesMean(s, c, orders, false, d);
    }
  }

  method ExcludeClause(s: Searcher, c: Clause, start: Bitmap) returns (b: Bitmap)
    requires s.TablesReady() && s.Ready(c)
    ensures forall d :: d in b <==> d in start && !s.Any(c, d)
  {
    ghost var orders;
    var states;
    states, orders := s.Iterate(c, true);
    b := Exclude(s, states, start);
    forall d
      ensures SomeOf(states, Posts(s, d)) <==> s.Any(c, d)
    {
      StatesMean(s, c, orders, true, d);
    }
  }

  /** `FilterDocuments` from a cleared bitmap: exactly the candidates that no exclusion posts, for every map order. */
  method FilterDocuments(s: Searcher, ctx: QueryContext, q: Query)
    requires QueryReady(s, q) && ctx.bitmap == {}
    modifies ctx`bitmap
    ensures forall d :: d in ctx.bitmap <==> Candidate(s, q, d) && !s.Any(q.mustNots, d)
  {
    ctx.bitmap := Candidates(s, q);
    if q.mustNots.Count() > 0 && |ctx.bitmap| > 0 {
      ctx.bitmap := ExcludeClause(s, q.mustNots, ctx.bitmap);
    }
  }
}
