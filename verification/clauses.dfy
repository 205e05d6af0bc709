/** query/clause.go: from the entries of a query clause to tokens, field by field. */
module Clauses {
  import opened Bytes
  import opened Collecting
  import opened EditDistance
  import opened Headers
  import opened Listing
  import opened Options
  import opened Bitmaps
  import opened Tokens
  import opened Tables
  import opened Totals
  import opened Automata
  import opened Ranges

  const DefaultM := 10

  datatype Keyword = Keyword(boost: real, fuzzy: int, value: bytes)

  datatype FieldKeyword = FieldKeyword(field: uint64, keyword: Keyword)

  datatype FieldRange = FieldRange(field: uint64, boost: real, range: Range)

  datatype Clause = Clause(keywords: seq<Keyword>, fieldKeywords: seq<FieldKeyword>, fieldRanges: seq<FieldRange>)
  {
    function Count(): nat {
      |keywords| + |fieldKeywords| + |fieldRanges|
    }
  }

  /** One entry of a clause, resolved in one field: what a handler is called with. */
  datatype ClauseState = ClauseState(boost: real, field: Option<uint64>, tokens: seq<Token>)

  /** Where the states of a clause come from: a keyword in one field or in none, a scoped keyword, a scoped range. */
  datatype Place = KeywordIn(entry: nat, field: uint64) | KeywordNowhere(entry: nat) | ScopedKeyword(entry: nat)
                 | ScopedRange(entry: nat)
  {
    function Group(): nat {
      if KeywordIn? || KeywordNowhere? then 0 else if ScopedKeyword? then 1 else 2
    }
  }

  /** Keywords, scoped keywords and ranges in turn, each in the order of the entries; the fields of a keyword in any. */
  ghost predicate Precedes(p: Place, q: Place) {
    || p.Group() < q.Group() || (p.Group() == q.Group() && p.entry < q.entry)
    || (p.KeywordIn? && q.KeywordIn? && p.entry == q.entry && p.field != q.field)
  }

  datatype Searcher = Searcher(tables: Tables, maxK: int, m: int)
  {
    function K(kw: Keyword): int {
      if maxK < kw.fuzzy then maxK else kw.fuzzy
    }

    function M(): int {
      if m != 0 then m else DefaultM
    }

    predicate Fuzzy(kw: Keyword) {
      K(kw) > 0 && M() > 0
    }

    /** The automaton is there when it is needed: otherwise the code calls it on nil. */
    ghost predicate Resolvable(ts: seq<Token>, kw: Keyword) {
      Exact(ts, kw.value) || kw.fuzzy <= 0 || maxK <= 0 || m < 0
      || ((maxK <= 3 || kw.fuzzy <= 3) && |kw.value| < LevenshteinMatcher.MaxLevenshteinLength)
    }

    /** The tokens of a keyword in one field: the token itself, or else the first few within reach. */
    ghost function KeywordTokens(ts: seq<Token>, kw: Keyword): seq<Token> {
      if Exact(ts, kw.value) then ExactToken(ts, kw.value)
      else if Fuzzy(kw) then Cut(Matching(K(kw), kw.value, ts, |ts|), M())
      else []
    }

    /** The tokens at the positions `at`, ascending: within reach, at most m of them (10 when m is 0), and the first. */
    ghost predicate FirstInReach(ts: seq<Token>, kw: Keyword, out: seq<Token>, at: seq<nat>) {
      && |at| == |out| <= (if m == 0 then 10 else m)
      && (forall j | 0 <= j < |at| :: at[j] < |ts| && out[j] == ts[at[j]] && InReach(kw, maxK, out[j].Bytes()))
      && (forall i, j | 0 <= i < j < |at| :: at[i] < at[j])
      && forall i: nat | i < |ts| && InReach(kw, maxK, ts[i].Bytes()) && i !in at ::
           |out| == (if m == 0 then 10 else m) && forall j | 0 <= j < |at| :: at[j] < i
    }

    /** What a keyword comes to in a table, by its own fuzziness and the two limits of the searcher. */
    ghost predicate ResolvesTo(ts: seq<Token>, kw: Keyword, out: seq<Token>) {
      if Exact(ts, kw.value) then |out| == 1 && out[0] in ts && out[0].Bytes() == kw.value
      else if kw.fuzzy <= 0 || maxK <= 0 || m < 0 then out == []
      else exists at :: FirstInReach(ts, kw, out, at)
    }

    lemma ReachIsClose(kw: Keyword, token: Token)
      requires kw.fuzzy > 0 && maxK > 0
      ensures K(kw) > 0 && (Close(K(kw), kw.value, token) <==> InReach(kw, maxK, token.Bytes()))
    {
      DistIsShortestScript(token.Bytes(), kw.value, K(kw));
      DistIsShortestScript(token.Bytes(), kw.value, kw.fuzzy);
      DistIsShortestScript(token.Bytes(), kw.value, maxK);
    }

    lemma CutIsFirst(ts: seq<Token>, kw: Keyword, all: seq<Token>, at: seq<nat>)
      requires kw.fuzzy > 0 && maxK > 0 && m >= 0
      requires Listed(all, at, CloseAt(K(kw), kw.value, ts, |ts|), TokenAt(ts), Earlier)
      ensures var n := |Cut(all, M())|; n <= |at| && FirstInReach(ts, kw, Cut(all, M()), at[..n])
    {
      var n := |Cut(all, M())|;
      forall j | 0 <= j < n
        ensures at[j] < |ts| && all[j] == ts[at[j]] && InReach(kw, maxK, all[j].Bytes())
      {
        assert at[j] in at;
        ReachIsClose(kw, all[j]);
      }
      forall i: nat | i < |ts| && InReach(kw, maxK, ts[i].Bytes()) && i !in at[..n]
        ensures n == (if m == 0 then 10 else m) && forall j | 0 <= j < n :: at[j] < i
      {
        ReachIsClose(kw, ts[i]);
        assert CloseAt(K(kw), kw.value, ts, |ts|)(i);
        BehindFirst(at, n, i);
      }
    }

    /** The token itself; or else the first few tokens that are within both limits, when it is searched fuzzily. */
    lemma KeywordResolves(ts: seq<Token>, kw: Keyword)
      ensures ResolvesTo(ts, kw, KeywordTokens(ts, kw))
    {
      if !Exact(ts, kw.value) && kw.fuzzy > 0 && maxK > 0 && m >= 0 {
        var all := Matching(K(kw), kw.value, ts, |ts|);
        MatchingListed(K(kw), kw.value, ts, |ts|);
        var at :| Listed(all, at, CloseAt(K(kw), kw.value, ts, |ts|), TokenAt(ts), Earlier);
        CutIsFirst(ts, kw, all, at);
      }
    }

    method ResolveKeyword(ts: seq<Token>, kw: Keyword) returns (out: seq<Token>)
      requires Sorted(ts) && Resolvable(ts, kw) && forall i | 0 <= i < |ts| :: ts[i].value.size <= MaxRawValueSize
      ensures out == KeywordTokens(ts, kw) && ResolvesTo(ts, kw, out)
    {
      KeywordResolves(ts, kw);
      var i, found := BinarySearchBytes(ts, kw.value);
      if found {
        ExactAt(ts, kw.value, i);
        return [ts[i]];
      }
      out := [];
      if Fuzzy(kw) {
        var automaton := New(K(kw), M(), kw.value, ts);
        out := automaton.value.Matches();
      }
    }

    ghost function ScopedTokens(h: uint64, kw: Keyword): seq<Token> {
      if h in tables.fields then KeywordTokens(tables.fields[h].tokens, kw) else []
    }

    ghost function RangedTokens(h: uint64, r: Range): seq<Token> {
      if h in tables.fields && tables.fields[h].tokens != [] then Resolved(tables.fields[h].tokens, r) else []
    }

    /** What a keyword comes to in one field of the order: nothing when it has no tokens there. */
    ghost function KeywordAt(kw: Keyword, order: seq<uint64>): nat -> seq<ClauseState> {
      (i: nat) => if i < |order|
          && ScopedTokens(order[i], kw) != [] then [ClauseState(kw.boost, Some(order[i]), ScopedTokens(order[i], kw))]
              else []
    }

    ghost function KeywordStates(kw: Keyword, order: seq<uint64>, cond: bool): seq<ClauseState> {
      var states := Collect(|order|, KeywordAt(kw, order));
      if cond && states == [] then [ClauseState(kw.boost, None, [])] else states
    }

    /** A scoped entry; when nothing is found it counts only for `IterCond`. */
    ghost function ScopedStates(boost: real, h: uint64, tokens: seq<Token>, cond: bool): seq<ClauseState> {
      if cond || tokens != [] then [ClauseState(boost, if h in tables.fields then Some(h) else None, tokens)] else []
    }

    ghost function KeywordsAt(c: Clause, orders: seq<seq<uint64>>, cond: bool): nat -> seq<ClauseState> {
      (i: nat) => if i < |c.keywords| && i < |orders| then KeywordStates(c.keywords[i], orders[i], cond) else []
    }

    ghost function FieldKeywordsAt(c: Clause, cond: bool): nat -> seq<ClauseState> {
      (i: nat) => if i < |c.fieldKeywords| then
        var e := c.fieldKeywords[i];
        ScopedStates(e.keyword.boost, e.field, ScopedTokens(e.field, e.keyword), cond)
      else []
    }

    ghost function FieldRangesAt(c: Clause, cond: bool): nat -> seq<ClauseState> {
      (i: nat) => if i < |c.fieldRanges| then
        var e := c.fieldRanges[i];
        ScopedStates(e.boost, e.field, RangedTokens(e.field, e.range), cond)
      else []
    }

    /** The states of a clause in the order of `Iter`, or of `IterCond` when `cond`; one map order per keyword. */
    ghost function States(c: Clause, orders: seq<seq<uint64>>, cond: bool): seq<ClauseState> {
      Collect(|c.keywords|, KeywordsAt(c, orders, cond)) + Collect(|c.fieldKeywords|, FieldKeywordsAt(c, cond))
      + Collect(|c.fieldRanges|, FieldRangesAt(c, cond))
    }

    /** The place has a state: it has tokens; or nothing is skipped, and it is scoped or a keyword without tokens. */
    ghost predicate Yields(c: Clause, cond: bool, p: Place) {
      match p
      case KeywordIn(i, h) => i < |c.keywords| && h in tables.fields && ScopedTokens(h, c.keywords[i]) != []
      case KeywordNowhere(i) =>
        cond && i < |c.keywords| && forall h | h in tables.fields :: ScopedTokens(h, c.keywords[i]) == []
      case ScopedKeyword(i) =>
        i < |c.fieldKeywords|
        && (cond || ScopedTokens(c.fieldKeywords[i].field, c.fieldKeywords[i].keyword) != [])
      case ScopedRange(i) =>
        i < |c.fieldRanges| && (cond || RangedTokens(c.fieldRanges[i].field, c.fieldRanges[i].range) != [])
    }

    /** The state of a place: the boost of its entry, its field when the index has it, and the tokens there. */
    ghost predicate IsState(c: Clause, p: Place, state: ClauseState) {
      match p
      case KeywordIn(i, h) =>
        i < |c.keywords| && state == ClauseState(c.keywords[i].boost, Some(h), ScopedTokens(h, c.keywords[i]))
      case KeywordNowhere(i) => i < |c.keywords| && state == ClauseState(c.keywords[i].boost, None, [])
      case ScopedKeyword(i) =>
        i < |c.fieldKeywords|
        && var e := c.fieldKeywords[i];
           && state.boost == e.keyword.boost && IsField(e.field, state.field)
           && state.tokens == ScopedTokens(e.field, e.keyword)
      case ScopedRange(i) =>
        i < |c.fieldRanges|
        && var e := c.fieldRanges[i];
           && state.boost == e.boost && IsField(e.field, state.field)
           && state.tokens == RangedTokens(e.field, e.range)
    }

    ghost predicate IsField(h: uint64, field: Option<uint64>) {
      if h in tables.fields then field == Some(h) else field == None
    }

    ghost function Yielding(c: Clause, cond: bool): Place -> bool {
      (p: Place) => Yields(c, cond, p)
    }

    ghost function StateAt(c: Clause): (Place, ClauseState) -> bool {
      (p: Place, state: ClauseState) => IsState(c, p, state)
    }

    /** One state for each place that has one, and no other, in the order of the entries. */
    ghost predicate InOrder(c: Clause, cond: bool, states: seq<ClauseState>) {
      Listable(states, Yielding(c, cond), StateAt(c), Precedes)
    }

    ghost predicate Orders(c: Clause, orders: seq<seq<uint64>>) {
      |orders| == |c.keywords| && forall i | 0 <= i < |orders| :: Enumerates(orders[i], tables.fields.Keys)
    }

    /** The places of one group that have states. */
    ghost function Grouped(c: Clause, cond: bool, group: nat): Place -> bool {
      (p: Place) => p.Group() == group && Yields(c, cond, p)
    }

    /** The fields that have keyword i. */
    ghost function FoundIn(c: Clause, i: nat): Place -> bool {
      (p: Place) => p.KeywordIn? && p.entry == i && Yields(c, false, p)
    }

    lemma FieldListed(c: Clause, i: nat, order: seq<uint64>, j: nat)
      requires Enumerates(order, tables.fields.Keys) && i < |c.keywords| && j < |order|
      ensures Listable(KeywordAt(c.keywords[i], order)(j), Piece(FoundIn(c, i), PlaceOfField(order), j), StateAt(c),
                       Precedes)
    {
      var kw, h, valid := c.keywords[i], order[j], Piece(FoundIn(c, i), PlaceOfField(order), j);
      forall p | valid(p)
        ensures p == KeywordIn(i, h)
      {
        FieldPlaced(order, p.field);
      }
      if ScopedTokens(h, kw) != [] {
        FieldPlaced(order, h);
        OneListable(ClauseState(kw.boost, Some(h), ScopedTokens(h, kw)), KeywordIn(i, h), valid, StateAt(c), Precedes);
      } else {
        NothingListable<Place, ClauseState>(valid, StateAt(c), Precedes);
      }
    }

    lemma FieldsListed(c: Clause, i: nat, order: seq<uint64>)
      requires Enumerates(order, tables.fields.Keys) && i < |c.keywords|
      ensures Listable(Collect(|order|, KeywordAt(c.keywords[i], order)), FoundIn(c, i), StateAt(c), Precedes)
    {
      var valid, piece := FoundIn(c, i), PlaceOfField(order);
      forall j: nat | j < |order|
        ensures Listable(KeywordAt(c.keywords[i], order)(j), Piece(valid, piece, j), StateAt(c), Precedes)
      {
        FieldListed(c, i, order, j);
      }
      CollectListed(|order|, KeywordAt(c.keywords[i], order), valid, piece, StateAt(c), Precedes);
      forall p | valid(p)
        ensures piece(p) < |order|
      {
        FieldPlaced(order, p.field);
      }
      ListableSame(Collect(|order|, KeywordAt(c.keywords[i], order)), Below(valid, piece, |order|), valid, StateAt(c),
                   Precedes);
    }

    lemma NotFound(c: Clause, i: nat, states: seq<ClauseState>)
      requires Listable(states, FoundIn(c, i), StateAt(c), Precedes) && i < |c.keywords|
      ensures states == [] <==> forall h | h in tables.fields :: ScopedTokens(h, c.keywords[i]) == []
    {
      var ps :| Listed(states, ps, FoundIn(c, i), StateAt(c), Precedes);
      forall h | h in tables.fields && ScopedTokens(h, c.keywords[i]) != []
        ensures states != []
      {
        assert FoundIn(c, i)(KeywordIn(i, h));
        assert KeywordIn(i, h) in ps;
      }
      if states != [] {
        assert ps[0] in ps;
        assert FoundIn(c, i)(ps[0]);
      }
    }

    /** A keyword that has tokens nowhere still has a state when nothing is skipped. */
    lemma OrNowhere(c: Clause, i: nat, states: seq<ClauseState>, cond: bool)
      requires Listable(states, FoundIn(c, i), StateAt(c), Precedes) && i < |c.keywords|
      ensures Listable(if cond && states == [] then [ClauseState(c.keywords[i].boost, None, [])] else states,
                       Piece(Grouped(c, cond, 0), EntryOf, i), StateAt(c), Precedes)
    {
      var all := Piece(Grouped(c, cond, 0), EntryOf, i);
      NotFound(c, i, states);
      if cond && states == [] {
        OneListable(ClauseState(c.keywords[i].boost, None, []), KeywordNowhere(i), all, StateAt(c), Precedes);
      } else {
        ListableSame(states, FoundIn(c, i), all, StateAt(c), Precedes);
      }
    }

    lemma KeywordListed(c: Clause, i: nat, order: seq<uint64>, cond: bool)
      requires Enumerates(order, tables.fields.Keys) && i < |c.keywords|
      ensures Listable(KeywordStates(c.keywords[i], order, cond), Piece(Grouped(c, cond, 0), EntryOf, i), StateAt(c),
                       Precedes)
    {
      FieldsListed(c, i, order);
      OrNowhere(c, i, Collect(|order|, KeywordAt(c.keywords[i], order)), cond);
    }

    lemma KeywordsListed(c: Clause, orders: seq<seq<uint64>>, cond: bool)
      requires Orders(c, orders)
      ensures Listable(Collect(|c.keywords|, KeywordsAt(c, orders, cond)), Grouped(c, cond, 0), StateAt(c), Precedes)
    {
      var valid := Grouped(c, cond, 0);
      forall i: nat | i < |c.keywords|
        ensures Listable(KeywordsAt(c, orders, cond)(i), Piece(valid, EntryOf, i), StateAt(c), Precedes)
      {
        KeywordListed(c, i, orders[i], cond);
      }
      CollectListed(|c.keywords|, KeywordsAt(c, orders, cond), valid, EntryOf, StateAt(c), Precedes);
      ListableSame(Collect(|c.keywords|, KeywordsAt(c, orders, cond)), Below(valid, EntryOf, |c.keywords|), valid,
                   StateAt(c), Precedes);
    }

    /** A scoped entry has one state when it is handed on, and none otherwise. */
    lemma ScopedListed(c: Clause, cond: bool, p: Place, boost: real, h: uint64, tokens: seq<Token>)
      requires p.Group() > 0 && (Yields(c, cond, p) <==> cond || tokens != [])
      requires IsState(c, p, ClauseState(boost, if h in tables.fields then Some(h) else None, tokens))
      ensures Listable(ScopedStates(boost, h, tokens, cond), Piece(Grouped(c, cond, p.Group()), EntryOf, p.entry),
                       StateAt(c), Precedes)
    {
      var valid, states := Piece(Grouped(c, cond, p.Group()), EntryOf, p.entry), ScopedStates(boost, h, tokens, cond);
      forall q | valid(q)
        ensures q == p
      {
        assert EntryOf(q) == p.entry;
        SamePlace(p, q);
      }
      if Yields(c, cond, p) {
        OneListable(states[0], p, valid, StateAt(c), Precedes);
      } else {
        NothingListable<Place, ClauseState>(valid, StateAt(c), Precedes);
      }
    }

    lemma FieldKeywordsListed(c: Clause, cond: bool)
      ensures Listable(Collect(|c.fieldKeywords|, FieldKeywordsAt(c, cond)), Grouped(c, cond, 1), StateAt(c), Precedes)
    {
      var valid := Grouped(c, cond, 1);
      forall i: nat | i < |c.fieldKeywords|
        ensures Listable(FieldKeywordsAt(c, cond)(i), Piece(valid, EntryOf, i), StateAt(c), Precedes)
      {
        var e := c.fieldKeywords[i];
        ScopedListed(c, cond, ScopedKeyword(i), e.keyword.boost, e.field, ScopedTokens(e.field, e.keyword));
      }
      CollectListed(|c.fieldKeywords|, FieldKeywordsAt(c, cond), valid, EntryOf, StateAt(c), Precedes);
      ListableSame(Collect(|c.fieldKeywords|, FieldKeywordsAt(c, cond)), Below(valid, EntryOf, |c.fieldKeywords|),
                   valid, StateAt(c), Precedes);
    }

    lemma FieldRangesListed(c: Clause, cond: bool)
      ensures Listable(Collect(|c.fieldRanges|, FieldRangesAt(c, cond)), Grouped(c, cond, 2), StateAt(c), Precedes)
    {
      var valid := Grouped(c, cond, 2);
      forall i: nat | i < |c.fieldRanges|
        ensures Listable(FieldRangesAt(c, cond)(i), Piece(valid, EntryOf, i), StateAt(c), Precedes)
      {
        var e := c.fieldRanges[i];
        ScopedListed(c, cond, ScopedRange(i), e.boost, e.field, RangedTokens(e.field, e.range));
      }
      CollectListed(|c.fieldRanges|, FieldRangesAt(c, cond), valid, EntryOf, StateAt(c), Precedes);
      ListableSame(Collect(|c.fieldRanges|, FieldRangesAt(c, cond)), Below(valid, EntryOf, |c.fieldRanges|), valid,
                   StateAt(c), Precedes);
    }

    /** The states of a clause, whatever the map orders: one for each place that has one, in entry order. */
    lemma StatesInOrder(c: Clause, orders: seq<seq<uint64>>, cond: bool)
      requires Orders(c, orders)
      ensures InOrder(c, cond, States(c, orders, cond))
    {
      var x, y, z := Collect(|c.keywords|, KeywordsAt(c, orders, cond)),
          Collect(|c.fieldKeywords|, FieldKeywordsAt(c, cond)), Collect(|c.fieldRanges|, FieldRangesAt(c, cond));
      var first := (p: Place) => p.Group() < 2 && Yields(c, cond, p);
      KeywordsListed(c, orders, cond);
      FieldKeywordsListed(c, cond);
      FieldRangesListed(c, cond);
      ListableJoined(x, Grouped(c, cond, 0), y, Grouped(c, cond, 1), first, StateAt(c), Precedes);
      ListableJoined(x + y, first, z, Grouped(c, cond, 2), Yielding(c, cond), StateAt(c), Precedes);
    }

    ghost predicate TablesReady() {
      forall h | h in tables.fields :: TableReady(tables.fields[h].tokens)
    }

    /** What a clause needs so that no step of the code panics. */
    ghost predicate Ready(c: Clause) {
      && (forall i | 0 <= i < |c.keywords| :: ResolvableAnywhere(c.keywords[i]))
      && (forall i | 0 <= i < |c.fieldKeywords| :: ResolvableIn(c.fieldKeywords[i].field, c.fieldKeywords[i].keyword))
      && (forall i | 0 <= i < |c.fieldRanges| :: HasTokens(c.fieldRanges[i].field))
    }

    ghost predicate ResolvableIn(h: uint64, kw: Keyword) {
      h in tables.fields ==> Resolvable(tables.fields[h].tokens, kw)
    }

    ghost predicate ResolvableAnywhere(kw: Keyword) {
      forall h | h in tables.fields :: ResolvableIn(h, kw)
    }

    ghost predicate HasTokens(h: uint64) {
      h in tables.fields ==> tables.fields[h].tokens != []
    }

    method ResolveScoped(h: uint64, kw: Keyword) returns (out: seq<Token>)
      requires TablesReady() && ResolvableIn(h, kw)
      ensures out == ScopedTokens(h, kw)
    {
      out := [];
      if h in tables.fields {
        assert TableReady(tables.fields[h].tokens);
        out := ResolveKeyword(tables.fields[h].tokens, kw);
      }
    }

    /** A keyword without a field, looked up in every field. */
    method IterKeyword(kw: Keyword, cond: bool) returns (states: seq<ClauseState>, ghost order: seq<uint64>)
      requires TablesReady() && ResolvableAnywhere(kw)
      ensures Enumerates(order, tables.fields.Keys) && states == KeywordStates(kw, order, cond)
    {
      states, order := [], [];
      var left := tables.fields.Keys;
      assert tables.fields.Keys - left == {};
      while left != {}
        invariant left <= tables.fields.Keys && Enumerates(order, tables.fields.Keys - left)
        invariant states == Collect(|order|, KeywordAt(kw, order))
        decreases |left|
      {
        var h :| h in left;
        var tokens := ResolveScoped(h, kw);
        KeywordGrows(kw, order, h);
        EnumeratesSnoc(order, tables.fields.Keys - left, h);
        assert tables.fields.Keys - left + {h} == tables.fields.Keys - (left - {h});
        if |tokens| != 0 {
          states := states + [ClauseState(kw.boost, Some(h), tokens)];
        }
        order, left := order + [h], left - {h};
      }
      assert tables.fields.Keys - left == tables.fields.Keys;
      if cond && states == [] {
        states := [ClauseState(kw.boost, None, [])];
      }
    }

    lemma KeywordGrows(kw: Keyword, order: seq<uint64>, h: uint64)
      ensures Collect(|order + [h]|, KeywordAt(kw, order + [h]))
              == Collect(|order|, KeywordAt(kw, order)) + if ScopedTokens(h, kw) != [] then
                  [ClauseState(kw.boost, Some(h), ScopedTokens(h, kw))] else []
    {
      CollectEqual(|order|, KeywordAt(kw, order + [h]), KeywordAt(kw, order));
      assert (order + [h])[|order|] == h;
    }

    /** `Iter`, and `IterCond` when `cond`: the states in the order the code meets them. */
    method Iterate(c: Clause, cond: bool) returns (states: seq<ClauseState>, ghost orders: seq<seq<uint64>>)
      requires TablesReady() && Ready(c)
      ensures Orders(c, orders) && states == States(c, orders, cond) && InOrder(c, cond, states)
    {
      states, orders := IterKeywords(c, cond);
      StatesInOrder(c, orders, cond);
      var scoped := IterFieldKeywords(c, cond);
      var ranged := IterFieldRanges(c, cond);
      states := states + scoped + ranged;
    }

    method IterKeywords(c: Clause, cond: bool) returns (states: seq<ClauseState>, ghost orders: seq<seq<uint64>>)
      requires TablesReady() && Ready(c)
      ensures Orders(c, orders) && states == Collect(|c.keywords|, KeywordsAt(c, orders, cond))
    {
      states, orders := [], [];
      for i := 0 to |c.keywords|
        invariant |orders| == i && KeywordsSeen(c, states, orders, cond)
      {
        states, orders := NextKeyword(c, i, states, orders, cond);
      }
    }

    /** The states of the first keywords, each with the order its fields were met in. */
    ghost predicate KeywordsSeen(c: Clause, states: seq<ClauseState>, orders: seq<seq<uint64>>, cond: bool) {
      && |orders| <= |c.keywords| && (forall j | 0 <= j < |orders| :: Enumerates(orders[j], tables.fields.Keys))
      && states == Collect(|orders|, KeywordsAt(c, orders, cond))
    }

    method NextKeyword(c: Clause, i: nat, states: seq<ClauseState>, ghost orders: seq<seq<uint64>>, cond: bool)
        returns (states': seq<ClauseState>, ghost orders': seq<seq<uint64>>)
      requires i == |orders| < |c.keywords| && TablesReady() && ResolvableAnywhere(c.keywords[i])
      requires KeywordsSeen(c, states, orders, cond)
      ensures |orders'| == i + 1 && KeywordsSeen(c, states', orders', cond)
    {
      var more;
      ghost var order;
      more, order := IterKeyword(c.keywords[i], cond);
      KeywordsGrow(c, orders, order, cond);
      states', orders' := states + more, orders + [order];
    }

    lemma KeywordsGrow(c: Clause, orders: seq<seq<uint64>>, order: seq<uint64>, cond: bool)
      requires |orders| < |c.keywords|
      ensures Collect(|orders| + 1, KeywordsAt(c, orders + [order], cond))
              == Collect(|orders|, KeywordsAt(c, orders, cond)) + KeywordStates(c.keywords[|orders|], order, cond)
    {
      CollectEqual(|orders|, KeywordsAt(c, orders + [order], cond), KeywordsAt(c, orders, cond));
    }

    /** A scoped entry as the handler sees it. */
    method Scoped(boost: real, h: uint64, tokens: seq<Token>, cond: bool) returns (states: seq<ClauseState>)
      ensures states == ScopedStates(boost, h, tokens, cond)
    {
      states := if cond
          || |tokens| != 0 then [ClauseState(boost, if h in tables.fields then Some(h) else None, tokens)] else [];
    }

    method IterFieldKeywords(c: Clause, cond: bool) returns (states: seq<ClauseState>)
      requires TablesReady() && Ready(c)
      ensures states == Collect(|c.fieldKeywords|, FieldKeywordsAt(c, cond))
    {
      states := [];
      for i := 0 to |c.fieldKeywords|
        invariant states == Collect(i, FieldKeywordsAt(c, cond))
      {
        var e := c.fieldKeywords[i];
        var tokens := ResolveScoped(e.field, e.keyword);
        var more := Scoped(e.keyword.boost, e.field, tokens, cond);
        states := states + more;
      }
    }

    method ResolveRange(h: uint64, r: Range) returns (out: seq<Token>)
      requires TablesReady() && HasTokens(h)
      ensures out == RangedTokens(h, r)
    {
      out := [];
      if h in tables.fields {
        assert TableReady(tables.fields[h].tokens);
        out := RangeTokens(tables.fields[h].tokens, r);
      }
    }

    method IterFieldRanges(c: Clause, cond: bool) returns (states: seq<ClauseState>)
      requires TablesReady() && Ready(c)
      ensures states == Collect(|c.fieldRanges|, FieldRangesAt(c, cond))
    {
      states := [];
      for i := 0 to |c.fieldRanges|
        invariant states == Collect(i, FieldRangesAt(c, cond))
      {
        var e := c.fieldRanges[i];
        var tokens := ResolveRange(e.field, e.range);
        var more := Scoped(e.boost, e.field, tokens, cond);
        states := states + more;
      }
    }

    /** Document `d` is on the posting list of one of the tokens. */
    ghost predicate Posted(tokens: seq<Token>, d: uint32) {
      exists i :: 0 <= i < |tokens| && d in ListOf(tokens[i])
    }

    function ListOf(token: Token): Bitmap {
      if token.postingListIndex < |tables.postingLists| then Unmarshal(tables.postingLists[token.postingListIndex])
          else {}
    }

    /** Some entry of the clause, in some field, posts the document. */
    ghost predicate Any(c: Clause, d: uint32) {
      || (exists i, h :: 0 <= i < |c.keywords| && h in tables.fields && Posted(ScopedTokens(h, c.keywords[i]), d))
      || (exists i :: 0 <= i < |c.fieldKeywords|
                      && Posted(ScopedTokens(c.fieldKeywords[i].field, c.fieldKeywords[i].keyword), d))
      || (exists i :: 0 <= i < |c.fieldRanges|
                      && Posted(RangedTokens(c.fieldRanges[i].field, c.fieldRanges[i].range), d))
    }

    /** A keyword without a field is found in some field, and every field that has it posts the document. */
    ghost predicate Everywhere(kw: Keyword, d: uint32) {
      && (exists h :: h in tables.fields && ScopedTokens(h, kw) != [])
      && (forall h | h in tables.fields && ScopedTokens(h, kw) != [] :: Posted(ScopedTokens(h, kw), d))
    }

    /** Every entry of the clause posts the document. */
    ghost predicate All(c: Clause, d: uint32) {
      && (forall i | 0 <= i < |c.keywords| :: Everywhere(c.keywords[i], d))
      && (forall i | 0 <= i < |c.fieldKeywords| ::
          Posted(ScopedTokens(c.fieldKeywords[i].field, c.fieldKeywords[i].keyword), d))
      && (forall i | 0 <= i < |c.fieldRanges| ::
          Posted(RangedTokens(c.fieldRanges[i].field, c.fieldRanges[i].range), d))
    }
  }

  /** The token is within the fuzziness of the keyword, and within that of the searcher. */
  ghost predicate InReach(kw: Keyword, maxK: int, v: bytes) {
    kw.fuzzy > 0 && maxK > 0 && WithinEdits(v, kw.value, kw.fuzzy) && WithinEdits(v, kw.value, maxK)
  }

  lemma SamePlace(p: Place, q: Place)
    requires p.Group() == q.Group() > 0 && p.entry == q.entry
    ensures p == q
  {
  }

  ghost function EntryOf(p: Place): nat {
    p.entry
  }

  /** Where the field of a place comes in an order of the fields. */
  ghost function PlaceOfField(order: seq<uint64>): Place -> nat {
    (p: Place) => if p.KeywordIn? && p.field in order then var j: nat :| j < |order| && order[j] == p.field; j else 0
  }

  lemma FieldPlaced(order: seq<uint64>, h: uint64)
    requires h in order && forall i, j | 0 <= i < j < |order| :: order[i] != order[j]
    ensures forall i :: var j := PlaceOfField(order)(KeywordIn(i, h)); j < |order| && order[j] == h
    ensures forall i, k: nat | k < |order| && order[k] == h :: PlaceOfField(order)(KeywordIn(i, h)) == k
  {
  }

  ghost function CloseAt(k: nat, keyword: bytes, ts: seq<Token>, n: nat): nat -> bool {
    (i: nat) => i < n && i < |ts| && Close(k, keyword, ts[i])
  }

  ghost function TokenAt(ts: seq<Token>): (nat, Token) -> bool {
    (i: nat, t: Token) => i < |ts| && t == ts[i]
  }

  predicate Earlier(i: nat, j: nat) {
    i < j
  }

  /** Of ascending positions, one that is not among the first n comes behind them, and there are more than n. */
  lemma BehindFirst(at: seq<nat>, n: nat, i: nat)
    requires n <= |at| && i in at && i !in at[..n] && forall k, l | 0 <= k < l < |at| :: at[k] < at[l]
    ensures n < |at| && forall j | 0 <= j < n :: at[j] < i
  {
    var l: nat :| l < |at| && at[l] == i;
    AmongFirst(at, n);
  }

  lemma AmongFirst(at: seq<nat>, n: nat)
    requires n <= |at|
    ensures forall l | 0 <= l < n :: at[l] in at[..n]
  {
    forall l | 0 <= l < n
      ensures at[l] in at[..n]
    {
      assert at[..n][l] == at[l];
    }
  }

  lemma {:induction false} MatchingListed(k: nat, keyword: bytes, ts: seq<Token>, n: nat)
    requires n <= |ts|
    ensures Listable(Matching(k, keyword, ts, n), CloseAt(k, keyword, ts, n), TokenAt(ts), Earlier)
  {
    if n == 0 {
      NothingListable<nat, Token>(CloseAt(k, keyword, ts, 0), TokenAt(ts), Earlier);
    } else {
      MatchingListed(k, keyword, ts, n - 1);
      var last: nat -> bool := i => i == n - 1 && Close(k, keyword, ts[n - 1]);
      var piece := if Close(k, keyword, ts[n - 1]) then [ts[n - 1]] else [];
      if Close(k, keyword, ts[n - 1]) {
        OneListable<nat, Token>(ts[n - 1], n - 1, last, TokenAt(ts), Earlier);
      } else {
        NothingListable<nat, Token>(last, TokenAt(ts), Earlier);
      }
      ListableJoined<nat, Token>(Matching(k, keyword, ts, n - 1), CloseAt(k, keyword, ts, n - 1), piece, last,
                                 CloseAt(k, keyword, ts, n), TokenAt(ts), Earlier);
    }
  }

  ghost predicate TableReady(ts: seq<Token>) {
    Sorted(ts) && forall i | 0 <= i < |ts| :: ts[i].value.size <= MaxRawValueSize
  }

  ghost predicate Exact(ts: seq<Token>, v: bytes) {
    exists i :: 0 <= i < |ts| && ts[i].Bytes() == v
  }

  ghost function ExactToken(ts: seq<Token>, v: bytes): seq<Token>
    requires Exact(ts, v)
  {
    var i :| 0 <= i < |ts| && ts[i].Bytes() == v;
    [ts[i]]
  }

  lemma ExactAt(ts: seq<Token>, v: bytes, i: nat)
    requires Sorted(ts) && i < |ts| && ts[i].Bytes() == v
    ensures Exact(ts, v) && ExactToken(ts, v) == [ts[i]]
  {
    forall j: nat | j < |ts| && ts[j].Bytes() == v
      ensures j == i
    {
      TokensDistinct(ts, i, j);
    }
  }
}
