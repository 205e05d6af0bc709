/** What a clause adds to a document, one summand for each token that counts, in the order of entries and tokens. */
module Hits {
  import opened Collecting
  import opened Headers
  import opened Bitmaps
  import opened Listing
  import opened Options
  import opened Clauses
  import opened QueryContexts
  import opened BM25

  /** Token `at` of the state of a place. */
  datatype TokenHit = TokenHit(place: Place, at: nat)

  function EntryField(c: Clause, p: Place): uint64 {
    match p
    case KeywordIn(i, h) => h
    case KeywordNowhere(i) => 0
    case ScopedKeyword(i) => if i < |c.fieldKeywords| then c.fieldKeywords[i].field else 0
    case ScopedRange(i) => if i < |c.fieldRanges| then c.fieldRanges[i].field else 0
  }

  function EntryBoost(c: Clause, p: Place): real {
    match p
    case KeywordIn(i, h) => if i < |c.keywords| then c.keywords[i].boost else 0.0
    case KeywordNowhere(i) => if i < |c.keywords| then c.keywords[i].boost else 0.0
    case ScopedKeyword(i) => if i < |c.fieldKeywords| then c.fieldKeywords[i].keyword.boost else 0.0
    case ScopedRange(i) => if i < |c.fieldRanges| then c.fieldRanges[i].boost else 0.0
  }

  ghost function EntryTokens(s: Searcher, c: Clause, p: Place): seq<Token> {
    match p
    case KeywordIn(i, h) => if i < |c.keywords| then s.ScopedTokens(h, c.keywords[i]) else []
    case KeywordNowhere(i) => []
    case ScopedKeyword(i) =>
      if i < |c.fieldKeywords| then s.ScopedTokens(c.fieldKeywords[i].field, c.fieldKeywords[i].keyword) else []
    case ScopedRange(i) =>
      if i < |c.fieldRanges| then s.RangedTokens(c.fieldRanges[i].field, c.fieldRanges[i].range) else []
  }

  /** Entries in order, and the tokens of an entry in order. */
  ghost predicate HitBefore(a: TokenHit, b: TokenHit) {
    Precedes(a.place, b.place) || (a.place == b.place && a.at < b.at)
  }

  /** The token posts the document and is not skipped. */
  ghost function HitCounts(s: Searcher, c: Clause, w: Weights, d: uint32): TokenHit -> bool {
    (hit: TokenHit) =>
      var ts, h := EntryTokens(s, c, hit.place), EntryField(c, hit.place);
      && hit.at < |ts| && h in s.tables.fields && d in s.ListOf(ts[hit.at])
      && !Weightless(w, EntryBoost(c, hit.place), |s.tables.fields[h].documentLengths|, ts[hit.at])
  }

  /** What it adds. */
  ghost function HitAdds(s: Searcher, b: Bitmap, c: Clause, w: Weights, d: uint32): (TokenHit, Contribution) -> bool {
    (hit: TokenHit, x: Contribution) =>
      var ts, h := EntryTokens(s, c, hit.place), EntryField(c, hit.place);
      && hit.at < |ts| && h in s.tables.fields
      && TokenTerms(s, b, w, EntryBoost(c, hit.place), s.tables.fields[h], ts[hit.at])(d) == [x]
  }

  /** A state that stands at a place of its clause. */
  ghost predicate Stated(s: Searcher, c: Clause, p: Place, state: ClauseState) {
    s.Yields(c, false, p) && s.IsState(c, p, state)
  }

  lemma StatedEntry(s: Searcher, c: Clause, p: Place, state: ClauseState)
    requires Stated(s, c, p, state)
    ensures state.tokens == EntryTokens(s, c, p) != [] && state.boost == EntryBoost(c, p)
    ensures EntryField(c, p) in s.tables.fields && state.field == Some(EntryField(c, p))
  {
  }

  ghost function NumberOf(): TokenHit -> nat {
    (hit: TokenHit) => hit.at
  }

  ghost function HitsAt(s: Searcher, c: Clause, w: Weights, d: uint32, p: Place): TokenHit -> bool {
    (hit: TokenHit) => hit.place == p && HitCounts(s, c, w, d)(hit)
  }

  lemma TokenAdds(s: Searcher, b: Bitmap, c: Clause, w: Weights, d: uint32, p: Place, state: ClauseState, i: nat)
    requires i < |state.tokens| && state.tokens == EntryTokens(s, c, p) && state.boost == EntryBoost(c, p)
    requires EntryField(c, p) in s.tables.fields && state.field == Some(EntryField(c, p))
    ensures var terms := TokenTermsAt(s, b, w, state, d)(i);
            if HitCounts(s, c, w, d)(TokenHit(p, i)) then
              |terms| == 1 && HitAdds(s, b, c, w, d)(TokenHit(p, i), terms[0])
            else terms == []
  {
    var f := s.tables.fields[EntryField(c, p)];
    var terms := TokenTermsAt(s, b, w, state, d)(i);
    assert terms == TokenTerms(s, b, w, state.boost, f, state.tokens[i])(d);
    if HitCounts(s, c, w, d)(TokenHit(p, i)) {
      assert terms == [terms[0]];
    }
  }

  lemma OnlyHit(s: Searcher, c: Clause, w: Weights, d: uint32, p: Place, i: nat)
    ensures forall x :: Piece(HitsAt(s, c, w, d, p), NumberOf(), i)(x)
                        <==> x == TokenHit(p, i) && HitCounts(s, c, w, d)(TokenHit(p, i))
  {
    forall x
      ensures Piece(HitsAt(s, c, w, d, p), NumberOf(), i)(x)
              <==> x == TokenHit(p, i) && HitCounts(s, c, w, d)(TokenHit(p, i))
    {
      assert x.place == p && x.at == i ==> x == TokenHit(p, i);
    }
  }

  lemma TokenListed(s: Searcher, b: Bitmap, c: Clause, w: Weights, d: uint32, p: Place, state: ClauseState, i: nat)
    requires Stated(s, c, p, state) && i < |state.tokens|
    ensures Listable(TokenTermsAt(s, b, w, state, d)(i), Piece(HitsAt(s, c, w, d, p), NumberOf(), i),
                     HitAdds(s, b, c, w, d), HitBefore)
  {
    StatedEntry(s, c, p, state);
    TokenAdds(s, b, c, w, d, p, state, i);
    OnlyHit(s, c, w, d, p, i);
    OneOrNone(TokenTermsAt(s, b, w, state, d)(i), TokenHit(p, i), HitCounts(s, c, w, d),
              Piece(HitsAt(s, c, w, d, p), NumberOf(), i), HitAdds(s, b, c, w, d), HitBefore);
  }

  lemma HitsNumbered(s: Searcher, c: Clause, w: Weights, d: uint32, p: Place, n: nat)
    requires n == |EntryTokens(s, c, p)|
    ensures forall hit | HitsAt(s, c, w, d, p)(hit) :: NumberOf()(hit) < n
  {
    forall hit | HitsAt(s, c, w, d, p)(hit)
      ensures NumberOf()(hit) < n
    {
      assert hit.place == p && HitCounts(s, c, w, d)(hit);
    }
  }

  /** One state: its tokens in order. */
  lemma StateListed(s: Searcher, b: Bitmap, c: Clause, w: Weights, d: uint32, p: Place, state: ClauseState)
    requires Stated(s, c, p, state)
    ensures Listable(StateTerms(s, b, w, state)(d), HitsAt(s, c, w, d, p), HitAdds(s, b, c, w, d), HitBefore)
  {
    var f, valid, n := TokenTermsAt(s, b, w, state, d), HitsAt(s, c, w, d, p), |state.tokens|;
    forall i: nat | i < n
      ensures Listable(f(i), Piece(valid, NumberOf(), i), HitAdds(s, b, c, w, d), HitBefore)
    {
      TokenListed(s, b, c, w, d, p, state, i);
    }
    CollectListed(n, f, valid, NumberOf(), HitAdds(s, b, c, w, d), HitBefore);
    StatedEntry(s, c, p, state);
    HitsNumbered(s, c, w, d, p, n);
    ListableSame(Collect(n, f), Below(valid, NumberOf(), n), valid, HitAdds(s, b, c, w, d), HitBefore);
  }

  /** Where the place of a hit comes among the places of the states. */
  ghost function StateOf(places: seq<Place>): TokenHit -> nat {
    (hit: TokenHit) => if hit.place in places then var k: nat :| k < |places| && places[k] == hit.place; k else 0
  }

  ghost predicate InSequence(places: seq<Place>) {
    forall i, j | 0 <= i < j < |places| :: Precedes(places[i], places[j])
  }

  lemma PlacedOnce(places: seq<Place>, k: nat, i: nat)
    requires InSequence(places) && k < |places|
    ensures StateOf(places)(TokenHit(places[k], i)) == k
  {
  }

  lemma PlacesPieced(places: seq<Place>, valid: TokenHit -> bool)
    requires InSequence(places) && forall hit | valid(hit) :: hit.place in places
    ensures Pieced(valid, StateOf(places), HitBefore)
  {
  }

  ghost predicate AllStated(s: Searcher, c: Clause, states: seq<ClauseState>, places: seq<Place>) {
    && |places| == |states| && InSequence(places)
    && (forall p :: p in places <==> s.Yields(c, false, p))
    && forall k {:trigger states[k]} | 0 <= k < |states| :: Stated(s, c, places[k], states[k])
  }

  lemma HitStands(s: Searcher, c: Clause, w: Weights, d: uint32, hit: TokenHit)
    requires HitCounts(s, c, w, d)(hit)
    ensures s.Yields(c, false, hit.place)
  {
  }

  lemma StateNumbered(s: Searcher, b: Bitmap, c: Clause, w: Weights, d: uint32, states: seq<ClauseState>,
                      places: seq<Place>, k: nat)
    requires AllStated(s, c, states, places) && k < |states|
    ensures Listable(StateTermsAt(s, b, w, states, d)(k), Piece(HitCounts(s, c, w, d), StateOf(places), k),
                     HitAdds(s, b, c, w, d), HitBefore)
  {
    var p := places[k];
    assert Stated(s, c, p, states[k]);
    StateListed(s, b, c, w, d, p, states[k]);
    forall hit
      ensures HitsAt(s, c, w, d, p)(hit) <==> Piece(HitCounts(s, c, w, d), StateOf(places), k)(hit)
    {
      PlacedOnce(places, k, hit.at);
      if HitCounts(s, c, w, d)(hit) {
        HitStands(s, c, w, d, hit);
      }
    }
    ListableSame(StateTerms(s, b, w, states[k])(d), HitsAt(s, c, w, d, p),
                 Piece(HitCounts(s, c, w, d), StateOf(places), k), HitAdds(s, b, c, w, d), HitBefore);
  }

  lemma HitsPlaced(s: Searcher, c: Clause, w: Weights, d: uint32, states: seq<ClauseState>, places: seq<Place>)
    requires AllStated(s, c, states, places)
    ensures forall hit | HitCounts(s, c, w, d)(hit) :: hit.place in places && StateOf(places)(hit) < |states|
  {
    forall hit | HitCounts(s, c, w, d)(hit)
      ensures hit.place in places && StateOf(places)(hit) < |states|
    {
      HitStands(s, c, w, d, hit);
    }
  }

  lemma StatedInOrder(s: Searcher, c: Clause, states: seq<ClauseState>) returns (places: seq<Place>)
    requires s.InOrder(c, false, states)
    ensures AllStated(s, c, states, places)
  {
    places :| Listed(states, places, s.Yielding(c, false), s.StateAt(c), Precedes);
    forall k | 0 <= k < |states|
      ensures Stated(s, c, places[k], states[k])
    {
      assert places[k] in places;
      assert s.Yielding(c, false)(places[k]) && s.StateAt(c)(places[k], states[k]);
    }
    forall p
      ensures p in places <==> s.Yields(c, false, p)
    {
      assert s.Yielding(c, false)(p) <==> s.Yields(c, false, p);
    }
  }

  /**
   What a clause adds to a document: one summand for each token of an entry in a field that posts the document and is
   not skipped, no other, in the order of the entries and their tokens.
   */
  lemma ClauseHits(s: Searcher, b: Bitmap, c: Clause, orders: seq<seq<uint64>>, w: Weights, d: uint32)
    requires s.Orders(c, orders)
    ensures var states := s.States(c, orders, false);
            Listable(ClauseTerms(s, b, w, states, |states|)(d), HitCounts(s, c, w, d), HitAdds(s, b, c, w, d),
                     HitBefore)
  {
    var states := s.States(c, orders, false);
    s.StatesInOrder(c, orders, false);
    var places := StatedInOrder(s, c, states);
    var f, valid, n := StateTermsAt(s, b, w, states, d), HitCounts(s, c, w, d), |states|;
    forall k: nat | k < n
      ensures Listable(f(k), Piece(valid, StateOf(places), k), HitAdds(s, b, c, w, d), HitBefore)
    {
      StateNumbered(s, b, c, w, d, states, places, k);
    }
    HitsPlaced(s, c, w, d, states, places);
    PlacesPieced(places, valid);
    CollectListed(n, f, valid, StateOf(places), HitAdds(s, b, c, w, d), HitBefore);
    ListableSame(Collect(n, f), Below(valid, StateOf(places), n), valid, HitAdds(s, b, c, w, d), HitBefore);
  }
}
