/** The ranking by a field, in terms of the documents alone. */
module FieldAnswers {
  import opened Bytes
  import opened Headers
  import opened Bitmaps
  import opened Tables
  import opened Documents
  import opened Build
  import opened Clauses
  import opened QueryContexts
  import opened FieldScoring
  import opened Having

  /** The smallest token that a document has in the field. */
  ghost predicate Smallest(docs: seq<Document>, d: uint32, h: uint64, v: bytes) {
    Has(docs, d, h, v) && forall w | Has(docs, d, h, w) :: !Less(w, v)
  }

  /** Document d comes before e: by its smallest token, and by its number when that is the same. */
  ghost predicate ComesBefore(docs: seq<Document>, h: uint64, d: uint32, e: uint32) {
    exists v, w :: Smallest(docs, d, h, v) && Smallest(docs, e, h, w) && (Less(v, w) || (v == w && d < e))
  }

  ghost predicate HasAnyToken(docs: seq<Document>, d: uint32, h: uint64) {
    exists v :: Has(docs, d, h, v)
  }

  /** A document is ranked exactly when it is a candidate and has a token in the field. */
  ghost predicate Ranks(docs: seq<Document>, h: uint64, b: Bitmap, ranked: seq<uint32>, d: uint32) {
    d in ranked <==> d in b && HasAnyToken(docs, d, h)
  }

  ghost predicate OrderedAt(docs: seq<Document>, h: uint64, ranked: seq<uint32>, i: nat, j: nat)
    requires i < |ranked| && j < |ranked|
  {
    ComesBefore(docs, h, ranked[i], ranked[j])
  }

  /** The candidates that have a token in the field, in that order. */
  ghost predicate RankedByToken(docs: seq<Document>, h: uint64, b: Bitmap, ranked: seq<uint32>) {
    && (forall d {:trigger Ranks(docs, h, b, ranked, d)} :: Ranks(docs, h, b, ranked, d))
    && (forall i: nat, j: nat {:trigger OrderedAt(docs, h, ranked, i, j)} | i < j < |ranked| ::
          OrderedAt(docs, h, ranked, i, j))
  }

  lemma LaterNotLess(ts: seq<Token>, t: nat, i: nat)
    requires Tokens.Sorted(ts) && t <= i < |ts|
    ensures !Less(ts[i].Bytes(), ts[t].Bytes())
  {
    LessTotal(ts[t].Bytes(), ts[i].Bytes());
  }

  /** What a document has in a field is a token whose list has it. */
  lemma HasIsListed(s: Searcher, docs: seq<Document>, ratio: Ratio, h: uint64, d: uint32, w: bytes) returns (i: nat)
    requires IndexOf(s.tables, docs, ratio) && Has(docs, d, h, w)
    ensures h in s.tables.fields
    ensures var ts := s.tables.fields[h].tokens; i < |ts| && ts[i].Bytes() == w && d in ListsOf(s, ts)(i)
  {
    i := HasIsToken(s, docs, ratio, h, w, d);
    ListIsHas(s, docs, ratio, h, i, d);
  }

  lemma NotBelowFirst(s: Searcher, docs: seq<Document>, ratio: Ratio, h: uint64, t: nat, d: uint32, w: bytes)
    requires IndexOf(s.tables, docs, ratio) && h in s.tables.fields && t < |s.tables.fields[h].tokens|
    requires First(ListsOf(s, s.tables.fields[h].tokens), t, d) && Has(docs, d, h, w)
    ensures !Less(w, s.tables.fields[h].tokens[t].Bytes())
  {
    var i := HasIsListed(s, docs, ratio, h, d, w);
    SortedTokens(s, ratio, h);
    LaterNotLess(s.tables.fields[h].tokens, t, i);
  }

  /** The first token whose list has a document is the smallest it has. */
  lemma FirstIsSmallest(s: Searcher, docs: seq<Document>, ratio: Ratio, h: uint64, t: nat, d: uint32)
    requires IndexOf(s.tables, docs, ratio) && h in s.tables.fields && t < |s.tables.fields[h].tokens|
    requires First(ListsOf(s, s.tables.fields[h].tokens), t, d)
    ensures Smallest(docs, d, h, s.tables.fields[h].tokens[t].Bytes())
  {
    ListIsHas(s, docs, ratio, h, t, d);
    forall w | Has(docs, d, h, w)
      ensures !Less(w, s.tables.fields[h].tokens[t].Bytes())
    {
      NotBelowFirst(s, docs, ratio, h, t, d, w);
    }
  }

  lemma BeforeComes(s: Searcher, docs: seq<Document>, ratio: Ratio, h: uint64, t: nat, d: uint32, u: nat, e: uint32)
    requires IndexOf(s.tables, docs, ratio) && h in s.tables.fields
    requires t < |s.tables.fields[h].tokens| && u < |s.tables.fields[h].tokens|
    requires First(ListsOf(s, s.tables.fields[h].tokens), t, d) && First(ListsOf(s, s.tables.fields[h].tokens), u, e)
    requires Before(t, d, u, e)
    ensures ComesBefore(docs, h, d, e)
  {
    SortedTokens(s, ratio, h);
    FirstIsSmallest(s, docs, ratio, h, t, d);
    FirstIsSmallest(s, docs, ratio, h, u, e);
  }

  lemma RankedHas(s: Searcher, docs: seq<Document>, ratio: Ratio, h: uint64, b: Bitmap, ranked: seq<uint32>,
                  under: seq<nat>, d: uint32)
    requires IndexOf(s.tables, docs, ratio) && h in s.tables.fields && d in ranked
    requires var ts := s.tables.fields[h].tokens; Ranked(ListsOf(s, ts), b, |ts|, ranked, under)
    ensures d in b && HasAnyToken(docs, d, h)
  {
    var ts := s.tables.fields[h].tokens;
    var i :| 0 <= i < |ranked| && ranked[i] == d;
    assert First(ListsOf(s, ts), under[i], d);
    ListIsHas(s, docs, ratio, h, under[i], d);
  }

  lemma HasIsRanked(s: Searcher, docs: seq<Document>, ratio: Ratio, h: uint64, b: Bitmap, ranked: seq<uint32>,
                    d: uint32, v: bytes)
    requires IndexOf(s.tables, docs, ratio) && h in s.tables.fields && d in b && Has(docs, d, h, v)
    requires var ts := s.tables.fields[h].tokens; Complete(ListsOf(s, ts), b, |ts|, ranked)
    ensures d in ranked
  {
    var i := HasIsListed(s, docs, ratio, h, d, v);
  }

  lemma RankingIsByToken(s: Searcher, docs: seq<Document>, ratio: Ratio, h: uint64, b: Bitmap, ranked: seq<uint32>,
                         under: seq<nat>)
    requires IndexOf(s.tables, docs, ratio) && h in s.tables.fields
    requires var ts := s.tables.fields[h].tokens;
             Ranked(ListsOf(s, ts), b, |ts|, ranked, under) && Complete(ListsOf(s, ts), b, |ts|, ranked)
    ensures RankedByToken(docs, h, b, ranked)
  {
    forall d {:trigger Ranks(docs, h, b, ranked, d)}
      ensures Ranks(docs, h, b, ranked, d)
    {
      if d in ranked {
        RankedHas(s, docs, ratio, h, b, ranked, under, d);
      }
      if v :| d in b && Has(docs, d, h, v) {
        HasIsRanked(s, docs, ratio, h, b, ranked, d, v);
      }
    }
    forall i: nat, j: nat {:trigger OrderedAt(docs, h, ranked, i, j)} | i < j < |ranked|
      ensures OrderedAt(docs, h, ranked, i, j)
    {
      BeforeComes(s, docs, ratio, h, under[i], ranked[i], under[j], ranked[j]);
    }
  }

  /** The points of a ranking by token: as many as there are candidates for the first, and one less for each next. */
  ghost predicate PointsByToken(docs: seq<Document>, h: uint64, b: Bitmap, scores: seq<Score>) {
    exists ranked :: RankedByToken(docs, h, b, ranked) && Awarded(scores, ranked, |b|)
  }

  lemma RankingGivesPoints(s: Searcher, docs: seq<Document>, ratio: Ratio, h: uint64, b: Bitmap, scores: seq<Score>)
    requires IndexOf(s.tables, docs, ratio) && h in s.tables.fields
    requires Ranking(ListsOf(s, s.tables.fields[h].tokens), |s.tables.fields[h].tokens|, b, scores)
    ensures PointsByToken(docs, h, b, scores)
  {
    var ts := s.tables.fields[h].tokens;
    var ranked, under :| Ranked(ListsOf(s, ts), b, |ts|, ranked, under) && Complete(ListsOf(s, ts), b, |ts|, ranked)
                         && Awarded(scores, ranked, |b|);
    RankingIsByToken(s, docs, ratio, h, b, ranked, under);
  }

  /**
   Ranking by a field, over an index: the candidates that have a token in it are ranked by their smallest token and then
   by number, and get n, n - 1, ... points, n being the number of candidates; the others get nothing.
   */
  method RankByField(s: Searcher, ctx: QueryContext, h: uint64, ghost docs: seq<Document>, ghost ratio: Ratio)
    requires IndexOf(s.tables, docs, ratio)
    modifies ctx`scores
    ensures !Named(docs, |docs|, h) ==> ctx.scores == old(ctx.scores)
    ensures Named(docs, |docs|, h) ==> Over(ctx.scores, ctx.bitmap) && PointsByToken(docs, h, ctx.bitmap, ctx.scores)
  {
    FieldScore(s, ctx, h);
    if h in s.tables.fields {
      RankingGivesPoints(s, docs, ratio, h, ctx.bitmap, ctx.scores);
    }
  }

  lemma SmallestOnce(docs: seq<Document>, d: uint32, h: uint64, v: bytes, w: bytes)
    requires Smallest(docs, d, h, v) && Smallest(docs, d, h, w)
    ensures v == w
  {
    LessTotal(v, w);
  }

  lemma NotBothBefore(docs: seq<Document>, h: uint64, d: uint32, e: uint32)
    requires ComesBefore(docs, h, d, e)
    ensures !ComesBefore(docs, h, e, d) && d != e
  {
    var v, w :| Smallest(docs, d, h, v) && Smallest(docs, e, h, w) && (Less(v, w) || (v == w && d < e));
    LessTotal(v, w);
    if v', w' :| Smallest(docs, e, h, v') && Smallest(docs, d, h, w') && (Less(v', w') || (v' == w' && e < d)) {
      SmallestOnce(docs, e, h, v', w);
      SmallestOnce(docs, d, h, w', v);
    }
    if d == e {
      SmallestOnce(docs, d, h, v, w);
    }
  }

  lemma RankOf(docs: seq<Document>, h: uint64, b: Bitmap, ranked: seq<uint32>, scores: seq<Score>, p: nat, v: bytes)
      returns (i: nat)
    requires RankedByToken(docs, h, b, ranked) && Over(scores, b) && p < |scores| && Has(docs, scores[p].index, h, v)
    ensures i < |ranked| && ranked[i] == scores[p].index
  {
    OverIn(scores, b, p);
    assert Ranks(docs, h, b, ranked, scores[p].index);
    i :| i < |ranked| && ranked[i] == scores[p].index;
  }

  lemma RanksInOrder(docs: seq<Document>, h: uint64, b: Bitmap, ranked: seq<uint32>, i: nat, j: nat)
    requires RankedByToken(docs, h, b, ranked) && i < |ranked| && j < |ranked|
    requires ComesBefore(docs, h, ranked[i], ranked[j])
    ensures i < j
  {
    NotBothBefore(docs, h, ranked[i], ranked[j]);
    assert j < i ==> OrderedAt(docs, h, ranked, j, i);
  }

  ghost predicate GetsMore(a: Score, b: Score, top: nat) {
    exists x: nat, y: nat :: a.trail == [Points(x)] && b.trail == [Points(y)] && y < x <= top
  }

  lemma EarlierGetsMore(scores: seq<Score>, ranked: seq<uint32>, top: nat, p: nat, q: nat, i: nat, j: nat)
    requires Awarded(scores, ranked, top) && i < j < |ranked| && p < |scores| && q < |scores|
    requires scores[p].index == ranked[i] && scores[q].index == ranked[j]
    ensures GetsMore(scores[p], scores[q], top)
  {
    assert scores[p].trail == [Points(top - i)] && scores[q].trail == [Points(top - j)];
  }

  /** Of two candidates, the one with the smaller token, or the smaller number under the same one, gets more points. */
  lemma SmallerGetsMore(docs: seq<Document>, h: uint64, b: Bitmap, scores: seq<Score>, p: nat, q: nat)
    requires Over(scores, b) && PointsByToken(docs, h, b, scores) && p < |scores| && q < |scores|
    requires ComesBefore(docs, h, scores[p].index, scores[q].index)
    ensures GetsMore(scores[p], scores[q], |b|)
  {
    var ranked :| RankedByToken(docs, h, b, ranked) && Awarded(scores, ranked, |b|);
    var d, e := scores[p].index, scores[q].index;
    var v, w :| Smallest(docs, d, h, v) && Smallest(docs, e, h, w);
    var i := RankOf(docs, h, b, ranked, scores, p, v);
    var j := RankOf(docs, h, b, ranked, scores, q, w);
    RanksInOrder(docs, h, b, ranked, i, j);
    EarlierGetsMore(scores, ranked, |b|, p, q, i, j);
  }
}
