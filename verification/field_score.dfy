/** query/searcher_fields.go: ranking the candidates by a field. */
module FieldScoring {
  import opened Headers
  import opened Bitmaps
  import opened Clauses
  import opened QueryContexts

  /** Token `t` is the first of the field whose list has document `d`. */
  ghost predicate First(lists: nat -> Bitmap, t: nat, d: uint32) {
    d in lists(t) && forall u: nat | u < t :: d !in lists(u)
  }

  /** Document d, first found under token t, comes before e, first found under u. */
  ghost predicate Before(t: nat, d: uint32, u: nat, e: uint32) {
    t < u || (t == u && d < e)
  }

  /** The ranking so far: document `ranked[i]`, first found under token `under[i]`. */
  ghost predicate Ranked(lists: nat -> Bitmap, b: Bitmap, n: nat, ranked: seq<uint32>, under: seq<nat>) {
    && |under| == |ranked|
    && (forall i | 0 <= i < |ranked| :: ranked[i] in b && under[i] < n && First(lists, under[i], ranked[i]))
    && (forall i, j | 0 <= i < j < |ranked| :: Before(under[i], ranked[i], under[j], ranked[j]))
  }

  /** Everything that one of the first `n` tokens finds is ranked. */
  ghost predicate Complete(lists: nat -> Bitmap, b: Bitmap, n: nat, ranked: seq<uint32>) {
    forall d, t: nat {:trigger d in b, lists(t)} | d in b && t < n && d in lists(t) :: d in ranked
  }

  /** The i-th of the ranking has the one score top - i, and every other document none. */
  ghost predicate Awarded(scores: seq<Score>, ranked: seq<uint32>, top: nat) {
    && (forall i, p | 0 <= i < |ranked| && 0 <= p < |scores| && scores[p].index == ranked[i] ::
          i < top && scores[p].trail == [Points(top - i)])
    && (forall p | 0 <= p < |scores| && scores[p].index !in ranked :: scores[p].trail == [])
  }

  lemma AwardNext(scores: seq<Score>, ranked: seq<uint32>, top: nat, d: uint32, p: nat)
    requires Ordered(scores) && Awarded(scores, ranked, top) && d !in ranked && At(scores, d, p) && |ranked| < top
    ensures Awarded(scores[p := Score(d, scores[p].trail + [Points(top - |ranked|)])], ranked + [d], top)
  {
    var after := scores[p := Score(d, scores[p].trail + [Points(top - |ranked|)])];
    assert scores[p].trail == [];
    forall i, q | 0 <= i < |ranked + [d]| && 0 <= q < |after| && after[q].index == (ranked + [d])[i]
      ensures i < top && after[q].trail == [Points(top - i)]
    {
      if q == p {
        assert i == |ranked|;
      } else {
        assert i < |ranked|;
        assert scores[q].index == ranked[i];
      }
    }
    forall q | 0 <= q < |after| && after[q].index !in ranked + [d]
      ensures after[q].trail == []
    {
      assert (ranked + [d])[|ranked|] == d;
      assert q != p;
      assert scores[q].index !in ranked;
    }
  }

  /** The documents resolved under token `n`, ascending, follow those ranked under earlier tokens. */
  lemma RankMore(lists: nat -> Bitmap, b: Bitmap, n: nat, ranked: seq<uint32>, under: seq<nat>, docs: seq<uint32>)
    requires Ranked(lists, b, n, ranked, under) && Complete(lists, b, n, ranked) && Ascending(docs)
    requires forall i | 0 <= i < |docs| :: docs[i] in b && docs[i] in lists(n) && docs[i] !in ranked
    ensures Ranked(lists, b, n + 1, ranked + docs, under + seq(|docs|, _ => n))
  {
    var more, tokens := ranked + docs, under + seq(|docs|, _ => n);
    forall i | 0 <= i < |more|
      ensures more[i] in b && tokens[i] < n + 1 && First(lists, tokens[i], more[i])
    {
      if i >= |ranked| {
        assert more[i] == docs[i - |ranked|];
      }
    }
    forall i, j | 0 <= i < j < |more|
      ensures Before(tokens[i], more[i], tokens[j], more[j])
    {
    }
  }

  lemma CompleteMore(lists: nat -> Bitmap, b: Bitmap, n: nat, ranked: seq<uint32>, docs: seq<uint32>)
    requires Complete(lists, b, n, ranked) && forall d | d in b && d in lists(n) && d !in ranked :: d in docs
    ensures Complete(lists, b, n + 1, ranked + docs)
  {
  }

  /** After the first `n` tokens: the ranking, the awards, and what is still pending. */
  ghost predicate Standing(lists: nat -> Bitmap, b: Bitmap, scores: seq<Score>, n: nat, pending: Bitmap,
                           ranked: seq<uint32>, under: seq<nat>) {
    && Over(scores, b) && Ranked(lists, b, n, ranked, under) && Complete(lists, b, n, ranked)
    && Awarded(scores, ranked, |b|) && |pending| + |ranked| == |b|
    && (forall d :: d in pending <==> d in b && d !in ranked)
  }

  /** The next position to look from: the last document that was found, or the start. */
  ghost predicate Guess(scores: seq<Score>, docs: seq<uint32>, j: nat, guess: nat) {
    j <= |docs| && (if j == 0 then guess == 0 else At(scores, docs[j - 1], guess))
  }

  /** A later document lies at or after the guess. */
  lemma GuessBelow(scores: seq<Score>, docs: seq<uint32>, j: nat, guess: nat, p: nat)
    requires Ordered(scores) && Ascending(docs) && j < |docs| && Guess(scores, docs, j, guess) && At(scores, docs[j], p)
    ensures guess <= p
  {
  }

  /** The first `j` of the documents resolved under one token have got the next scores down. */
  ghost predicate Awarding(scores: seq<Score>, b: Bitmap, ranked: seq<uint32>, docs: seq<uint32>, j: nat, guess: nat,
                           given: nat) {
    && Over(scores, b) && Guess(scores, docs, j, guess) && given == |ranked| + j
    && Awarded(scores, ranked + docs[..j], |b|)
  }

  /** Documents that can be awarded: candidates, ascending, none of them ranked, and scores left for all. */
  ghost predicate Awardable(b: Bitmap, ranked: seq<uint32>, docs: seq<uint32>) {
    Ascending(docs) && (forall i | 0 <= i < |docs| :: docs[i] in b && docs[i] !in ranked) && |ranked| + |docs| <= |b|
  }

  method AwardDocuments(ctx: QueryContext, docs: seq<uint32>, given: nat, ghost ranked: seq<uint32>)
      returns (given': nat)
    requires Over(ctx.scores, ctx.bitmap) && Awardable(ctx.bitmap, ranked, docs)
    requires Awarded(ctx.scores, ranked, |ctx.bitmap|) && given == |ranked|
    modifies ctx`scores
    ensures Over(ctx.scores, ctx.bitmap) && Awarded(ctx.scores, ranked + docs, |ctx.bitmap|)
    ensures given' == |ranked + docs|
  {
    given' := given;
    var guess := 0;
    assert ranked + docs[..0] == ranked;
    for j := 0 to |docs|
      invariant Awarding(ctx.scores, ctx.bitmap, ranked, docs, j, guess, given')
    {
      guess := AwardDocument(ctx, docs, j, guess, given', ranked);
      given' := given' + 1;
    }
    assert docs[..|docs|] == docs;
  }

  method AwardDocument(ctx: QueryContext, docs: seq<uint32>, j: nat, guess: nat, given: nat, ghost ranked: seq<uint32>)
      returns (guess': nat)
    requires Awardable(ctx.bitmap, ranked, docs) && j < |docs|
    requires Awarding(ctx.scores, ctx.bitmap, ranked, docs, j, guess, given)
    modifies ctx`scores
    ensures Awarding(ctx.scores, ctx.bitmap, ranked, docs, j + 1, guess', given + 1)
  {
    ghost var p := OverAt(ctx.scores, ctx.bitmap, docs[j]);
    GuessBelow(ctx.scores, docs, j, guess, p);
    ghost var done := ranked + docs[..j];
    assert docs[j] !in done;
    AwardNext(ctx.scores, done, |ctx.bitmap|, docs[j], p);
    OverUpdated(ctx.scores, ctx.bitmap, p, Score(docs[j], ctx.scores[p].trail + [Points(|ctx.bitmap| - |done|)]));
    assert done + [docs[j]] == ranked + docs[..j + 1];
    guess' := ctx.Add(guess, docs[j], Points(|ctx.scores| - given), p);
  }

  lemma OverUpdated(scores: seq<Score>, b: Bitmap, p: nat, s: Score)
    requires Over(scores, b) && p < |scores| && s.index == scores[p].index
    ensures Over(scores[p := s], b)
  {
    var after := scores[p := s];
    forall d
      ensures d in b <==> HasScore(after, d)
    {
      assert HasScore(scores, d) <==> d in b;
      if d in b {
        var i :| 0 <= i < |scores| && scores[i].index == d;
        assert after[i].index == d;
      }
      if i :| 0 <= i < |after| && after[i].index == d {
        assert scores[i].index == d;
      }
    }
  }

  ghost function ListsOf(s: Searcher, tokens: seq<Token>): nat -> Bitmap {
    (t: nat) => if t < |tokens| then s.ListOf(tokens[t]) else {}
  }

  /** List t is the posting list of token t. */
  ghost predicate ListsAre(s: Searcher, tokens: seq<Token>, lists: nat -> Bitmap) {
    forall t: nat | t < |tokens| :: lists(t) == s.ListOf(tokens[t])
  }

  lemma PendingShrinks(pending: Bitmap, list: Bitmap)
    ensures |pending * list| + |pending - list| == |pending|
  {
  }

  /** One token of the field: what it finds among the pending documents is awarded, and no longer pending. */
  method ScoreToken(ctx: QueryContext, list: Bitmap, pending: Bitmap, given: nat, ghost lists: nat -> Bitmap,
                    ghost n: nat, ghost ranked: seq<uint32>, ghost under: seq<nat>)
      returns (pending': Bitmap, given': nat, ghost ranked': seq<uint32>, ghost under': seq<nat>)
    requires Standing(lists, ctx.bitmap, ctx.scores, n, pending, ranked, under) && list == lists(n) && given == |ranked|
    modifies ctx`scores
    ensures Standing(lists, ctx.bitmap, ctx.scores, n + 1, pending', ranked', under') && given' == |ranked'|
  {
    var docs := ToArray(pending * list);
    PendingShrinks(pending, list);
    ElementsOf(docs, pending * list);
    RankMore(lists, ctx.bitmap, n, ranked, under, docs);
    CompleteMore(lists, ctx.bitmap, n, ranked, docs);
    given' := AwardDocuments(ctx, docs, given, ranked);
    ranked', under' := ranked + docs, under + seq(|docs|, _ => n);
    pending' := pending - list;
  }

  lemma ElementsOf(docs: seq<uint32>, b: Bitmap)
    requires Elements(docs) == b
    ensures forall d :: d in docs <==> d in b
    ensures forall i | 0 <= i < |docs| :: docs[i] in b
  {
    forall d
      ensures d in docs <==> d in b
    {
      if d in docs {
        var i :| 0 <= i < |docs| && docs[i] == d;
        assert docs[i] in Elements(docs);
      }
    }
  }

  /** What a field ranking leaves behind. */
  ghost predicate Ranking(lists: nat -> Bitmap, n: nat, b: Bitmap, scores: seq<Score>) {
    exists ranked, under :: Ranked(lists, b, n, ranked, under) && Complete(lists, b, n, ranked)
                            && Awarded(scores, ranked, |b|)
  }

  /**
   `FieldScore`: the candidates that hold a token of the field are ranked by first token and then by document,
   and scored n, n - 1, ... once each, n being the number of candidates; the others keep no score.
   */
  method FieldScore(s: Searcher, ctx: QueryContext, h: uint64)
    modifies ctx`scores
    ensures h !in s.tables.fields ==> ctx.scores == old(ctx.scores)
    ensures h in s.tables.fields ==>
              var ts := s.tables.fields[h].tokens;
              && Over(ctx.scores, ctx.bitmap) && ListsAre(s, ts, ListsOf(s, ts))
              && Ranking(ListsOf(s, ts), |ts|, ctx.bitmap, ctx.scores)
  {
    if h !in s.tables.fields {
      return;
    }
    var tokens := s.tables.fields[h].tokens;
    ctx.Reset();
    RankTokens(s, ctx, tokens);
  }

  lemma NothingPending(lists: nat -> Bitmap, b: Bitmap, scores: seq<Score>, n: nat, m: nat, ranked: seq<uint32>,
                       under: seq<nat>)
    requires Standing(lists, b, scores, n, {}, ranked, under) && n <= m
    ensures Standing(lists, b, scores, m, {}, ranked, under)
  {
    forall d, t: nat | d in b && t < m && d in lists(t)
      ensures d in ranked
    {
      assert d !in {};
    }
  }

  method RankTokens(s: Searcher, ctx: QueryContext, tokens: seq<Token>)
    requires Over(ctx.scores, ctx.bitmap) && forall i | 0 <= i < |ctx.scores| :: ctx.scores[i].trail == []
    modifies ctx`scores
    ensures Over(ctx.scores, ctx.bitmap) && Ranking(ListsOf(s, tokens), |tokens|, ctx.bitmap, ctx.scores)
  {
    ghost var lists := ListsOf(s, tokens);
    ghost var ranked: seq<uint32>, under: seq<nat> := [], [];
    var pending, given := ctx.bitmap, 0;
    for t := 0 to |tokens|
      invariant Standing(lists, ctx.bitmap, ctx.scores, t, pending, ranked, under) && given == |ranked|
    {
      if pending == {} {
        NothingPending(lists, ctx.bitmap, ctx.scores, t, |tokens|, ranked, under);
        break;
      }
      pending, given, ranked, under := ScoreToken(ctx, s.ListOf(tokens[t]), pending, given, lists, t, ranked, under);
    }
  }
}
