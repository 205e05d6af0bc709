/** query/clause.go, `Scoring` and `QueryContext`: the scores of the candidates, ascending by document. */
module QueryContexts {
  import opened Headers
  import opened Bitmaps

  /** What is added to a score: points of a field ranking, or the terms of one BM25 summand. */
  datatype Contribution = Points(points: nat) | Weighted(weight: real, avg: uint32, tf: uint32, dl: uint32)

  /** A score as everything that was added to it, in order. */
  datatype Score = Score(index: uint32, trail: seq<Contribution>)

  ghost predicate Ordered(scores: seq<Score>) {
    forall i, j | 0 <= i < j < |scores| :: scores[i].index < scores[j].index
  }

  ghost predicate HasScore(scores: seq<Score>, d: uint32) {
    exists i :: 0 <= i < |scores| && scores[i].index == d
  }

  /** The scores are those of the documents in `b`. */
  ghost predicate Over(scores: seq<Score>, b: Bitmap) {
    Ordered(scores) && |scores| == |b| && forall d {:trigger HasScore(scores, d)} :: d in b <==> HasScore(scores, d)
  }

  /** Document `d` has its score at position `p`. */
  ghost predicate At(scores: seq<Score>, d: uint32, p: nat) {
    p < |scores| && scores[p].index == d
  }

  ghost predicate GrownAt(before: seq<Score>, after: seq<Score>, more: uint32 -> seq<Contribution>, i: nat)
    requires i < |before| == |after|
  {
    after[i].index == before[i].index && after[i].trail == before[i].trail + more(before[i].index)
  }

  /** The same scores, but `more(d)` has been added to that of each document d. */
  ghost predicate Grown(before: seq<Score>, after: seq<Score>, more: uint32 -> seq<Contribution>) {
    && |after| == |before|
    && forall i: nat {:trigger GrownAt(before, after, more, i)} | i < |before| :: GrownAt(before, after, more, i)
  }

  lemma GrownTwice(a: seq<Score>, b: seq<Score>, c: seq<Score>, f: uint32 -> seq<Contribution>,
                   g: uint32 -> seq<Contribution>, h: uint32 -> seq<Contribution>)
    requires Grown(a, b, f) && Grown(b, c, g) && forall d :: h(d) == f(d) + g(d)
    ensures Grown(a, c, h)
  {
    forall i: nat | i < |a|
      ensures GrownAt(a, c, h, i)
    {
      assert GrownAt(a, b, f, i) && GrownAt(b, c, g, i);
      assert a[i].trail + f(a[i].index) + g(a[i].index) == a[i].trail + (f(a[i].index) + g(a[i].index));
    }
  }

  lemma OverAt(scores: seq<Score>, b: Bitmap, d: uint32) returns (p: nat)
    requires Over(scores, b) && d in b
    ensures At(scores, d, p)
  {
    assert HasScore(scores, d);
    p :| p < |scores| && scores[p].index == d;
  }

  lemma OverIn(scores: seq<Score>, b: Bitmap, p: nat)
    requires Over(scores, b) && p < |scores|
    ensures scores[p].index in b
  {
    assert HasScore(scores, scores[p].index);
  }

  class QueryContext {
    var bitmap: Bitmap
    var scores: seq<Score>

    constructor ()
      ensures bitmap == {} && scores == []
    {
      bitmap, scores := {}, [];
    }

    /** `Reset`: a score of nothing for every candidate. */
    method Reset()
      modifies this`scores
      ensures Over(scores, bitmap) && forall i | 0 <= i < |scores| :: scores[i].trail == []
    {
      var docs := ToArray(bitmap);
      scores := seq(|docs|, i requires 0 <= i < |docs| => Score(docs[i], []));
      forall d
        ensures d in bitmap <==> HasScore(scores, d)
      {
        if d in Elements(docs) {
          var i :| 0 <= i < |docs| && docs[i] == d;
          assert scores[i].index == d;
        }
        if i :| 0 <= i < |scores| && scores[i].index == d {
          assert docs[i] in Elements(docs);
        }
      }
    }

    /**
     The search of `BinarySearch`, `Add` and `Get`: the first position from `guess` on that is not below the document.
     */
    method Search(guess: nat, idx: uint32) returns (i: nat)
      requires Ordered(scores) && guess <= |scores|
      ensures guess <= i <= |scores|
      ensures forall l | guess <= l < i :: scores[l].index < idx
      ensures forall l | i <= l < |scores| :: scores[l].index >= idx
    {
      i := guess;
      var j := |scores|;
      while i < j
        invariant guess <= i <= j <= |scores|
        invariant forall l | guess <= l < i :: scores[l].index < idx
        invariant forall l | j <= l < |scores| :: scores[l].index >= idx
      {
        var h := guess + (i - guess + (j - guess)) / 2;
        if scores[h].index < idx {
          i := h + 1;
        } else {
          j := h;
        }
      }
    }

    /** `Add`, for a document that lies at or after `guess`; the position it is found at is the next guess. */
    method Add(guess: nat, idx: uint32, c: Contribution, ghost p: nat) returns (i: nat)
      requires Ordered(scores) && guess <= p && At(scores, idx, p)
      modifies this`scores
      ensures i == p && scores == old(scores)[p := Score(idx, old(scores)[p].trail + [c])]
    {
      i := Search(guess, idx);
      scores := scores[i := Score(scores[i].index, scores[i].trail + [c])];
    }

    /** `Get`: the score of a document at or after `guess`, nothing for any other. */
    method Get(guess: nat, idx: uint32) returns (trail: seq<Contribution>)
      requires Ordered(scores) && guess <= |scores|
      ensures (exists p :: guess <= p && At(scores, idx, p))
              ==> exists p :: guess <= p && At(scores, idx, p) && trail == scores[p].trail
      ensures (forall p: nat :: guess <= p ==> !At(scores, idx, p)) ==> trail == []
    {
      var i := Search(guess, idx);
      if i < |scores| && scores[i].index == idx {
        assert At(scores, idx, i);
        return scores[i].trail;
      }
      forall p: nat | guess <= p
        ensures !At(scores, idx, p)
      {
      }
      trail := [];
    }
  }
}
