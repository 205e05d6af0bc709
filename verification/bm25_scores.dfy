/** The scores that BM25 leaves behind, with the weights of the inverse document frequency: what they are worth. */
module BM25Scores {
  import opened Bytes
  import opened Collecting
  import opened Headers
  import opened Bitmaps
  import opened Tables
  import opened Documents
  import opened Build
  import opened Clauses
  import opened QueryContexts
  import opened Lookups
  import opened BM25
  import opened BM25Values
  import FastLog
  import Averages

  /** Whatever occurs occurs at least once. */
  ghost predicate Frequent(docs: seq<Document>) {
    forall d: nat, h, v, f | d < |docs| && Defines(docs[d], h, v, f) :: f > 0
  }

  /** The constants of a search, and what the bits of an average are read as. */
  datatype Constants = Constants(saturation: real, penalty: real, average: uint32 -> real)

  const MaxTotal := 0x1_0000_0000_0000_0000

  ghost predicate Averaging(average: uint32 -> real, ratio: Ratio, total: nat, count: nat) {
    average(ratio.built(total, count)) > 0.0 && average(ratio.merged(total, count)) > 0.0
  }

  /** Constants that BM25 can divide by: the average of something is read as positive. */
  ghost predicate Positive(k: Constants, ratio: Ratio) {
    && k.saturation > 0.0 && 0.0 <= k.penalty <= 1.0
    && forall total: nat, count: nat {:trigger Averaging(k.average, ratio, total, count)}
         | 0 < total < MaxTotal && 0 < count < MaxDocuments :: Averaging(k.average, ratio, total, count)
  }

  ghost predicate Rounding(average: uint32 -> real, ratio: Ratio, total: nat, count: nat) {
    && FastLog.IsFloat(ratio.built(total, count), Averages.BuiltAverage(total, count))
    && FastLog.IsFloat(ratio.merged(total, count), Averages.MergedAverage(total, count))
    && average(ratio.built(total, count)) == Averages.BuiltAverage(total, count)
    && average(ratio.merged(total, count)) == Averages.MergedAverage(total, count)
  }

  /** As it is where the bits are those of the two rounded values. */
  lemma RoundedPositive(average: uint32 -> real, ratio: Ratio, total: nat, count: nat)
    requires Rounding(average, ratio, total, count)
    ensures Averaging(average, ratio, total, count)
  {
    FloatPositive(ratio.built(total, count), Averages.BuiltAverage(total, count));
    FloatPositive(ratio.merged(total, count), Averages.MergedAverage(total, count));
  }

  lemma FloatPositive(b: nat, x: real)
    requires FastLog.IsFloat(b, x)
    ensures x > 0.0
  {
    ProductPositive(FastLog.Mantissa(b), FastLog.TwoTo(b / 0x80_0000 - 127));
  }

  /** A field with lengths has an average that BM25 can divide by. */
  lemma AveragePositive(t: Tables, f: Field, ratio: Ratio, k: Constants)
    requires FieldOk(t, f, ratio) && |t.documentsIds| < MaxDocuments && f.documentLengths != [] && Positive(k, ratio)
    ensures k.average(f.avgDocumentLength) > 0.0
  {
    var count := |f.documentLengths|;
    SumBounds(f.documentLengths, count);
    CountBelow(f.documentLengths, |t.documentsIds|);
    assert Averaging(k.average, ratio, f.totalDocumentsLength, count);
  }

  ghost function TellingBy(k: Constants): Contribution -> bool {
    (c: Contribution) => Telling(k.saturation, k.penalty, k.average, c)
  }

  function IdfWeights(k: Constants): Weights {
    Weights(k.saturation, FastLog.Idf)
  }

  /** A token that is not skipped weighs something. */
  lemma WeightPositive(k: Constants, boost: real, documents: nat, token: Token)
    requires k.saturation > 0.0 && boost > 0.0
    ensures Weightless(IdfWeights(k), boost, documents, token) <==> token.frequencyCount > documents || documents == 0
    ensures !Weightless(IdfWeights(k), boost, documents, token) ==> Weight(IdfWeights(k), boost, documents, token) > 0.0
  {
    var idf := FastLog.Idf(documents, token.frequencyCount);
    FastLog.IdfPositive(documents, token.frequencyCount);
    ProductPositive(idf, boost);
    ProductPositive(idf * boost, k.saturation + 1.0);
    ProductPositive(idf, k.saturation + 1.0);
  }

  lemma ProductPositive(a: real, b: real)
    requires a >= 0.0 && b > 0.0
    ensures a * b >= 0.0 && (a * b > 0.0 <==> a > 0.0)
  {
  }

  /** A posted document has the token at least once. */
  lemma FrequencyPositive(s: Searcher, docs: seq<Document>, ratio: Ratio, h: uint64, i: nat, d: uint32)
    requires IndexOf(s.tables, docs, ratio) && Frequent(docs) && h in s.tables.fields && i < |s.tables.fields[h].tokens|
    requires d in s.ListOf(s.tables.fields[h].tokens[i])
    ensures Tf(EntriesOf(s, s.tables.fields[h].tokens[i]), d) > 0
  {
    var token := s.tables.fields[h].tokens[i];
    EntriesOfToken(s.tables, h, i, ratio);
    var es := Slice(s.tables, token);
    var k: nat :| k < |es| && es[k].documentIndex == d;
    TfAt(es, d, k);
    assert |docs| == |Ids(docs)| <= MaxDocuments;
    EntryPositive(docs, h, token.Bytes(), es, k);
  }

  lemma EntryPositive(docs: seq<Document>, h: uint64, v: bytes, es: seq<TokenFrequencyEntry>, k: nat)
    requires Frequent(docs) && |docs| <= MaxDocuments && es == OfDocuments(docs, h, v) && k < |es|
    ensures es[k].frequency > 0
  {
    assert es[k] in es;
    OfDocumentsMembers(docs, h, v, es[k]);
  }

  /** A token that is read has something to divide by. */
  lemma ReadIsMeasured(s: Searcher, b: Bitmap, w: Weights, boost: real, f: Field, token: Token, d: uint32)
    requires TokenReadable(s, b, w, boost, f, token) && !Weightless(w, boost, |f.documentLengths|, token)
    requires d in b && d in s.ListOf(token)
    ensures f.documentLengths != []
  {
    var docs := ToArray(b * s.ListOf(token));
    assert d in Elements(docs);
    assert docs != [];
    assert ReadsSome(f.documentLengths, docs, 0);
  }

  lemma TermTelling(s: Searcher, b: Bitmap, w: Weights, k: Constants, boost: real, f: Field, token: Token, d: uint32)
    requires k.saturation > 0.0 && 0.0 <= k.penalty <= 1.0
    requires d in s.ListOf(token) && !Weightless(w, boost, |f.documentLengths|, token)
             ==> Tf(EntriesOf(s, token), d) > 0 && k.average(f.avgDocumentLength) > 0.0
                 && Weight(w, boost, |f.documentLengths|, token) > 0.0
    ensures EachOf(TokenTerms(s, b, w, boost, f, token)(d), TellingBy(k))
  {
  }

  lemma FieldPositive(s: Searcher, ratio: Ratio, k: Constants, h: uint64)
    requires WellFormed(s.tables, ratio) && h in s.tables.fields && s.tables.fields[h].documentLengths != []
    requires Positive(k, ratio)
    ensures k.average(s.tables.fields[h].avgDocumentLength) > 0.0
  {
    assert FieldOk(s.tables, s.tables.fields[h], ratio);
    AveragePositive(s.tables, s.tables.fields[h], ratio, k);
  }

  /** What one token adds tells something. */
  lemma TokenTelling(s: Searcher, b: Bitmap, docs: seq<Document>, ratio: Ratio, k: Constants, boost: real, h: uint64,
                     i: nat, d: uint32)
    requires IndexOf(s.tables, docs, ratio) && Frequent(docs) && h in s.tables.fields && i < |s.tables.fields[h].tokens|
    requires Positive(k, ratio) && boost > 0.0 && d in b
    requires TokenReadable(s, b, IdfWeights(k), boost, s.tables.fields[h], s.tables.fields[h].tokens[i])
    ensures var f := s.tables.fields[h]; EachOf(TokenTerms(s, b, IdfWeights(k), boost, f, f.tokens[i])(d), TellingBy(k))
  {
    var f := s.tables.fields[h];
    if d in s.ListOf(f.tokens[i]) && !Weightless(IdfWeights(k), boost, |f.documentLengths|, f.tokens[i]) {
      FrequencyPositive(s, docs, ratio, h, i, d);
      ReadIsMeasured(s, b, IdfWeights(k), boost, f, f.tokens[i], d);
      FieldPositive(s, ratio, k, h);
    }
    WeightPositive(k, boost, |f.documentLengths|, f.tokens[i]);
    TermTelling(s, b, IdfWeights(k), k, boost, f, f.tokens[i], d);
  }

  lemma StateTelling(s: Searcher, b: Bitmap, docs: seq<Document>, ratio: Ratio, k: Constants, state: ClauseState,
                     d: uint32)
    requires IndexOf(s.tables, docs, ratio) && Frequent(docs) && Positive(k, ratio) && state.boost > 0.0 && d in b
    requires FromField(s)(state) && StateReadable(s, b, IdfWeights(k))(state)
    ensures EachOf(StateTerms(s, b, IdfWeights(k), state)(d), TellingBy(k))
  {
    CollectEach(|state.tokens|, TokenTermsAt(s, b, IdfWeights(k), state, d), TellingBy(k));
    forall i: nat | i < |state.tokens|
      ensures EachOf(TokenTermsAt(s, b, IdfWeights(k), state, d)(i), TellingBy(k))
    {
      assert ReadableAt(s, b, IdfWeights(k), state, i);
      TokenOfState(s, b, docs, ratio, k, state, i, d);
    }
  }

  lemma TokenOfState(s: Searcher, b: Bitmap, docs: seq<Document>, ratio: Ratio, k: Constants, state: ClauseState,
                     i: nat, d: uint32)
    requires IndexOf(s.tables, docs, ratio) && Frequent(docs) && Positive(k, ratio) && state.boost > 0.0 && d in b
    requires FromField(s)(state) && i < |state.tokens| && ReadableAt(s, b, IdfWeights(k), state, i)
    ensures EachOf(TokenTermsAt(s, b, IdfWeights(k), state, d)(i), TellingBy(k))
  {
    var ts := s.tables.fields[state.field.value].tokens;
    assert state.tokens[i] in ts;
    var j: nat :| j < |ts| && ts[j] == state.tokens[i];
    TokenTelling(s, b, docs, ratio, k, state.boost, state.field.value, j, d);
  }

  ghost predicate Boosted(states: seq<ClauseState>) {
    forall i | 0 <= i < |states| :: states[i].boost > 0.0
  }

  lemma ClauseTelling(s: Searcher, b: Bitmap, docs: seq<Document>, ratio: Ratio, k: Constants, states: seq<ClauseState>,
                      d: uint32)
    requires IndexOf(s.tables, docs, ratio) && Frequent(docs) && Positive(k, ratio) && Boosted(states) && d in b
    requires EachOf(states, FromField(s)) && EachOf(states, StateReadable(s, b, IdfWeights(k)))
    ensures EachOf(ClauseTerms(s, b, IdfWeights(k), states, |states|)(d), TellingBy(k))
  {
    CollectEach(|states|, StateTermsAt(s, b, IdfWeights(k), states, d), TellingBy(k));
    forall i: nat | i < |states|
      ensures EachOf(StateTermsAt(s, b, IdfWeights(k), states, d)(i), TellingBy(k))
    {
      StateTelling(s, b, docs, ratio, k, states[i], d);
    }
  }

  /**
   The score of a candidate that `BM25Score` leaves, once the weights come from the inverse document frequency: every
   summand is positive and at most its weight, so a score is positive as soon as some token that is not skipped posts
   the document.
   */
  lemma ScorePositive(s: Searcher, b: Bitmap, docs: seq<Document>, ratio: Ratio, k: Constants, musts: Clause,
                      shoulds: Clause, mustOrders: seq<seq<uint64>>, shouldOrders: seq<seq<uint64>>, d: uint32)
    requires IndexOf(s.tables, docs, ratio) && Frequent(docs) && Positive(k, ratio) && d in b
    requires s.Orders(musts, mustOrders) && s.Orders(shoulds, shouldOrders)
    requires var x, y := s.States(musts, mustOrders, false), s.States(shoulds, shouldOrders, false);
             && Boosted(x) && EachOf(x, StateReadable(s, b, IdfWeights(k)))
             && Boosted(y) && EachOf(y, StateReadable(s, b, IdfWeights(k)))
    ensures var x, y, w := s.States(musts, mustOrders, false), s.States(shoulds, shouldOrders, false), IdfWeights(k);
            var trail := ClauseTerms(s, b, w, x, |x|)(d) + ClauseTerms(s, b, w, y, |y|)(d);
            && (forall i | 0 <= i < |trail| :: Telling(k.saturation, k.penalty, k.average, trail[i]))
            && (Worth(k.saturation, k.penalty, k.average, trail, |trail|) > 0.0 <==> trail != [])
            && Worth(k.saturation, k.penalty, k.average, trail, |trail|) <= Ceiling(trail, |trail|)
  {
    var x, y, w := s.States(musts, mustOrders, false), s.States(shoulds, shouldOrders, false), IdfWeights(k);
    StatesFromField(s, musts, mustOrders);
    StatesFromField(s, shoulds, shouldOrders);
    ClauseTelling(s, b, docs, ratio, k, x, d);
    ClauseTelling(s, b, docs, ratio, k, y, d);
    TrailWorth(k, ClauseTerms(s, b, w, x, |x|)(d), ClauseTerms(s, b, w, y, |y|)(d));
  }

  lemma TrailWorth(k: Constants, first: seq<Contribution>, second: seq<Contribution>)
    requires EachOf(first, TellingBy(k)) && EachOf(second, TellingBy(k))
    ensures var trail := first + second;
            && (forall i | 0 <= i < |trail| :: Telling(k.saturation, k.penalty, k.average, trail[i]))
            && (Worth(k.saturation, k.penalty, k.average, trail, |trail|) > 0.0 <==> trail != [])
            && Worth(k.saturation, k.penalty, k.average, trail, |trail|) <= Ceiling(trail, |trail|)
  {
    var trail := first + second;
    EachJoined(first, second, TellingBy(k));
    forall i | 0 <= i < |trail|
      ensures Telling(k.saturation, k.penalty, k.average, trail[i])
    {
      assert TellingBy(k)(trail[i]);
    }
    WorthBounds(k.saturation, k.penalty, k.average, trail, |trail|);
  }

  ghost function Anything(): Contribution -> bool {
    (c: Contribution) => true
  }

  lemma SomethingThere(trail: seq<Contribution>)
    ensures SomeOf(trail, Anything()) <==> trail != []
  {
    assert trail != [] ==> Anything()(trail[0]);
  }

  /** Token i of state k is not skipped and posts the document. */
  ghost predicate Scores(s: Searcher, w: Weights, states: seq<ClauseState>, k: nat, i: nat, d: uint32) {
    && k < |states| && i < |states[k].tokens| && states[k].field.Some? && states[k].field.value in s.tables.fields
    && !Weightless(w, states[k].boost, |s.tables.fields[states[k].field.value].documentLengths|, states[k].tokens[i])
    && d in s.ListOf(states[k].tokens[i])
  }

  lemma TokenScores(s: Searcher, b: Bitmap, w: Weights, states: seq<ClauseState>, k: nat, i: nat, d: uint32)
    requires k < |states| && i < |states[k].tokens|
    ensures TokenTermsAt(s, b, w, states[k], d)(i) != [] <==> Scores(s, w, states, k, i, d)
  {
    var state := states[k];
    if state.field.Some? && state.field.value in s.tables.fields {
      var f := s.tables.fields[state.field.value];
      assert TokenTermsAt(s, b, w, state, d)(i) == TokenTerms(s, b, w, state.boost, f, state.tokens[i])(d);
    }
  }

  ghost predicate StateScores(s: Searcher, w: Weights, states: seq<ClauseState>, k: nat, d: uint32) {
    exists i :: Scores(s, w, states, k, i, d)
  }

  lemma StateAdds(s: Searcher, b: Bitmap, w: Weights, states: seq<ClauseState>, k: nat, d: uint32)
    requires k < |states|
    ensures StateTerms(s, b, w, states[k])(d) != [] <==> StateScores(s, w, states, k, d)
  {
    var f := TokenTermsAt(s, b, w, states[k], d);
    CollectSome(|states[k].tokens|, f, Anything());
    SomethingThere(StateTerms(s, b, w, states[k])(d));
    forall i: nat | i < |states[k].tokens|
      ensures SomeOf(f(i), Anything()) <==> Scores(s, w, states, k, i, d)
    {
      SomethingThere(f(i));
      TokenScores(s, b, w, states, k, i, d);
    }
  }

  /** A clause adds something to a document exactly when one of its tokens, not skipped, posts it. */
  lemma ClauseAdds(s: Searcher, b: Bitmap, w: Weights, states: seq<ClauseState>, d: uint32)
    ensures ClauseTerms(s, b, w, states, |states|)(d) != [] <==> exists k :: StateScores(s, w, states, k, d)
  {
    var f := StateTermsAt(s, b, w, states, d);
    CollectSome(|states|, f, Anything());
    SomethingThere(ClauseTerms(s, b, w, states, |states|)(d));
    forall k: nat | k < |states|
      ensures SomeOf(f(k), Anything()) <==> StateScores(s, w, states, k, d)
    {
      SomethingThere(f(k));
      StateAdds(s, b, w, states, k, d);
    }
  }
}
