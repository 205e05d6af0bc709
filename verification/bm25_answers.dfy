/** BM25 scores in terms of the documents alone. */
module BM25Answers {
  import opened Bytes
  import opened Collecting
  import opened Headers
  import opened Bitmaps
  import opened Listing
  import opened Tables
  import opened Documents
  import opened Build
  import opened Ranges
  import opened Clauses
  import opened Filtering
  import opened QueryContexts
  import opened Lookups
  import opened BM25
  import opened BM25Values
  import opened BM25Scores
  import opened Hits
  import opened Having
  import opened Keywords
  import opened Answers
  import opened MeasuredDocuments
  import FastLog

  /** A token that an entry of a clause asks for, in a field. */
  datatype Hit = Hit(place: Place, value: bytes)

  /** The entry asks for the token: a keyword stands for it there, or it lies in a range. */
  ghost predicate AsksFor(docs: seq<Document>, c: Clause, maxK: int, m: int, p: Place, v: bytes) {
    match p
    case KeywordIn(i, h) => i < |c.keywords| && Stands(docs, h, c.keywords[i], maxK, m, v)
    case KeywordNowhere(i) => false
    case ScopedKeyword(i) =>
      i < |c.fieldKeywords| && Stands(docs, c.fieldKeywords[i].field, c.fieldKeywords[i].keyword, maxK, m, v)
    case ScopedRange(i) => i < |c.fieldRanges| && InRange(c.fieldRanges[i].range, v)
  }

  /**
   What counts for a document: the tokens it has of those that an entry asks for, unless the boost of the entry is zero,
   or more documents have the token than have a length in the field.
   */
  ghost function Counts(docs: seq<Document>, c: Clause, maxK: int, m: int, d: uint32): Hit -> bool {
    (hit: Hit) =>
      var h := EntryField(c, hit.place);
      && AsksFor(docs, c, maxK, m, hit.place, hit.value) && Has(docs, d, h, hit.value)
      && EntryBoost(c, hit.place) != 0.0 && |Holders(docs, h, hit.value)| <= |MeasuredIn(docs, h)|
  }

  /** Entries in order, and the tokens of an entry ascending. */
  ghost predicate ValueBefore(a: Hit, b: Hit) {
    Precedes(a.place, b.place) || (a.place == b.place && Less(a.value, b.value))
  }

  /** Frequency and length of a document that has both. */
  ghost predicate Counted(docs: seq<Document>, d: uint32, h: uint64, v: bytes, f: uint32, l: uint32) {
    d < |docs| && f > 0 && Defines(docs[d], h, v, f) && Measures(docs[d], h, l)
  }

  ghost predicate HasCounts(docs: seq<Document>, d: uint32, h: uint64, v: bytes) {
    exists f, l :: Counted(docs, d, h, v, f, l)
  }

  /** Something that goes by frequency and length; nothing without them. */
  ghost function ByCounts(docs: seq<Document>, d: uint32, h: uint64, v: bytes, term: (uint32, uint32) -> real): real {
    if HasCounts(docs, d, h, v) then
      var f, l :| Counted(docs, d, h, v, f, l);
      term(f, l)
    else 0.0
  }

  lemma ByOnlyCounts(docs: seq<Document>, d: uint32, h: uint64, v: bytes, term: (uint32, uint32) -> real, f: uint32,
                     l: uint32)
    requires Counted(docs, d, h, v, f, l) && forall g, m :: Counted(docs, d, h, v, g, m) ==> g == f && m == l
    ensures ByCounts(docs, d, h, v, term) == term(f, l)
  {
  }

  /** Boost times the textbook term. */
  ghost function BoostedTerm(t: Tuning, boost: real, idf: real): (uint32, uint32) -> real {
    (f: uint32, l: uint32) => if Sensible(t) && f > 0 then boost * Textbook(t, idf, f as real, l as real) else 0.0
  }

  /** What a hit is worth: boost times the textbook term, by how rare the token is, how often the document has it, and
      how long it is. */
  ghost function ValueOf(docs: seq<Document>, c: Clause, t: Tuning, d: uint32, hit: Hit): real {
    var h := EntryField(c, hit.place);
    var idf := FastLog.Idf(|MeasuredIn(docs, h)|, |Holders(docs, h, hit.value)|);
    ByCounts(docs, d, h, hit.value, BoostedTerm(t, EntryBoost(c, hit.place), idf))
  }

  function TuningOf(k: Constants, average: uint64 -> real, h: uint64): Tuning {
    Tuning(k.saturation, k.penalty, average(h))
  }

  /** What is added says what the hit is worth. */
  ghost function Adds(docs: seq<Document>, c: Clause, k: Constants, average: uint64 -> real, d: uint32)
      : (Hit, Contribution) -> bool {
    (hit: Hit, x: Contribution) =>
      && Summable(k.saturation, k.penalty, k.average, x)
      && SummandOf(k.saturation, k.penalty, k.average, x)
         == ValueOf(docs, c, TuningOf(k, average, EntryField(c, hit.place)), d, hit)
  }

  /** The average length of each field, as its bits are read. */
  ghost function AverageOf(s: Searcher, k: Constants): uint64 -> real {
    (h: uint64) => if h in s.tables.fields then k.average(s.tables.fields[h].avgDocumentLength) else 0.0
  }

  /** Every candidate has a length in each field in which it has a token. */
  ghost predicate CandidatesMeasured(docs: seq<Document>, b: Bitmap) {
    forall d, h, v | d in b && Has(docs, d, h, v) :: exists l :: Measures(docs[d], h, l)
  }

  lemma MeasuredCandidates(s: Searcher, docs: seq<Document>, ratio: Ratio, b: Bitmap)
    requires IndexOf(s.tables, docs, ratio) && CandidatesMeasured(docs, b)
    ensures Covered(s, b)
  {
    forall h, i, d | h in s.tables.fields && 0 <= i < |s.tables.fields[h].tokens|
        && d in s.ListOf(s.tables.fields[h].tokens[i]) && d in b
      ensures HasLength(s.tables.fields[h].documentLengths, d, |s.tables.fields[h].documentLengths|)
    {
      ListIsHas(s, docs, ratio, h, i, d);
      LengthDefined(s.tables, docs, ratio, h, d);
    }
  }

  /** A token is skipped without a boost, or when its frequency is not possible in the field. */
  lemma WeightlessWhen(k: Constants, boost: real, documents: nat, token: Token)
    requires k.saturation > 0.0
    ensures Weightless(IdfWeights(k), boost, documents, token)
            <==> boost == 0.0 || token.frequencyCount > documents || documents == 0
  {
    var idf := FastLog.Idf(documents, token.frequencyCount);
    FastLog.IdfPositive(documents, token.frequencyCount);
    ZeroProduct(idf, boost);
    ZeroProduct(idf * boost, k.saturation + 1.0);
    ZeroProduct(idf, k.saturation + 1.0);
  }

  lemma ZeroProduct(a: real, b: real)
    ensures a * b == 0.0 <==> a == 0.0 || b == 0.0
  {
  }

  /** The factor in front of a summand makes it boost times the textbook term. */
  lemma SummandIsBoosted(w: Weights, t: Tuning, boost: real, documents: nat, token: Token, weight: real, f: uint32,
                         l: uint32)
    requires Sensible(t) && t.saturation == w.saturation && f > 0 && weight == Weight(w, boost, documents, token)
    ensures Summand(t, weight, f as real, l as real)
            == BoostedTerm(t, boost, w.idf(documents, token.frequencyCount))(f, l)
  {
    FactorTextbook(t, boost, w.idf(documents, token.frequencyCount), weight, f as real, l as real);
  }

  /** A covered candidate gets frequency and length from plain lookups. */
  lemma PlainSummand(s: Searcher, b: Bitmap, docs: seq<Document>, ratio: Ratio, k: Constants, boost: real, h: uint64,
                     i: nat, d: uint32, x: Contribution)
    requires IndexOf(s.tables, docs, ratio) && h in s.tables.fields && i < |s.tables.fields[h].tokens|
    requires CandidatesMeasured(docs, b) && d in b
    requires var f := s.tables.fields[h]; TokenTerms(s, b, IdfWeights(k), boost, f, f.tokens[i])(d) == [x]
    ensures var f := s.tables.fields[h];
            && d in s.ListOf(f.tokens[i])
            && x == Weighted(Weight(IdfWeights(k), boost, |f.documentLengths|, f.tokens[i]), f.avgDocumentLength,
                             Tf(EntriesOf(s, f.tokens[i]), d), Dl(f.documentLengths, d))
  {
    MeasuredCandidates(s, docs, ratio, b);
    CoveredIsPlain(s, b, IdfWeights(k), boost, h, i, ratio);
  }

  /** Frequency, length, and the two numbers that tell how rare the token is, are those of the documents. */
  lemma NumbersCounted(s: Searcher, b: Bitmap, docs: seq<Document>, ratio: Ratio, h: uint64, i: nat, d: uint32)
    requires IndexOf(s.tables, docs, ratio) && h in s.tables.fields && i < |s.tables.fields[h].tokens|
    requires Frequent(docs) && CandidatesMeasured(docs, b) && d in b && d in s.ListOf(s.tables.fields[h].tokens[i])
    ensures var f := s.tables.fields[h];
            var v, tf, dl := f.tokens[i].Bytes(), Tf(EntriesOf(s, f.tokens[i]), d), Dl(f.documentLengths, d);
            && Counted(docs, d, h, v, tf, dl) && f.documentLengths != []
            && (forall g, l :: Counted(docs, d, h, v, g, l) ==> g == tf && l == dl)
            && |f.documentLengths| == |MeasuredIn(docs, h)| && f.tokens[i].frequencyCount == |Holders(docs, h, v)|
  {
    ListIsHas(s, docs, ratio, h, i, d);
    FrequencyDefined(s, docs, ratio, h, i, d);
    FrequencyPositive(s, docs, ratio, h, i, d);
    LengthDefined(s.tables, docs, ratio, h, d);
    LengthsCounted(s.tables, docs, ratio, h);
    FrequencyCounted(s, docs, ratio, h, i);
  }

  lemma CountedAdds(docs: seq<Document>, c: Clause, k: Constants, average: uint64 -> real, d: uint32, hit: Hit,
                    x: Contribution, n: nat, token: Token)
    requires var h := EntryField(c, hit.place);
             && x.Weighted? && x.weight == Weight(IdfWeights(k), EntryBoost(c, hit.place), n, token)
             && Counted(docs, d, h, hit.value, x.tf, x.dl)
             && (forall g, l :: Counted(docs, d, h, hit.value, g, l) ==> g == x.tf && l == x.dl)
             && n == |MeasuredIn(docs, h)| && token.frequencyCount == |Holders(docs, h, hit.value)|
             && average(h) == k.average(x.avg)
    requires Sensible(Tuning(k.saturation, k.penalty, k.average(x.avg)))
    ensures Adds(docs, c, k, average, d)(hit, x)
  {
    var t, boost := Tuning(k.saturation, k.penalty, k.average(x.avg)), EntryBoost(c, hit.place);
    ByOnlyCounts(docs, d, EntryField(c, hit.place), hit.value,
                 BoostedTerm(t, boost, FastLog.Idf(n, token.frequencyCount)), x.tf, x.dl);
    SummandIsBoosted(IdfWeights(k), t, boost, n, token, x.weight, x.tf, x.dl);
  }

  /** What one token adds to a candidate that has it: boost times the textbook term, by what the documents define. */
  lemma SummandIsValue(s: Searcher, b: Bitmap, docs: seq<Document>, ratio: Ratio, k: Constants, c: Clause, i: nat,
                       d: uint32, hit: Hit, x: Contribution)
    requires IndexOf(s.tables, docs, ratio) && EntryField(c, hit.place) in s.tables.fields
    requires Frequent(docs) && CandidatesMeasured(docs, b) && BM25Scores.Positive(k, ratio) && d in b
    requires HasToken(s.tables.fields[EntryField(c, hit.place)].tokens, hit.value, i)
    requires var f := s.tables.fields[EntryField(c, hit.place)];
             TokenTerms(s, b, IdfWeights(k), EntryBoost(c, hit.place), f, f.tokens[i])(d) == [x]
    ensures Adds(docs, c, k, AverageOf(s, k), d)(hit, x)
  {
    var h, boost := EntryField(c, hit.place), EntryBoost(c, hit.place);
    var f := s.tables.fields[h];
    PlainSummand(s, b, docs, ratio, k, boost, h, i, d, x);
    NumbersCounted(s, b, docs, ratio, h, i, d);
    FieldPositive(s, ratio, k, h);
    CountedAdds(docs, c, k, AverageOf(s, k), d, hit, x, |f.documentLengths|, f.tokens[i]);
  }

  lemma RangeStands(s: Searcher, docs: seq<Document>, ratio: Ratio, h: uint64, r: Range, v: bytes)
    requires IndexOf(s.tables, docs, ratio) && Faithful(s, h, r)
    ensures Having.Among(s.RangedTokens(h, r), v) <==> Occurs(docs, h, v) && InRange(r, v)
  {
    AmongIsOccurs(s, docs, ratio, h, v);
    if h in s.tables.fields {
      SortedTokens(s, ratio, h);
      RangeExact(s.tables.fields[h].tokens, r);
      KeptInRange(s.tables.fields[h].tokens, r, v);
    }
  }

  /** An entry resolves in its field to exactly the tokens it asks for. */
  lemma EntryStands(s: Searcher, docs: seq<Document>, ratio: Ratio, c: Clause, p: Place, v: bytes)
    requires IndexOf(s.tables, docs, ratio) && RangesFaithful(s, c)
    ensures Having.Among(EntryTokens(s, c, p), v)
            <==> AsksFor(docs, c, s.maxK, s.m, p, v) && Occurs(docs, EntryField(c, p), v)
  {
    match p
    case KeywordIn(i, h) =>
      if i < |c.keywords| {
        KeywordStands(s, docs, ratio, h, c.keywords[i], v);
      }
    case KeywordNowhere(i) =>
    case ScopedKeyword(i) =>
      if i < |c.fieldKeywords| {
        KeywordStands(s, docs, ratio, c.fieldKeywords[i].field, c.fieldKeywords[i].keyword, v);
      }
    case ScopedRange(i) =>
      if i < |c.fieldRanges| {
        RangeStands(s, docs, ratio, c.fieldRanges[i].field, c.fieldRanges[i].range, v);
      }
  }

  /** The tokens of an entry come from the table of its field. */
  lemma EntryInTable(s: Searcher, c: Clause, p: Place, i: nat) returns (j: nat)
    requires i < |EntryTokens(s, c, p)|
    ensures EntryField(c, p) in s.tables.fields
    ensures var ts := s.tables.fields[EntryField(c, p)].tokens; j < |ts| && ts[j] == EntryTokens(s, c, p)[i]
  {
    var h, token := EntryField(c, p), EntryTokens(s, c, p)[i];
    var ts := s.tables.fields[h].tokens;
    match p {
      case KeywordIn(k, _) => TokensOfTable(s, h, c.keywords[k]);
      case ScopedKeyword(k) => TokensOfTable(s, h, c.fieldKeywords[k].keyword);
      case ScopedRange(k) => ResolvedAmong(ts, c.fieldRanges[k].range);
    }
    assert token in EntryTokens(s, c, p);
    j :| j < |ts| && ts[j] == token;
  }

  lemma {:induction false} KeptSorted(ts: seq<Token>, keep: Token -> bool, n: nat)
    requires Tokens.Sorted(ts) && n <= |ts|
    ensures Tokens.Sorted(Kept(ts, keep, n))
  {
    if n > 0 {
      KeptSorted(ts, keep, n - 1);
      forall t | t in Kept(ts, keep, n - 1)
        ensures Less(t.Bytes(), ts[n - 1].Bytes())
      {
        KeptMembers(ts, keep, n - 1, t);
      }
      SortedSnoc(Kept(ts, keep, n - 1), ts[n - 1]);
    }
  }

  lemma SortedSnoc(ts: seq<Token>, t: Token)
    requires Tokens.Sorted(ts) && forall u | u in ts :: Less(u.Bytes(), t.Bytes())
    ensures Tokens.Sorted(ts + [t]) && Tokens.Sorted(ts + [])
  {
    assert ts + [] == ts;
    forall i, j | 0 <= i < j < |ts + [t]|
      ensures Less((ts + [t])[i].Bytes(), (ts + [t])[j].Bytes())
    {
      assert ts[i] in ts;
    }
  }

  lemma KeywordSorted(s: Searcher, ts: seq<Token>, kw: Keyword)
    requires Tokens.Sorted(ts)
    ensures Tokens.Sorted(s.KeywordTokens(ts, kw))
  {
    s.KeywordResolves(ts, kw);
    if !Exact(ts, kw.value) && kw.fuzzy > 0 && s.maxK > 0 && s.m >= 0 {
      var at :| s.FirstInReach(ts, kw, s.KeywordTokens(ts, kw), at);
    }
  }

  /** And keep its order. */
  lemma EntrySorted(s: Searcher, ratio: Ratio, c: Clause, p: Place)
    requires WellFormed(s.tables, ratio)
    ensures Tokens.Sorted(EntryTokens(s, c, p))
  {
    var h := EntryField(c, p);
    if h in s.tables.fields {
      var ts := s.tables.fields[h].tokens;
      SortedTokens(s, ratio, h);
      match p
      case KeywordIn(i, _) =>
        if i < |c.keywords| {
          KeywordSorted(s, ts, c.keywords[i]);
        }
      case KeywordNowhere(i) =>
      case ScopedKeyword(i) =>
        if i < |c.fieldKeywords| {
          KeywordSorted(s, ts, c.fieldKeywords[i].keyword);
        }
      case ScopedRange(i) =>
        if i < |c.fieldRanges| && ts != [] {
          var r := c.fieldRanges[i].range;
          KeptSorted(ts, Between(Low(ts, r), High(ts, r), r.mode), |ts|);
        }
    }
  }

  ghost function HitOf(s: Searcher, c: Clause): TokenHit -> Hit {
    (hit: TokenHit) =>
      var ts := EntryTokens(s, c, hit.place);
      Hit(hit.place, if hit.at < |ts| then ts[hit.at].Bytes() else [])
  }

  /** What counts by the index counts by the documents, and the other way round. */
  lemma CountsAlike(s: Searcher, docs: seq<Document>, ratio: Ratio, k: Constants, c: Clause, d: uint32, hit: TokenHit)
    requires IndexOf(s.tables, docs, ratio) && RangesFaithful(s, c) && k.saturation > 0.0
    requires hit.at < |EntryTokens(s, c, hit.place)|
    requires forall h, v | Has(docs, d, h, v) :: exists l :: Measures(docs[d], h, l)
    ensures HitCounts(s, c, IdfWeights(k), d)(hit) <==> Counts(docs, c, s.maxK, s.m, d)(HitOf(s, c)(hit))
  {
    var ts, h, boost := EntryTokens(s, c, hit.place), EntryField(c, hit.place), EntryBoost(c, hit.place);
    var v := ts[hit.at].Bytes();
    var j := EntryInTable(s, c, hit.place, hit.at);
    var n := |s.tables.fields[h].documentLengths|;
    EntryStands(s, docs, ratio, c, hit.place, v);
    assert HasToken(ts, v, hit.at);
    ListIsHas(s, docs, ratio, h, j, d);
    LengthsCounted(s.tables, docs, ratio, h);
    FrequencyCounted(s, docs, ratio, h, j);
    WeightlessWhen(k, boost, n, ts[hit.at]);
    if Has(docs, d, h, v) {
      SomeMeasured(docs, d, h);
    }
  }

  lemma SomeMeasured(docs: seq<Document>, d: uint32, h: uint64)
    requires d < |docs| && exists l :: Measures(docs[d], h, l)
    ensures |MeasuredIn(docs, h)| > 0
  {
    assert d in MeasuredIn(docs, h);
  }

  /** The document has a length in each field in which it has a token. */
  ghost predicate DocumentMeasured(docs: seq<Document>, d: uint32) {
    forall h, v | Has(docs, d, h, v) :: exists l :: Measures(docs[d], h, l)
  }

  lemma HitCarried(s: Searcher, docs: seq<Document>, ratio: Ratio, k: Constants, c: Clause, d: uint32, q: Hit)
      returns (hit: TokenHit)
    requires IndexOf(s.tables, docs, ratio) && RangesFaithful(s, c) && k.saturation > 0.0 && DocumentMeasured(docs, d)
    requires Counts(docs, c, s.maxK, s.m, d)(q)
    ensures HitCounts(s, c, IdfWeights(k), d)(hit) && HitOf(s, c)(hit) == q
  {
    EntryStands(s, docs, ratio, c, q.place, q.value);
    assert Occurs(docs, EntryField(c, q.place), q.value);
    var i: nat :| HasToken(EntryTokens(s, c, q.place), q.value, i);
    hit := TokenHit(q.place, i);
    CountsAlike(s, docs, ratio, k, c, d, hit);
  }

  lemma HitsCarried(s: Searcher, docs: seq<Document>, ratio: Ratio, k: Constants, c: Clause, d: uint32)
    requires IndexOf(s.tables, docs, ratio) && RangesFaithful(s, c) && k.saturation > 0.0 && DocumentMeasured(docs, d)
    ensures Carries(HitCounts(s, c, IdfWeights(k), d), Counts(docs, c, s.maxK, s.m, d), HitOf(s, c))
  {
    forall hit | HitCounts(s, c, IdfWeights(k), d)(hit)
      ensures Counts(docs, c, s.maxK, s.m, d)(HitOf(s, c)(hit))
    {
      CountsAlike(s, docs, ratio, k, c, d, hit);
    }
    forall q | Counts(docs, c, s.maxK, s.m, d)(q)
      ensures exists hit :: HitCounts(s, c, IdfWeights(k), d)(hit) && HitOf(s, c)(hit) == q
    {
      var hit := HitCarried(s, docs, ratio, k, c, d, q);
    }
  }

  lemma OrderCarried(s: Searcher, ratio: Ratio, w: Weights, c: Clause, d: uint32)
    requires WellFormed(s.tables, ratio)
    ensures CarriesOrder(HitCounts(s, c, w, d), HitBefore, ValueBefore, HitOf(s, c))
  {
    forall a, b | HitCounts(s, c, w, d)(a) && HitCounts(s, c, w, d)(b) && HitBefore(a, b)
      ensures ValueBefore(HitOf(s, c)(a), HitOf(s, c)(b))
    {
      EntrySorted(s, ratio, c, a.place);
    }
  }

  lemma ValuesCarried(s: Searcher, b: Bitmap, docs: seq<Document>, ratio: Ratio, k: Constants, c: Clause, d: uint32)
    requires IndexOf(s.tables, docs, ratio) && Frequent(docs) && CandidatesMeasured(docs, b)
    requires BM25Scores.Positive(k, ratio) && d in b
    ensures CarriesElements(HitCounts(s, c, IdfWeights(k), d), HitAdds(s, b, c, IdfWeights(k), d),
                            Adds(docs, c, k, AverageOf(s, k), d), HitOf(s, c))
  {
    forall hit, x | HitCounts(s, c, IdfWeights(k), d)(hit) && HitAdds(s, b, c, IdfWeights(k), d)(hit, x)
      ensures Adds(docs, c, k, AverageOf(s, k), d)(HitOf(s, c)(hit), x)
    {
      var i := EntryInTable(s, c, hit.place, hit.at);
      SummandIsValue(s, b, docs, ratio, k, c, i, d, HitOf(s, c)(hit), x);
    }
  }

  /** The summands of a clause are those of the tokens that count, in order, each worth what the documents say. */
  ghost predicate SummandsOf(docs: seq<Document>, c: Clause, maxK: int, m: int, k: Constants, average: uint64 -> real,
                             d: uint32, trail: seq<Contribution>, hits: seq<Hit>) {
    Listed(trail, hits, Counts(docs, c, maxK, m, d), Adds(docs, c, k, average, d), ValueBefore)
  }

  /** What a clause adds to a candidate, in terms of the documents. */
  lemma ClauseIsTextbook(s: Searcher, b: Bitmap, docs: seq<Document>, ratio: Ratio, k: Constants, c: Clause,
                         orders: seq<seq<uint64>>, d: uint32)
      returns (hits: seq<Hit>)
    requires IndexOf(s.tables, docs, ratio) && Frequent(docs) && CandidatesMeasured(docs, b)
    requires BM25Scores.Positive(k, ratio) && d in b && RangesFaithful(s, c) && s.Orders(c, orders)
    ensures var states := s.States(c, orders, false);
            SummandsOf(docs, c, s.maxK, s.m, k, AverageOf(s, k), d,
                       ClauseTerms(s, b, IdfWeights(k), states, |states|)(d), hits)
  {
    var w, states := IdfWeights(k), s.States(c, orders, false);
    var trail := ClauseTerms(s, b, w, states, |states|)(d);
    ClauseHits(s, b, c, orders, w, d);
    var ps :| Listed(trail, ps, HitCounts(s, c, w, d), HitAdds(s, b, c, w, d), HitBefore);
    assert DocumentMeasured(docs, d);
    HitsCarried(s, docs, ratio, k, c, d);
    OrderCarried(s, ratio, w, c, d);
    ValuesCarried(s, b, docs, ratio, k, c, d);
    ListedCarried(trail, ps, HitCounts(s, c, w, d), HitAdds(s, b, c, w, d), HitBefore,
                  Counts(docs, c, s.maxK, s.m, d), Adds(docs, c, k, AverageOf(s, k), d), ValueBefore, HitOf(s, c));
    hits := MapSeq(ps, HitOf(s, c));
  }

  /** What the first `n` hits are worth together. */
  ghost function Values(docs: seq<Document>, c: Clause, k: Constants, average: uint64 -> real, d: uint32,
                        hits: seq<Hit>, n: nat): real
    requires n <= |hits|
  {
    if n == 0 then 0.0
    else
      Values(docs, c, k, average, d, hits, n - 1)
      + ValueOf(docs, c, TuningOf(k, average, EntryField(c, hits[n - 1].place)), d, hits[n - 1])
  }

  ghost predicate AllSummable(k: Constants, trail: seq<Contribution>) {
    forall i | 0 <= i < |trail| :: Summable(k.saturation, k.penalty, k.average, trail[i])
  }

  ghost function WorthOf(k: Constants, trail: seq<Contribution>, n: nat): real
    requires n <= |trail| && AllSummable(k, trail)
  {
    Worth(k.saturation, k.penalty, k.average, trail, n)
  }

  lemma SummableJoined(k: Constants, xs: seq<Contribution>, ys: seq<Contribution>)
    requires AllSummable(k, xs) && AllSummable(k, ys)
    ensures AllSummable(k, xs + ys)
  {
  }

  lemma {:induction false} WorthStarts(k: Constants, xs: seq<Contribution>, ys: seq<Contribution>, n: nat)
    requires n <= |xs| && xs <= ys && AllSummable(k, xs) && AllSummable(k, ys)
    ensures WorthOf(k, ys, n) == WorthOf(k, xs, n)
  {
    if n > 0 {
      WorthStarts(k, xs, ys, n - 1);
    }
  }

  /** The worth of summands that follow others is added to theirs. */
  lemma {:induction false} WorthAdds(k: Constants, xs: seq<Contribution>, ys: seq<Contribution>, n: nat)
    requires n <= |ys| && AllSummable(k, xs) && AllSummable(k, ys) && AllSummable(k, xs + ys)
    ensures WorthOf(k, xs + ys, |xs| + n) == WorthOf(k, xs, |xs|) + WorthOf(k, ys, n)
  {
    if n == 0 {
      WorthStarts(k, xs, xs + ys, |xs|);
    } else {
      WorthAdds(k, xs, ys, n - 1);
      assert (xs + ys)[|xs| + n - 1] == ys[n - 1];
    }
  }

  lemma SummandsSummable(docs: seq<Document>, c: Clause, maxK: int, m: int, k: Constants, average: uint64 -> real,
                         d: uint32, trail: seq<Contribution>, hits: seq<Hit>)
    requires SummandsOf(docs, c, maxK, m, k, average, d, trail, hits)
    ensures AllSummable(k, trail)
  {
    forall i | 0 <= i < |trail|
      ensures Summable(k.saturation, k.penalty, k.average, trail[i])
    {
      assert Adds(docs, c, k, average, d)(hits[i], trail[i]);
    }
  }

  lemma {:induction false} WorthIsValues(docs: seq<Document>, c: Clause, maxK: int, m: int, k: Constants,
                                         average: uint64 -> real, d: uint32, trail: seq<Contribution>, hits: seq<Hit>,
                                         n: nat)
    requires SummandsOf(docs, c, maxK, m, k, average, d, trail, hits) && n <= |trail| && AllSummable(k, trail)
    ensures WorthOf(k, trail, n) == Values(docs, c, k, average, d, hits, n)
  {
    if n > 0 {
      WorthIsValues(docs, c, maxK, m, k, average, d, trail, hits, n - 1);
      assert Adds(docs, c, k, average, d)(hits[n - 1], trail[n - 1]);
    }
  }

  lemma ClauseWorth(docs: seq<Document>, c: Clause, maxK: int, m: int, k: Constants, average: uint64 -> real,
                    d: uint32, trail: seq<Contribution>, hits: seq<Hit>)
    requires SummandsOf(docs, c, maxK, m, k, average, d, trail, hits)
    ensures AllSummable(k, trail) && |hits| == |trail|
    ensures WorthOf(k, trail, |trail|) == Values(docs, c, k, average, d, hits, |hits|)
  {
    SummandsSummable(docs, c, maxK, m, k, average, d, trail, hits);
    WorthIsValues(docs, c, maxK, m, k, average, d, trail, hits, |trail|);
  }

  lemma WorthJoined(k: Constants, xs: seq<Contribution>, ys: seq<Contribution>)
    requires AllSummable(k, xs) && AllSummable(k, ys)
    ensures AllSummable(k, xs + ys)
    ensures WorthOf(k, xs + ys, |xs + ys|) == WorthOf(k, xs, |xs|) + WorthOf(k, ys, |ys|)
  {
    SummableJoined(k, xs, ys);
    WorthAdds(k, xs, ys, |ys|);
  }

  /** Where candidates have lengths, no state comes to an end. */
  lemma StateIsReadable(s: Searcher, b: Bitmap, w: Weights, ratio: Ratio, state: ClauseState)
    requires WellFormed(s.tables, ratio) && Covered(s, b) && FromField(s)(state)
    ensures StateReadable(s, b, w)(state)
  {
    var h := state.field.value;
    var ts := s.tables.fields[h].tokens;
    forall i: nat | i < |state.tokens|
      ensures ReadableAt(s, b, w, state, i)
    {
      assert state.tokens[i] in ts;
      var j: nat :| j < |ts| && ts[j] == state.tokens[i];
      CoveredIsPlain(s, b, w, state.boost, h, j, ratio);
    }
  }

  lemma ClauseIsReadable(s: Searcher, b: Bitmap, w: Weights, ratio: Ratio, c: Clause, orders: seq<seq<uint64>>)
    requires WellFormed(s.tables, ratio) && Covered(s, b) && s.Orders(c, orders)
    ensures EachOf(s.States(c, orders, false), StateReadable(s, b, w))
  {
    var states := s.States(c, orders, false);
    StatesFromField(s, c, orders);
    forall i | 0 <= i < |states|
      ensures StateReadable(s, b, w)(states[i])
    {
      StateIsReadable(s, b, w, ratio, states[i]);
    }
  }

  /** Summands of the musts, then of the shoulds; the score is worth what their hits are worth together. */
  ghost predicate ScoredBy(docs: seq<Document>, q: Query, maxK: int, m: int, k: Constants, average: uint64 -> real,
                           d: uint32, xs: seq<Contribution>, ys: seq<Contribution>, ps: seq<Hit>, qs: seq<Hit>) {
    && SummandsOf(docs, q.musts, maxK, m, k, average, d, xs, ps)
    && SummandsOf(docs, q.shoulds, maxK, m, k, average, d, ys, qs)
    && AllSummable(k, xs + ys)
    && WorthOf(k, xs + ys, |xs + ys|)
       == Values(docs, q.musts, k, average, d, ps, |ps|) + Values(docs, q.shoulds, k, average, d, qs, |qs|)
  }

  ghost predicate Scored(docs: seq<Document>, q: Query, maxK: int, m: int, k: Constants, average: uint64 -> real,
                         score: Score) {
    exists xs, ys, ps, qs :: score.trail == xs + ys
                             && ScoredBy(docs, q, maxK, m, k, average, score.index, xs, ys, ps, qs)
  }

  lemma BothScore(docs: seq<Document>, q: Query, maxK: int, m: int, k: Constants, average: uint64 -> real, d: uint32,
                  xs: seq<Contribution>, ys: seq<Contribution>, ps: seq<Hit>, qs: seq<Hit>)
    requires SummandsOf(docs, q.musts, maxK, m, k, average, d, xs, ps)
    requires SummandsOf(docs, q.shoulds, maxK, m, k, average, d, ys, qs)
    ensures ScoredBy(docs, q, maxK, m, k, average, d, xs, ys, ps, qs)
  {
    ClauseWorth(docs, q.musts, maxK, m, k, average, d, xs, ps);
    ClauseWorth(docs, q.shoulds, maxK, m, k, average, d, ys, qs);
    WorthJoined(k, xs, ys);
  }

  lemma TrailScored(s: Searcher, b: Bitmap, docs: seq<Document>, ratio: Ratio, k: Constants, q: Query,
                    musts: seq<seq<uint64>>, shoulds: seq<seq<uint64>>, score: Score)
    requires IndexOf(s.tables, docs, ratio) && Frequent(docs) && CandidatesMeasured(docs, b)
    requires BM25Scores.Positive(k, ratio) && score.index in b
    requires RangesFaithful(s, q.musts) && RangesFaithful(s, q.shoulds)
    requires s.Orders(q.musts, musts) && s.Orders(q.shoulds, shoulds)
    requires AsIterated(s, b, IdfWeights(k), q, musts, shoulds, score)
    ensures Scored(docs, q, s.maxK, s.m, k, AverageOf(s, k), score)
  {
    var w, x, y := IdfWeights(k), s.States(q.musts, musts, false), s.States(q.shoulds, shoulds, false);
    var ps := ClauseIsTextbook(s, b, docs, ratio, k, q.musts, musts, score.index);
    var qs := ClauseIsTextbook(s, b, docs, ratio, k, q.shoulds, shoulds, score.index);
    BothScore(docs, q, s.maxK, s.m, k, AverageOf(s, k), score.index, ClauseTerms(s, b, w, x, |x|)(score.index),
              ClauseTerms(s, b, w, y, |y|)(score.index), ps, qs);
  }

  lemma BothReadable(s: Searcher, b: Bitmap, docs: seq<Document>, ratio: Ratio, w: Weights, q: Query,
                     musts: seq<seq<uint64>>, shoulds: seq<seq<uint64>>)
    requires IndexOf(s.tables, docs, ratio) && CandidatesMeasured(docs, b)
    requires s.Orders(q.musts, musts) && s.Orders(q.shoulds, shoulds)
    ensures EachOf(s.States(q.musts, musts, false), StateReadable(s, b, w))
    ensures EachOf(s.States(q.shoulds, shoulds, false), StateReadable(s, b, w))
  {
    MeasuredCandidates(s, docs, ratio, b);
    ClauseIsReadable(s, b, w, ratio, q.musts, musts);
    ClauseIsReadable(s, b, w, ratio, q.shoulds, shoulds);
  }

  ghost predicate AsIterated(s: Searcher, b: Bitmap, w: Weights, q: Query, musts: seq<seq<uint64>>,
                             shoulds: seq<seq<uint64>>, score: Score) {
    var x, y := s.States(q.musts, musts, false), s.States(q.shoulds, shoulds, false);
    score.trail == ClauseTerms(s, b, w, x, |x|)(score.index) + ClauseTerms(s, b, w, y, |y|)(score.index)
  }

  lemma AllScored(s: Searcher, b: Bitmap, docs: seq<Document>, ratio: Ratio, k: Constants, q: Query,
                  musts: seq<seq<uint64>>, shoulds: seq<seq<uint64>>, scores: seq<Score>)
    requires IndexOf(s.tables, docs, ratio) && Frequent(docs) && CandidatesMeasured(docs, b)
    requires BM25Scores.Positive(k, ratio) && Over(scores, b)
    requires RangesFaithful(s, q.musts) && RangesFaithful(s, q.shoulds)
    requires s.Orders(q.musts, musts) && s.Orders(q.shoulds, shoulds)
    requires forall i | 0 <= i < |scores| :: AsIterated(s, b, IdfWeights(k), q, musts, shoulds, scores[i])
    ensures forall i | 0 <= i < |scores| :: Scored(docs, q, s.maxK, s.m, k, AverageOf(s, k), scores[i])
  {
    forall i | 0 <= i < |scores|
      ensures Scored(docs, q, s.maxK, s.m, k, AverageOf(s, k), scores[i])
    {
      OverIn(scores, b, i);
      TrailScored(s, b, docs, ratio, k, q, musts, shoulds, scores[i]);
    }
  }

  /** The constants of a search: 1.2 for a saturation that is not set, and 0.75 for such a penalty. */
  ghost function ConstantsOf(saturation: real, penalty: real, average: uint32 -> real): Constants {
    Constants(if saturation != 0.0 then saturation else 1.2, if penalty != 0.0 then penalty else 0.75, average)
  }

  /**
   BM25 over an index, of candidates that have a length in every field in which they have a token: it comes to its end,
   every candidate is scored, and its score is the sum of the textbook terms, boosted, of the tokens that count.
   */
  method ScoreByDocuments(s: Searcher, ctx: QueryContext, q: Query, saturation: real, ghost penalty: real,
                          ghost average: uint32 -> real, ghost docs: seq<Document>, ghost ratio: Ratio)
      returns (ok: bool)
    requires IndexOf(s.tables, docs, ratio) && s.TablesReady() && s.Ready(q.musts) && s.Ready(q.shoulds)
    requires Frequent(docs) && CandidatesMeasured(docs, ctx.bitmap)
    requires BM25Scores.Positive(ConstantsOf(saturation, penalty, average), ratio)
    requires RangesFaithful(s, q.musts) && RangesFaithful(s, q.shoulds)
    modifies ctx`scores
    ensures ok && Over(ctx.scores, ctx.bitmap)
    ensures var k := ConstantsOf(saturation, penalty, average);
            forall i | 0 <= i < |ctx.scores| :: Scored(docs, q, s.maxK, s.m, k, AverageOf(s, k), ctx.scores[i])
  {
    ghost var musts, shoulds;
    ghost var k := ConstantsOf(saturation, penalty, average);
    ok, musts, shoulds := BM25Score(s, ctx, q, saturation, FastLog.Idf, ratio);
    BothReadable(s, ctx.bitmap, docs, ratio, IdfWeights(k), q, musts, shoulds);
    AllScored(s, ctx.bitmap, docs, ratio, k, q, musts, shoulds, ctx.scores);
  }
}
