/**
 The tables of one index (storage/storage.go, `Storage` and `Field`), what makes them well formed, and what
 they mean: for each field and token, the entries (document, frequency), ascending by document.
 */
module Tables {
  import opened Bytes
  import opened Headers
  import opened Bitmaps
  import opened Tokens

  /**
   The float32 bits that building, and those that merging makes of total / count: two formulas that round differently.
   */
  datatype Ratio = Ratio(built: (nat, nat) -> uint32, merged: (nat, nat) -> uint32)
  {
    ghost predicate Gives(average: uint32, total: nat, count: nat) {
      average == built(total, count) || average == merged(total, count)
    }
  }

  datatype Field = Field(
    avgDocumentLength: uint32,
    totalDocumentsLength: nat,
    tokens: seq<Token>,
    totalTokenFrequenciesCount: nat,
    documentLengths: seq<DocumentLengthEntry>)

  datatype Tables = Tables(
    documentsIds: seq<RawValue>,
    tokenFrequencies: seq<TokenFrequencyEntry>,
    fields: map<uint64, Field>,
    postingLists: seq<bytes>)

  ghost function DocumentsOf(es: seq<TokenFrequencyEntry>): Bitmap {
    set i | 0 <= i < |es| :: es[i].documentIndex
  }

  /** Entries of one token: at least one, ascending by document, over `n` documents. */
  ghost predicate EntriesOk(es: seq<TokenFrequencyEntry>, n: nat) {
    es != [] && FreqsAscending(es) && forall i | 0 <= i < |es| :: es[i].documentIndex < n
  }

  ghost predicate LengthsOk(ls: seq<DocumentLengthEntry>, n: nat) {
    LengthsAscending(ls) && forall i | 0 <= i < |ls| :: ls[i].index < n && ls[i].length > 0
  }

  function SumLengths(ls: seq<DocumentLengthEntry>, n: nat): nat
    requires n <= |ls|
  {
    if n == 0 then 0 else SumLengths(ls, n - 1) + ls[n - 1].length
  }

  lemma {:induction false} SumBounds(ls: seq<DocumentLengthEntry>, n: nat)
    requires n <= |ls| && forall i | 0 <= i < |ls| :: ls[i].length > 0
    ensures n <= SumLengths(ls, n) <= n * 0xFFFF_FFFF
  {
    if n > 0 {
      SumBounds(ls, n - 1);
    }
  }

  lemma CountBelow(ls: seq<DocumentLengthEntry>, n: nat)
    requires LengthsOk(ls, n)
    ensures |ls| <= n
  {
    if ls != [] {
      LengthAtLeast(ls, |ls| - 1);
    }
  }

  function SumCounts(ts: seq<Token>, n: nat): nat
    requires n <= |ts|
  {
    if n == 0 then 0 else SumCounts(ts, n - 1) + ts[n - 1].frequencyCount
  }

  ghost predicate InRegion(t: Tables, token: Token) {
    token.frequenciesIndex + token.frequencyCount <= |t.tokenFrequencies|
  }

  function Slice(t: Tables, token: Token): seq<TokenFrequencyEntry>
    requires InRegion(t, token)
  {
    t.tokenFrequencies[token.frequenciesIndex..token.frequenciesIndex + token.frequencyCount]
  }

  ghost predicate TokenOk(t: Tables, token: Token) {
    && InRegion(t, token)
    && token.postingListIndex < |t.postingLists|
    && token.value.size <= MaxRawValueSize
    && EntriesOk(Slice(t, token), |t.documentsIds|)
    && Unmarshal(t.postingLists[token.postingListIndex]) == DocumentsOf(Slice(t, token))
  }

  ghost predicate LengthsSummed(f: Field, ratio: Ratio) {
    && f.totalDocumentsLength == SumLengths(f.documentLengths, |f.documentLengths|)
    && (f.documentLengths != [] ==> ratio.Gives(f.avgDocumentLength, f.totalDocumentsLength, |f.documentLengths|))
  }

  ghost predicate FieldOk(t: Tables, f: Field, ratio: Ratio) {
    && Sorted(f.tokens)
    && (forall i | 0 <= i < |f.tokens| :: TokenOk(t, f.tokens[i]))
    && LengthsOk(f.documentLengths, |t.documentsIds|)
    && LengthsSummed(f, ratio)
    && f.totalTokenFrequenciesCount == SumCounts(f.tokens, |f.tokens|)
  }

  ghost predicate WellFormed(t: Tables, ratio: Ratio) {
    |t.documentsIds| < MaxDocuments && forall h | h in t.fields :: FieldOk(t, t.fields[h], ratio)
  }

  /** No field counts more entries than there are. */
  ghost predicate Spread(t: Tables) {
    forall h | h in t.fields :: t.fields[h].totalTokenFrequenciesCount <= |t.tokenFrequencies|
  }

  ghost predicate HasToken(ts: seq<Token>, v: bytes, i: nat) {
    i < |ts| && ts[i].Bytes() == v
  }

  /** The entries of token `v` in field `h`; none when either is missing. */
  ghost function Entries(t: Tables, h: uint64, v: bytes): seq<TokenFrequencyEntry> {
    if h in t.fields && exists i: nat :: HasToken(t.fields[h].tokens, v, i) && InRegion(t, t.fields[h].tokens[i]) then
      var i: nat :| HasToken(t.fields[h].tokens, v, i) && InRegion(t, t.fields[h].tokens[i]);
      Slice(t, t.fields[h].tokens[i])
    else []
  }

  lemma TokensDistinct(ts: seq<Token>, i: nat, j: nat)
    requires Sorted(ts) && i < |ts| && j < |ts| && ts[i].Bytes() == ts[j].Bytes()
    ensures i == j
  {
    LessTotal(ts[i].Bytes(), ts[j].Bytes());
  }

  lemma EntriesOfToken(t: Tables, h: uint64, i: nat, ratio: Ratio)
    requires WellFormed(t, ratio) && h in t.fields && i < |t.fields[h].tokens|
    ensures TokenOk(t, t.fields[h].tokens[i])
    ensures Entries(t, h, t.fields[h].tokens[i].Bytes()) == Slice(t, t.fields[h].tokens[i])
  {
    var ts := t.fields[h].tokens;
    assert FieldOk(t, t.fields[h], ratio);
    assert TokenOk(t, ts[i]) && HasToken(ts, ts[i].Bytes(), i) && InRegion(t, ts[i]);
    forall j: nat | HasToken(ts, ts[i].Bytes(), j)
      ensures j == i
    {
      TokensDistinct(ts, j, i);
    }
  }

  /** Frequency entries of one token, ascending by document, name each document once. */
  lemma DocumentsCounted(es: seq<TokenFrequencyEntry>)
    requires FreqsAscending(es)
    ensures |DocumentsOf(es)| == |es|
  {
    if es != [] {
      var n := |es| - 1;
      DocumentsCounted(es[..n]);
      DocumentsSnoc(es[..n], es[n]);
      assert es[..n] + [es[n]] == es;
    }
  }

  lemma DocumentsSnoc(es: seq<TokenFrequencyEntry>, e: TokenFrequencyEntry)
    ensures DocumentsOf(es + [e]) == DocumentsOf(es) + {e.documentIndex}
  {
    DocumentsConcat(es, [e]);
    assert DocumentsOf([e]) == {e.documentIndex} by {
      assert [e][0].documentIndex in DocumentsOf([e]);
    }
  }

  lemma DocumentsConcat(xs: seq<TokenFrequencyEntry>, ys: seq<TokenFrequencyEntry>)
    ensures DocumentsOf(xs + ys) == DocumentsOf(xs) + DocumentsOf(ys)
  {
    forall d | d in DocumentsOf(xs) + DocumentsOf(ys)
      ensures d in DocumentsOf(xs + ys)
    {
      if d in DocumentsOf(xs) {
        var i :| 0 <= i < |xs| && xs[i].documentIndex == d;
        assert (xs + ys)[i].documentIndex == d;
      } else {
        var i :| 0 <= i < |ys| && ys[i].documentIndex == d;
        assert (xs + ys)[|xs| + i].documentIndex == d;
      }
    }
  }
}
