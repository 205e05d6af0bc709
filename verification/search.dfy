/** What the searches mean for the documents an index was built from. */
module Searching {
  import opened Collecting
  import opened Headers
  import opened Options
  import opened Bitmaps
  import opened Tables
  import opened Documents
  import opened Build
  import opened Clauses
  import opened Lookups
  import opened BM25

  lemma TablesAreReady(s: Searcher, ratio: Ratio)
    requires WellFormed(s.tables, ratio)
    ensures s.TablesReady()
  {
    forall h | h in s.tables.fields
      ensures TableReady(s.tables.fields[h].tokens)
    {
      var ts := s.tables.fields[h].tokens;
      assert FieldOk(s.tables, s.tables.fields[h], ratio);
      forall i | 0 <= i < |ts|
        ensures ts[i].value.size <= MaxRawValueSize
      {
        assert TokenOk(s.tables, ts[i]);
      }
    }
  }

  lemma EntryOf(es: seq<TokenFrequencyEntry>, d: uint32)
    ensures d in DocumentsOf(es) <==> exists f :: TokenFrequencyEntry(d, f) in es
  {
    if d in DocumentsOf(es) {
      var i :| 0 <= i < |es| && es[i].documentIndex == d;
      assert TokenFrequencyEntry(d, es[i].frequency) in es;
    }
    if f :| TokenFrequencyEntry(d, f) in es {
      var i :| 0 <= i < |es| && es[i] == TokenFrequencyEntry(d, f);
      assert es[i].documentIndex == d;
    }
  }

  /** A document is on the posting list of a token exactly when it defines the token in that field. */
  lemma PostedIsDefined(s: Searcher, docs: seq<Document>, ratio: Ratio, h: uint64, i: nat, d: uint32)
    requires IndexOf(s.tables, docs, ratio) && h in s.tables.fields && i < |s.tables.fields[h].tokens|
    ensures var token := s.tables.fields[h].tokens[i];
            d in s.ListOf(token) <==> d < |docs| && exists f :: Defines(docs[d], h, token.Bytes(), f)
  {
    var token := s.tables.fields[h].tokens[i];
    EntriesOfToken(s.tables, h, i, ratio);
    assert |docs| == |Ids(docs)| < MaxDocuments;
    var es := OfDocuments(docs, h, token.Bytes());
    EntryOf(es, d);
    forall f
      ensures TokenFrequencyEntry(d, f) in es <==> d < |docs| && Defines(docs[d], h, token.Bytes(), f)
    {
      OfDocumentsMembers(docs, h, token.Bytes(), TokenFrequencyEntry(d, f));
    }
  }

  lemma LengthInDocument(docs: seq<Document>, h: uint64, d: uint32, i: nat)
    requires d < |docs| <= MaxDocuments && i < |docs[d].fields| && docs[d].fields[i].hash == h
    requires docs[d].fields[i].length > 0
    ensures HasLength(LengthsOfDocuments(docs, h), d, |LengthsOfDocuments(docs, h)|)
  {
    var e := DocumentLengthEntry(d, docs[d].fields[i].length);
    assert e in LengthAt(docs[d].fields, h, d)(i);
    CollectMember(|docs[d].fields|, LengthAt(docs[d].fields, h, d), e);
    assert e in LengthsAt(docs, h)(d);
    CollectMember(|docs|, LengthsAt(docs, h), e);
    var ls := LengthsOfDocuments(docs, h);
    var j :| 0 <= j < |ls| && ls[j] == e;
  }

  /** Fields with tokens have a length. */
  ghost predicate Measured(docs: seq<Document>) {
    forall d, i | 0 <= d < |docs| && 0 <= i < |docs[d].fields| && docs[d].fields[i].tokens != [] ::
        docs[d].fields[i].length > 0
  }

  /**
   When every field that has tokens has a length, every posted document has a length entry: scoring never misses one.
   */
  lemma MeasuredIsCovered(s: Searcher, docs: seq<Document>, ratio: Ratio)
    requires IndexOf(s.tables, docs, ratio) && Measured(docs)
    ensures forall b: Bitmap :: Covered(s, b)
  {
    forall h, i, d | h in s.tables.fields && 0 <= i < |s.tables.fields[h].tokens|
        && d in s.ListOf(s.tables.fields[h].tokens[i])
      ensures HasLength(s.tables.fields[h].documentLengths, d, |s.tables.fields[h].documentLengths|)
    {
      CoveredAt(s, docs, ratio, h, i, d);
    }
  }

  lemma CoveredAt(s: Searcher, docs: seq<Document>, ratio: Ratio, h: uint64, i: nat, d: uint32)
    requires IndexOf(s.tables, docs, ratio) && Measured(docs) && h in s.tables.fields && i < |s.tables.fields[h].tokens|
    requires d in s.ListOf(s.tables.fields[h].tokens[i])
    ensures HasLength(s.tables.fields[h].documentLengths, d, |s.tables.fields[h].documentLengths|)
  {
    PostedIsDefined(s, docs, ratio, h, i, d);
    var v := s.tables.fields[h].tokens[i].Bytes();
    var f :| Defines(docs[d], h, v, f);
    var k: nat, j: nat :| k < |docs[d].fields| && j < |docs[d].fields[k].tokens| && docs[d].fields[k].hash == h
                          && docs[d].fields[k].tokens[j] == Some(TokenDefinition(v, f));
    LengthInDocument(docs, h, d, k);
  }
}
