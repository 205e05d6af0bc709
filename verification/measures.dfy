/** Numbers that BM25 goes by, counted over the documents, and where the index keeps them. */
module MeasuredDocuments {
  import opened Bytes
  import opened Collecting
  import opened Headers
  import opened Bitmaps
  import opened Tables
  import opened Documents
  import opened Build
  import opened Clauses
  import opened Lookups
  import opened BM25
  import opened Searching
  import opened Having

  /** The document has `l` tokens in the field; a field without any is not counted. */
  ghost predicate Measures(doc: Document, h: uint64, l: uint32) {
    l > 0 && exists i: nat :: i < |doc.fields| && doc.fields[i].hash == h && doc.fields[i].length == l
  }

  /** The documents with a length in the field. */
  ghost function MeasuredIn(docs: seq<Document>, h: uint64): set<int> {
    set d | 0 <= d < |docs| && exists l :: Measures(docs[d], h, l)
  }

  /** The documents that have the token. */
  ghost function Holders(docs: seq<Document>, h: uint64, v: bytes): set<int> {
    set d | 0 <= d < |docs| && d < MaxDocuments && Has(docs, d, h, v)
  }

  lemma LengthsOfOne(doc: Document, h: uint64, d: uint32, e: DocumentLengthEntry)
    ensures e in LengthOfDocument(doc, h, d) <==> e.index == d && Measures(doc, h, e.length)
  {
    var f := LengthAt(doc.fields, h, d);
    CollectMember(|doc.fields|, f, e);
    if e.index == d && Measures(doc, h, e.length) {
      var i: nat :| i < |doc.fields| && doc.fields[i].hash == h && doc.fields[i].length == e.length;
      assert f(i)[0] == e;
    }
  }

  /** There is an entry for a length exactly when the document has that length. */
  lemma LengthMembers(docs: seq<Document>, h: uint64, e: DocumentLengthEntry)
    requires |docs| <= MaxDocuments
    ensures e in LengthsOfDocuments(docs, h) <==> e.index < |docs| && Measures(docs[e.index], h, e.length)
  {
    var f := LengthsAt(docs, h);
    CollectMember(|docs|, f, e);
    forall d: nat | d < |docs|
      ensures e in f(d) <==> e.index == d && Measures(docs[d], h, e.length)
    {
      LengthsOfOne(docs[d], h, d, e);
    }
    if e.index < |docs| && Measures(docs[e.index], h, e.length) {
      assert e in f(e.index);
    }
  }

  ghost function IndexesOf(ls: seq<DocumentLengthEntry>): set<int> {
    set i | 0 <= i < |ls| :: ls[i].index
  }

  lemma {:induction false} IndexesCounted(ls: seq<DocumentLengthEntry>)
    requires LengthsAscending(ls)
    ensures |IndexesOf(ls)| == |ls|
  {
    if ls != [] {
      var n := |ls| - 1;
      IndexesCounted(ls[..n]);
      IndexesNext(ls);
    }
  }

  lemma IndexesNext(ls: seq<DocumentLengthEntry>)
    requires LengthsAscending(ls) && ls != []
    ensures var n := |ls| - 1;
            IndexesOf(ls) == IndexesOf(ls[..n]) + {ls[n].index} && ls[n].index !in IndexesOf(ls[..n])
  {
    var n := |ls| - 1;
    forall d
      ensures d in IndexesOf(ls) <==> d in IndexesOf(ls[..n]) + {ls[n].index}
    {
      if d in IndexesOf(ls) {
        var i :| 0 <= i < |ls| && ls[i].index == d;
        assert i < n ==> ls[..n][i].index == d;
      }
      if d in IndexesOf(ls[..n]) {
        var i :| 0 <= i < n && ls[..n][i].index == d;
        assert ls[i].index == d;
      }
    }
  }

  lemma IndexMeasured(docs: seq<Document>, h: uint64, ls: seq<DocumentLengthEntry>, d: int)
    requires |docs| <= MaxDocuments && ls == LengthsOfDocuments(docs, h)
    ensures d in IndexesOf(ls) <==> d in MeasuredIn(docs, h)
  {
    if d in IndexesOf(ls) {
      var i :| 0 <= i < |ls| && ls[i].index == d;
      LengthMembers(docs, h, ls[i]);
    }
    if d in MeasuredIn(docs, h) {
      var l :| Measures(docs[d], h, l);
      LengthMembers(docs, h, DocumentLengthEntry(d, l));
      var i :| 0 <= i < |ls| && ls[i] == DocumentLengthEntry(d, l);
    }
  }

  lemma IndexedDocuments(t: Tables, docs: seq<Document>, ratio: Ratio)
    requires IndexOf(t, docs, ratio)
    ensures |docs| < MaxDocuments
  {
    assert |docs| == |Ids(docs)|;
  }

  /** A field has as many lengths as documents have one in it. */
  lemma LengthsCounted(t: Tables, docs: seq<Document>, ratio: Ratio, h: uint64)
    requires IndexOf(t, docs, ratio) && h in t.fields
    ensures |t.fields[h].documentLengths| == |MeasuredIn(docs, h)|
  {
    var ls := t.fields[h].documentLengths;
    assert FieldOk(t, t.fields[h], ratio);
    IndexedDocuments(t, docs, ratio);
    IndexesCounted(ls);
    forall d
      ensures d in IndexesOf(ls) <==> d in MeasuredIn(docs, h)
    {
      IndexMeasured(docs, h, ls, d);
    }
    assert IndexesOf(ls) == MeasuredIn(docs, h);
  }

  lemma ListIsHolders(s: Searcher, docs: seq<Document>, ratio: Ratio, h: uint64, i: nat)
    requires IndexOf(s.tables, docs, ratio) && h in s.tables.fields && i < |s.tables.fields[h].tokens|
    ensures var token := s.tables.fields[h].tokens[i]; |s.ListOf(token)| == |Holders(docs, h, token.Bytes())|
  {
    var token := s.tables.fields[h].tokens[i];
    var list, holders := s.ListOf(token), Holders(docs, h, token.Bytes());
    IndexedDocuments(s.tables, docs, ratio);
    forall d: uint32
      ensures d in list <==> d in holders
    {
      ListIsHas(s, docs, ratio, h, i, d);
    }
    SameSize(list, holders);
  }

  lemma {:induction false} SameSize(b: Bitmap, xs: set<int>)
    requires (forall d: uint32 :: d in b <==> d in xs) && forall x | x in xs :: 0 <= x < MaxDocuments
    ensures |b| == |xs|
    decreases |b|
  {
    if b == {} {
      assert xs == {};
    } else {
      var d :| d in b;
      SameSize(b - {d}, xs - {d});
    }
  }

  /** A token counts as many documents as have it. */
  lemma FrequencyCounted(s: Searcher, docs: seq<Document>, ratio: Ratio, h: uint64, i: nat)
    requires IndexOf(s.tables, docs, ratio) && h in s.tables.fields && i < |s.tables.fields[h].tokens|
    ensures var token := s.tables.fields[h].tokens[i]; token.frequencyCount == |Holders(docs, h, token.Bytes())|
  {
    var token := s.tables.fields[h].tokens[i];
    EntriesOfToken(s.tables, h, i, ratio);
    DocumentsCounted(Slice(s.tables, token));
    ListIsHolders(s, docs, ratio, h, i);
  }

  /** The frequency that is looked up is the one that the document defines. */
  lemma FrequencyDefined(s: Searcher, docs: seq<Document>, ratio: Ratio, h: uint64, i: nat, d: uint32)
    requires IndexOf(s.tables, docs, ratio) && h in s.tables.fields && i < |s.tables.fields[h].tokens|
    requires d in s.ListOf(s.tables.fields[h].tokens[i])
    ensures var token := s.tables.fields[h].tokens[i];
            d < |docs| && forall f :: Defines(docs[d], h, token.Bytes(), f) <==> f == Tf(EntriesOf(s, token), d)
  {
    var token := s.tables.fields[h].tokens[i];
    EntriesOfToken(s.tables, h, i, ratio);
    PostedIsDefined(s, docs, ratio, h, i, d);
    IndexedDocuments(s.tables, docs, ratio);
    var es := OfDocuments(docs, h, token.Bytes());
    assert es == EntriesOf(s, token);
    forall f
      ensures Defines(docs[d], h, token.Bytes(), f) <==> TokenFrequencyEntry(d, f) in es
    {
      OfDocumentsMembers(docs, h, token.Bytes(), TokenFrequencyEntry(d, f));
    }
    OneFrequency(es, d);
  }

  lemma OneFrequency(es: seq<TokenFrequencyEntry>, d: uint32)
    requires FreqsAscending(es) && exists f :: TokenFrequencyEntry(d, f) in es
    ensures forall f :: TokenFrequencyEntry(d, f) in es <==> f == Tf(es, d)
  {
    var f :| TokenFrequencyEntry(d, f) in es;
    var k: nat :| k < |es| && es[k] == TokenFrequencyEntry(d, f);
    TfAt(es, d, k);
    forall g | TokenFrequencyEntry(d, g) in es
      ensures g == f
    {
      var l: nat :| l < |es| && es[l] == TokenFrequencyEntry(d, g);
      assert l == k;
    }
  }

  /** And so is the length. */
  lemma LengthDefined(t: Tables, docs: seq<Document>, ratio: Ratio, h: uint64, d: uint32)
    requires IndexOf(t, docs, ratio) && h in t.fields && d < |docs| && exists l :: Measures(docs[d], h, l)
    ensures var ls := t.fields[h].documentLengths;
            HasLength(ls, d, |ls|) && forall l :: Measures(docs[d], h, l) <==> l == Dl(ls, d)
  {
    var ls := t.fields[h].documentLengths;
    assert FieldOk(t, t.fields[h], ratio);
    IndexedDocuments(t, docs, ratio);
    forall l
      ensures Measures(docs[d], h, l) <==> DocumentLengthEntry(d, l) in ls
    {
      LengthMembers(docs, h, DocumentLengthEntry(d, l));
    }
    OneLength(ls, d);
  }

  lemma OneLength(ls: seq<DocumentLengthEntry>, d: uint32)
    requires LengthsAscending(ls) && exists l :: DocumentLengthEntry(d, l) in ls
    ensures HasLength(ls, d, |ls|) && forall l :: DocumentLengthEntry(d, l) in ls <==> l == Dl(ls, d)
  {
    var l :| DocumentLengthEntry(d, l) in ls;
    var k: nat :| k < |ls| && ls[k] == DocumentLengthEntry(d, l);
    DlAt(ls, d, k);
    forall m | DocumentLengthEntry(d, m) in ls
      ensures m == l
    {
      var j: nat :| j < |ls| && ls[j] == DocumentLengthEntry(d, m);
      assert j == k;
    }
  }
}
