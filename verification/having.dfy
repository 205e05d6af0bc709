/** What the documents have, and what an index of them says of it. */
module Having {
  import opened Bytes
  import opened Headers
  import opened Tables
  import opened Documents
  import opened Build
  import opened Clauses
  import opened Searching

  /** Document `d` has token `v` in field `h`. */
  ghost predicate Has(docs: seq<Document>, d: uint32, h: uint64, v: bytes) {
    d < |docs| && exists f :: Defines(docs[d], h, v, f)
  }

  ghost predicate Occurs(docs: seq<Document>, h: uint64, v: bytes) {
    exists d :: Has(docs, d, h, v)
  }

  lemma ListIsHas(s: Searcher, docs: seq<Document>, ratio: Ratio, h: uint64, i: nat, d: uint32)
    requires IndexOf(s.tables, docs, ratio) && h in s.tables.fields && i < |s.tables.fields[h].tokens|
    ensures d in s.ListOf(s.tables.fields[h].tokens[i]) <==> Has(docs, d, h, s.tables.fields[h].tokens[i].Bytes())
  {
    PostedIsDefined(s, docs, ratio, h, i, d);
  }

  /** Every token of the index is there for some document. */
  lemma TokenOccurs(s: Searcher, docs: seq<Document>, ratio: Ratio, h: uint64, i: nat) returns (d: uint32)
    requires IndexOf(s.tables, docs, ratio) && h in s.tables.fields && i < |s.tables.fields[h].tokens|
    ensures d in s.ListOf(s.tables.fields[h].tokens[i]) && Has(docs, d, h, s.tables.fields[h].tokens[i].Bytes())
  {
    EntriesOfToken(s.tables, h, i, ratio);
    var es := Slice(s.tables, s.tables.fields[h].tokens[i]);
    d := es[0].documentIndex;
    assert d in DocumentsOf(es);
    ListIsHas(s, docs, ratio, h, i, d);
  }

  /** And every token of a document is in the index. */
  lemma HasIsToken(s: Searcher, docs: seq<Document>, ratio: Ratio, h: uint64, v: bytes, d: uint32) returns (i: nat)
    requires IndexOf(s.tables, docs, ratio) && Has(docs, d, h, v)
    ensures h in s.tables.fields && HasToken(s.tables.fields[h].tokens, v, i)
  {
    var f :| Defines(docs[d], h, v, f);
    assert |docs| == |Ids(docs)| <= MaxDocuments;
    OfDocumentsMembers(docs, h, v, TokenFrequencyEntry(d, f));
    assert Entries(s.tables, h, v) == OfDocuments(docs, h, v) != [];
    i :| HasToken(s.tables.fields[h].tokens, v, i);
  }

  /** A token that one of `ts` stands for. */
  ghost predicate Among(ts: seq<Token>, v: bytes) {
    exists i: nat :: HasToken(ts, v, i)
  }

  /** The tokens picked from a table post a document exactly when it has one of them. */
  lemma PostedIsHas(s: Searcher, docs: seq<Document>, ratio: Ratio, h: uint64, ts: seq<Token>, d: uint32)
    requires IndexOf(s.tables, docs, ratio) && h in s.tables.fields
    requires forall t | t in ts :: t in s.tables.fields[h].tokens
    ensures s.Posted(ts, d) <==> exists v :: Among(ts, v) && Has(docs, d, h, v)
  {
    forall k: nat | k < |ts|
      ensures d in s.ListOf(ts[k]) <==> Has(docs, d, h, ts[k].Bytes())
    {
      assert ts[k] in ts;
      var i: nat :| i < |s.tables.fields[h].tokens| && s.tables.fields[h].tokens[i] == ts[k];
      ListIsHas(s, docs, ratio, h, i, d);
    }
    if s.Posted(ts, d) {
      var k: nat :| k < |ts| && d in s.ListOf(ts[k]);
      assert HasToken(ts, ts[k].Bytes(), k);
    }
    if v :| Among(ts, v) && Has(docs, d, h, v) {
      var k: nat :| HasToken(ts, v, k);
    }
  }

  /** What a document has is among the tokens of the field. */
  lemma HasIsAmong(s: Searcher, docs: seq<Document>, ratio: Ratio, h: uint64, v: bytes, d: uint32)
    requires IndexOf(s.tables, docs, ratio) && Has(docs, d, h, v)
    ensures h in s.tables.fields && Among(s.tables.fields[h].tokens, v)
  {
    var i := HasIsToken(s, docs, ratio, h, v, d);
  }

  lemma OccursAt(s: Searcher, docs: seq<Document>, ratio: Ratio, h: uint64, i: nat, v: bytes)
    requires IndexOf(s.tables, docs, ratio) && h in s.tables.fields && HasToken(s.tables.fields[h].tokens, v, i)
    ensures Occurs(docs, h, v)
  {
    var d := TokenOccurs(s, docs, ratio, h, i);
    assert Has(docs, d, h, v);
  }

  lemma OccursIsAmong(s: Searcher, docs: seq<Document>, ratio: Ratio, h: uint64, v: bytes)
    requires IndexOf(s.tables, docs, ratio) && Occurs(docs, h, v)
    ensures h in s.tables.fields && Among(s.tables.fields[h].tokens, v)
  {
    var d :| Has(docs, d, h, v);
    HasIsAmong(s, docs, ratio, h, v, d);
  }

  lemma SortedTokens(s: Searcher, ratio: Ratio, h: uint64)
    requires WellFormed(s.tables, ratio) && h in s.tables.fields
    ensures Tokens.Sorted(s.tables.fields[h].tokens)
  {
    assert FieldOk(s.tables, s.tables.fields[h], ratio);
  }

  lemma AmongIsOccurs(s: Searcher, docs: seq<Document>, ratio: Ratio, h: uint64, v: bytes)
    requires IndexOf(s.tables, docs, ratio)
    ensures h in s.tables.fields && Among(s.tables.fields[h].tokens, v) <==> Occurs(docs, h, v)
  {
    if h in s.tables.fields && Among(s.tables.fields[h].tokens, v) {
      var i: nat :| HasToken(s.tables.fields[h].tokens, v, i);
      OccursAt(s, docs, ratio, h, i, v);
    }
    if Occurs(docs, h, v) {
      OccursIsAmong(s, docs, ratio, h, v);
    }
  }
}
