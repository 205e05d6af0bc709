/**
 Document definitions (storage/document.go) and, straight from them, the index they describe: for each field
 and token, the entries of the documents in order. Building and merging are measured against it.
 */
module Documents {
  import opened Bytes
  import opened Collecting
  import opened Headers
  import opened Options
  import opened Shifts
  import opened Tables

  datatype TokenDefinition = TokenDefinition(value: bytes, frequency: uint32)

  datatype FieldDefinition = FieldDefinition(hash: uint64, tokens: seq<Option<TokenDefinition>>, length: uint32)

  datatype Document = Document(id: RawValue, fields: seq<FieldDefinition>)

  /**
   What the caller promises: a field at most once per document, a token at most once per field, no token over 128 bytes.
   */
  ghost predicate TokensDistinct(ts: seq<Option<TokenDefinition>>) {
    forall i, j | 0 <= i < j < |ts| && ts[i].Some? && ts[j].Some? :: ts[i].value.value != ts[j].value.value
  }

  ghost predicate FieldDefined(fd: FieldDefinition) {
    TokensDistinct(fd.tokens) && forall i | 0 <= i < |fd.tokens| && fd.tokens[i].Some? ::
        |fd.tokens[i].value.value| <= MaxRawValueSize
  }

  ghost predicate FieldsDistinct(fs: seq<FieldDefinition>) {
    forall i, j | 0 <= i < j < |fs| :: fs[i].hash != fs[j].hash
  }

  ghost predicate Defined(doc: Document) {
    FieldsDistinct(doc.fields) && forall i {:trigger FieldDefined(doc.fields[i])} | 0 <= i < |doc.fields| ::
        FieldDefined(doc.fields[i])
  }

  ghost predicate AllDefined(docs: seq<Document>) {
    |docs| < MaxDocuments && forall i {:trigger Defined(docs[i])} | 0 <= i < |docs| :: Defined(docs[i])
  }

  /** What definition i of a field adds to token `v`, as an entry of document `d`. */
  ghost function TokenAt(ts: seq<Option<TokenDefinition>>, v: bytes, d: uint32): nat -> seq<TokenFrequencyEntry> {
    (i: nat) => if i < |ts| && ts[i].Some?
        && ts[i].value.value == v then [TokenFrequencyEntry(d, ts[i].value.frequency)] else []
  }

  ghost function FieldAt(fs: seq<FieldDefinition>, h: uint64, v: bytes, d: uint32): nat -> seq<TokenFrequencyEntry> {
    (i: nat) => if i < |fs| && fs[i].hash == h then Collect(|fs[i].tokens|, TokenAt(fs[i].tokens, v, d)) else []
  }

  ghost function OfDocument(doc: Document, h: uint64, v: bytes, d: uint32): seq<TokenFrequencyEntry> {
    Collect(|doc.fields|, FieldAt(doc.fields, h, v, d))
  }

  ghost function DocumentAt(docs: seq<Document>, h: uint64, v: bytes): nat -> seq<TokenFrequencyEntry> {
    (d: nat) => if d < |docs| && d < MaxDocuments then OfDocument(docs[d], h, v, d) else []
  }

  /** Entries of token `v` in field `h`, document by document. */
  ghost function OfDocuments(docs: seq<Document>, h: uint64, v: bytes): seq<TokenFrequencyEntry> {
    Collect(|docs|, DocumentAt(docs, h, v))
  }

  ghost function LengthAt(fs: seq<FieldDefinition>, h: uint64, d: uint32): nat -> seq<DocumentLengthEntry> {
    (i: nat) => if i < |fs| && fs[i].hash == h && fs[i].length > 0 then [DocumentLengthEntry(d, fs[i].length)] else []
  }

  ghost function LengthOfDocument(doc: Document, h: uint64, d: uint32): seq<DocumentLengthEntry> {
    Collect(|doc.fields|, LengthAt(doc.fields, h, d))
  }

  ghost function LengthsAt(docs: seq<Document>, h: uint64): nat -> seq<DocumentLengthEntry> {
    (d: nat) => if d < |docs| && d < MaxDocuments then LengthOfDocument(docs[d], h, d) else []
  }

  ghost function LengthsOfDocuments(docs: seq<Document>, h: uint64): seq<DocumentLengthEntry> {
    Collect(|docs|, LengthsAt(docs, h))
  }

  ghost predicate FieldNamed(fs: seq<FieldDefinition>, n: nat, h: uint64) {
    exists i :: 0 <= i < n && i < |fs| && fs[i].hash == h
  }

  /** Some of the first `n` documents has the field. */
  ghost predicate Named(docs: seq<Document>, n: nat, h: uint64) {
    exists d: nat :: d < n && d < |docs| && FieldNamed(docs[d].fields, |docs[d].fields|, h)
  }

  function Ids(docs: seq<Document>): seq<RawValue> {
    seq(|docs|, i requires 0 <= i < |docs| => docs[i].id)
  }

  lemma OneOfTokens(ts: seq<Option<TokenDefinition>>, v: bytes, d: uint32)
    requires TokensDistinct(ts)
    ensures |Collect(|ts|, TokenAt(ts, v, d))| <= 1
    ensures forall e | e in Collect(|ts|, TokenAt(ts, v, d)) :: e.documentIndex == d
  {
    CollectOne(|ts|, TokenAt(ts, v, d));
  }

  /** Under the contract a document adds at most one entry per token, its own. */
  lemma OneOfDocument(doc: Document, h: uint64, v: bytes, d: uint32)
    requires Defined(doc)
    ensures |OfDocument(doc, h, v, d)| <= 1
    ensures OfDocument(doc, h, v, d) != [] ==> OfDocument(doc, h, v, d)[0].documentIndex == d
  {
    var fs, f := doc.fields, FieldAt(doc.fields, h, v, d);
    forall i: nat | i < |fs|
      ensures |f(i)| <= 1 && forall e | e in f(i) :: e.documentIndex == d
    {
      assert FieldDefined(fs[i]);
      OneOfTokens(fs[i].tokens, v, d);
    }
    CollectOne(|fs|, f);
  }

  /** The entries of a token ascend by document. */
  lemma DocumentEntriesAscend(docs: seq<Document>, h: uint64, v: bytes)
    requires AllDefined(docs)
    ensures AscendsBelow(OfDocuments(docs, h, v), (e: TokenFrequencyEntry) => e.documentIndex, |docs|)
  {
    var f := DocumentAt(docs, h, v);
    forall d: nat | d < |docs|
      ensures |f(d)| <= 1 && (f(d) != [] ==> f(d)[0].documentIndex == d)
    {
      assert Defined(docs[d]);
      OneOfDocument(docs[d], h, v, d);
    }
    CollectAscends(|docs|, f, (e: TokenFrequencyEntry) => e.documentIndex);
  }

  lemma OneLengthOfDocument(doc: Document, h: uint64, d: uint32)
    requires Defined(doc)
    ensures |LengthOfDocument(doc, h, d)| <= 1
    ensures forall e | e in LengthOfDocument(doc, h, d) :: e.index == d && e.length > 0
  {
    var f := LengthAt(doc.fields, h, d);
    CollectOne(|doc.fields|, f);
  }

  lemma DocumentLengthsAscend(docs: seq<Document>, h: uint64)
    requires AllDefined(docs)
    ensures LengthsOk(LengthsOfDocuments(docs, h), |docs|)
  {
    var f, ls := LengthsAt(docs, h), LengthsOfDocuments(docs, h);
    forall d: nat | d < |docs|
      ensures |f(d)| <= 1 && (f(d) != [] ==> f(d)[0].index == d) && forall e | e in f(d) :: e.length > 0
    {
      assert Defined(docs[d]);
      OneLengthOfDocument(docs[d], h, d);
    }
    CollectAscends(|docs|, f, (e: DocumentLengthEntry) => e.index);
    forall i | 0 <= i < |ls|
      ensures ls[i].length > 0
    {
      CollectMember(|docs|, f, ls[i]);
    }
  }

  /** Document `d` defines token `v` with frequency `f` in field `h`. */
  ghost predicate Defines(doc: Document, h: uint64, v: bytes, f: uint32) {
    exists i: nat, j: nat :: i < |doc.fields| && j < |doc.fields[i].tokens| && doc.fields[i].hash == h
                             && doc.fields[i].tokens[j] == Some(TokenDefinition(v, f))
  }

  lemma OfTokensMembers(ts: seq<Option<TokenDefinition>>, v: bytes, d: uint32, e: TokenFrequencyEntry)
    ensures e in Collect(|ts|, TokenAt(ts, v, d)) <==>
            e.documentIndex == d && exists j: nat :: j < |ts| && ts[j] == Some(TokenDefinition(v, e.frequency))
  {
    var f := TokenAt(ts, v, d);
    CollectMember(|ts|, f, e);
    if e.documentIndex == d {
      if j: nat :| j < |ts| && ts[j] == Some(TokenDefinition(v, e.frequency)) {
        assert f(j)[0] == e;
      }
    }
  }

  lemma OfDocumentMembers(doc: Document, h: uint64, v: bytes, d: uint32, e: TokenFrequencyEntry)
    ensures e in OfDocument(doc, h, v, d) <==> e.documentIndex == d && Defines(doc, h, v, e.frequency)
  {
    var fs, f := doc.fields, FieldAt(doc.fields, h, v, d);
    CollectMember(|fs|, f, e);
    forall i: nat | i < |fs|
      ensures e in f(i) <==> fs[i].hash == h && e.documentIndex == d
                             && exists j: nat :: j < |fs[i].tokens|
                                                 && fs[i].tokens[j] == Some(TokenDefinition(v, e.frequency))
    {
      OfTokensMembers(fs[i].tokens, v, d, e);
    }
  }

  /** The reference index, read one entry at a time: exactly what the documents define. */
  lemma OfDocumentsMembers(docs: seq<Document>, h: uint64, v: bytes, e: TokenFrequencyEntry)
    requires |docs| <= MaxDocuments
    ensures e in OfDocuments(docs, h, v)
            <==> e.documentIndex < |docs| && Defines(docs[e.documentIndex], h, v, e.frequency)
  {
    var f := DocumentAt(docs, h, v);
    CollectMember(|docs|, f, e);
    forall d: nat | d < |docs|
      ensures e in f(d) <==> e.documentIndex == d && Defines(docs[d], h, v, e.frequency)
    {
      OfDocumentMembers(docs[d], h, v, d, e);
    }
    if e.documentIndex < |docs| && Defines(docs[e.documentIndex], h, v, e.frequency) {
      assert e in f(e.documentIndex);
    }
  }

  lemma OfTokensShift(ts: seq<Option<TokenDefinition>>, v: bytes, d: uint32, offset: uint32)
    ensures Collect(|ts|, TokenAt(ts, v, Add32(offset, d))) == Shift(Collect(|ts|, TokenAt(ts, v, d)), offset)
  {
    CollectMapped(|ts|, TokenAt(ts, v, d), ShiftEntry(offset), TokenAt(ts, v, Add32(offset, d)));
  }

  lemma OfDocumentShift(doc: Document, h: uint64, v: bytes, d: uint32, offset: uint32)
    ensures OfDocument(doc, h, v, Add32(offset, d)) == Shift(OfDocument(doc, h, v, d), offset)
  {
    var fs, f, g := doc.fields, FieldAt(doc.fields, h, v, d), FieldAt(doc.fields, h, v, Add32(offset, d));
    forall i: nat | i < |fs|
      ensures g(i) == MapSeq(f(i), ShiftEntry(offset))
    {
      OfTokensShift(fs[i].tokens, v, d, offset);
    }
    CollectMapped(|fs|, f, ShiftEntry(offset), g);
  }

  lemma LengthOfDocumentShift(doc: Document, h: uint64, d: uint32, offset: uint32)
    ensures LengthOfDocument(doc, h, Add32(offset, d)) == ShiftLengths(LengthOfDocument(doc, h, d), offset)
  {
    CollectMapped(|doc.fields|, LengthAt(doc.fields, h, d), ShiftLength(offset),
                  LengthAt(doc.fields, h, Add32(offset, d)));
  }

  lemma DocumentAfter(xs: seq<Document>, ys: seq<Document>, h: uint64, v: bytes, d: nat)
    requires |xs| + |ys| < MaxDocuments && d < |ys|
    ensures DocumentAt(xs + ys, h, v)(|xs| + d) == MapSeq(DocumentAt(ys, h, v)(d), ShiftEntry(|xs|))
    ensures LengthsAt(xs + ys, h)(|xs| + d) == MapSeq(LengthsAt(ys, h)(d), ShiftLength(|xs|))
  {
    assert (xs + ys)[|xs| + d] == ys[d] && Add32(|xs|, d) == |xs| + d;
    OfDocumentShift(ys[d], h, v, d, |xs|);
    LengthOfDocumentShift(ys[d], h, d, |xs|);
  }

  lemma DocumentBefore(xs: seq<Document>, ys: seq<Document>, h: uint64, v: bytes, d: nat)
    requires |xs| + |ys| < MaxDocuments && d < |xs|
    ensures DocumentAt(xs + ys, h, v)(d) == DocumentAt(xs, h, v)(d)
    ensures LengthsAt(xs + ys, h)(d) == LengthsAt(xs, h)(d)
  {
    assert (xs + ys)[d] == xs[d];
  }

  lemma DocumentsStart(xs: seq<Document>, ys: seq<Document>, h: uint64, v: bytes)
    requires |xs| + |ys| < MaxDocuments
    ensures Starts(|xs|, DocumentAt(xs + ys, h, v), DocumentAt(xs, h, v))
    ensures Starts(|xs|, LengthsAt(xs + ys, h), LengthsAt(xs, h))
  {
    forall d: nat | d < |xs|
      ensures DocumentAt(xs + ys, h, v)(d) == DocumentAt(xs, h, v)(d) && LengthsAt(xs + ys, h)(d) == LengthsAt(xs, h)(d)
    {
      DocumentBefore(xs, ys, h, v, d);
    }
  }

  lemma DocumentsContinue(xs: seq<Document>, ys: seq<Document>, h: uint64, v: bytes)
    requires |xs| + |ys| < MaxDocuments
    ensures Continues(|xs|, |ys|, DocumentAt(xs + ys, h, v), DocumentAt(ys, h, v), ShiftEntry(|xs|))
  {
    forall d: nat | d < |ys|
      ensures DocumentAt(xs + ys, h, v)(|xs| + d) == MapSeq(DocumentAt(ys, h, v)(d), ShiftEntry(|xs|))
    {
      DocumentAfter(xs, ys, h, v, d);
    }
  }

  lemma LengthsContinue(xs: seq<Document>, ys: seq<Document>, h: uint64)
    requires |xs| + |ys| < MaxDocuments
    ensures Continues(|xs|, |ys|, LengthsAt(xs + ys, h), LengthsAt(ys, h), ShiftLength(|xs|))
  {
    forall d: nat | d < |ys|
      ensures LengthsAt(xs + ys, h)(|xs| + d) == MapSeq(LengthsAt(ys, h)(d), ShiftLength(|xs|))
    {
      DocumentAfter(xs, ys, h, [], d);
    }
  }

  /** The index of `xs` followed by `ys` is that of `xs`, then that of `ys` renumbered. */
  lemma OfConcat(xs: seq<Document>, ys: seq<Document>, h: uint64, v: bytes)
    requires |xs| + |ys| < MaxDocuments
    ensures OfDocuments(xs + ys, h, v) == OfDocuments(xs, h, v) + Shift(OfDocuments(ys, h, v), |xs|)
  {
    DocumentsStart(xs, ys, h, v);
    DocumentsContinue(xs, ys, h, v);
    CollectJoined(|xs|, |ys|, |xs + ys|, DocumentAt(xs + ys, h, v), DocumentAt(xs, h, v), DocumentAt(ys, h, v),
                  ShiftEntry(|xs|));
  }

  lemma LengthsOfConcat(xs: seq<Document>, ys: seq<Document>, h: uint64)
    requires |xs| + |ys| < MaxDocuments
    ensures LengthsOfDocuments(xs + ys, h) == LengthsOfDocuments(xs, h) + ShiftLengths(LengthsOfDocuments(ys, h), |xs|)
  {
    DocumentsStart(xs, ys, h, []);
    LengthsContinue(xs, ys, h);
    CollectJoined(|xs|, |ys|, |xs + ys|, LengthsAt(xs + ys, h), LengthsAt(xs, h), LengthsAt(ys, h), ShiftLength(|xs|));
  }

  lemma NamedConcat(xs: seq<Document>, ys: seq<Document>, h: uint64)
    ensures Named(xs + ys, |xs| + |ys|, h) <==> Named(xs, |xs|, h) || Named(ys, |ys|, h)
  {
    if d: nat :| d < |xs| && FieldNamed(xs[d].fields, |xs[d].fields|, h) {
      assert (xs + ys)[d] == xs[d];
    }
    if d: nat :| d < |ys| && FieldNamed(ys[d].fields, |ys[d].fields|, h) {
      assert (xs + ys)[|xs| + d] == ys[d];
    }
  }
}
