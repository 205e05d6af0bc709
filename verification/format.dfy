/** The index file: its image as bytes, and `Load` as a function from bytes to tables (storage/storage.go:639-796). */
module Format {
  import opened Bytes
  import opened Codec
  import opened Headers
  import opened Options
  import opened Records
  import opened Tables
  import opened Accumulate
  import opened Build

  const MagicNumber := 0x7E7127E9
  const VersionV1 := 0

  type uint16 = x: int | 0 <= x < 0x1_0000

  datatype Header = Header(
    version: uint16,
    totalDocuments: uint32,
    fieldCount: nat,
    totalPostingLists: nat,
    totalPostingListsDataSize: nat,
    totalTokenFrequencies: nat)

  datatype FieldHeader = FieldHeader(
    hash: uint64,
    avgDocumentLength: uint32,
    totalDocumentsLength: nat,
    tokenCount: nat,
    totalTokenFrequencies: nat,
    documentLengthCount: nat)

  function HeaderFront(h: Header, p6: bytes, p4: bytes): bytes {
    PutUint64(MagicNumber) + (LE(h.version, 2) + (p6 + (PutUint32(h.totalDocuments) + p4)))
  }

  function HeaderBack(h: Header): bytes {
    PutUint64(h.fieldCount) + (PutUint64(h.totalPostingLists)
    + (PutUint64(h.totalPostingListsDataSize) + PutUint64(h.totalTokenFrequencies)))
  }

  /** The header with whatever bytes sit in its two paddings. */
  function HeaderBytes(h: Header, p6: bytes, p4: bytes): bytes {
    HeaderFront(h, p6, p4) + HeaderBack(h)
  }

  function Uint16(b: bytes): uint16
    requires |b| == 2
  {
    UnLEBound(b);
    Widths();
    UnLE(b)
  }

  function ReadHeader(b: bytes): Header
    requires |b| == HeaderSize
  {
    var front, back := b[..24], b[24..];
    Header(Uint16(front[8..10]), Uint32(front[16..20]), Uint64(back[..8]), Uint64(back[8..16]), Uint64(back[16..24]),
           Uint64(back[24..]))
  }

  function FieldHeaderBytes(h: FieldHeader, p4: bytes): bytes {
    PutUint64(h.hash) + (PutUint32(h.avgDocumentLength) + p4)
    + (PutUint64(h.totalDocumentsLength)
       + (PutUint64(h.tokenCount) + (PutUint64(h.totalTokenFrequencies) + PutUint64(h.documentLengthCount))))
  }

  function ReadFieldHeader(b: bytes): FieldHeader
    requires |b| == FieldHeaderSize
  {
    var front, back := b[..16], b[16..];
    FieldHeader(Uint64(front[..8]), Uint32(front[8..12]), Uint64(back[..8]), Uint64(back[8..16]), Uint64(back[16..24]),
                Uint64(back[24..]))
  }

  ghost predicate Fits(n: nat) {
    n < 0x1_0000_0000_0000_0000
  }

  lemma HeaderFrontRead(h: Header, p6: bytes, p4: bytes)
    requires |p6| == 6 && |p4| == 4
    ensures var b := HeaderFront(h, p6, p4);
            |b| == 24 && b[8..10] == LE(h.version, 2) && b[16..20] == PutUint32(h.totalDocuments)
  {
  }

  lemma FourWords(a: bytes, b: bytes, c: bytes, d: bytes)
    requires |a| == |b| == |c| == |d| == 8
    ensures var w := a + (b + (c + d));
            |w| == 32 && w[..8] == a && w[8..16] == b && w[16..24] == c && w[24..] == d
  {
  }

  lemma HeaderBackRead(h: Header)
    ensures var b := HeaderBack(h);
            && |b| == 32 && b[..8] == PutUint64(h.fieldCount) && b[8..16] == PutUint64(h.totalPostingLists)
            && b[16..24] == PutUint64(h.totalPostingListsDataSize) && b[24..] == PutUint64(h.totalTokenFrequencies)
  {
    FourWords(PutUint64(h.fieldCount), PutUint64(h.totalPostingLists), PutUint64(h.totalPostingListsDataSize),
              PutUint64(h.totalTokenFrequencies));
  }

  lemma HeaderBytesRead(h: Header, p6: bytes, p4: bytes)
    requires |p6| == 6 && |p4| == 4
    requires Fits(h.fieldCount) && Fits(h.totalPostingLists) && Fits(h.totalPostingListsDataSize)
    requires Fits(h.totalTokenFrequencies)
    ensures |HeaderBytes(h, p6, p4)| == HeaderSize && ReadHeader(HeaderBytes(h, p6, p4)) == h
  {
    var b := HeaderBytes(h, p6, p4);
    HeaderFrontRead(h, p6, p4);
    HeaderBackRead(h);
    assert b[..24] == HeaderFront(h, p6, p4) && b[24..] == HeaderBack(h);
    Widths();
    UnLEOfLE(h.version, 2);
    Uint32Back(h.totalDocuments);
    Uint64Back(h.fieldCount);
    Uint64Back(h.totalPostingLists);
    Uint64Back(h.totalPostingListsDataSize);
    Uint64Back(h.totalTokenFrequencies);
  }

  lemma FieldHeaderSplit(a: bytes, b: bytes, p4: bytes, back: bytes)
    requires |a| == 8 && |b| == |p4| == 4 && |back| == 32
    ensures var w := a + (b + p4) + back;
            |w| == FieldHeaderSize && w[..16][..8] == a && w[..16][8..12] == b && w[16..] == back
  {
  }

  lemma FieldHeaderBytesRead(h: FieldHeader, p4: bytes)
    requires |p4| == 4
    requires Fits(h.totalDocumentsLength) && Fits(h.tokenCount) && Fits(h.totalTokenFrequencies)
    requires Fits(h.documentLengthCount)
    ensures |FieldHeaderBytes(h, p4)| == FieldHeaderSize && ReadFieldHeader(FieldHeaderBytes(h, p4)) == h
  {
    var a, b, c, d := PutUint64(h.totalDocumentsLength), PutUint64(h.tokenCount), PutUint64(h.totalTokenFrequencies),
                      PutUint64(h.documentLengthCount);
    FourWords(a, b, c, d);
    FieldHeaderSplit(PutUint64(h.hash), PutUint32(h.avgDocumentLength), p4, a + (b + (c + d)));
    Uint64Back(h.hash);
    Uint32Back(h.avgDocumentLength);
    Uint64Back(h.totalDocumentsLength);
    Uint64Back(h.tokenCount);
    Uint64Back(h.totalTokenFrequencies);
    Uint64Back(h.documentLengthCount);
  }

  ghost function FieldHeaderOf(h: uint64, f: Field): FieldHeader {
    FieldHeader(h, f.avgDocumentLength, f.totalDocumentsLength, |f.tokens|, f.totalTokenFrequenciesCount,
                |f.documentLengths|)
  }

  ghost function FieldImage(h: uint64, f: Field, p4: bytes): bytes {
    FieldHeaderBytes(FieldHeaderOf(h, f), p4) + (Encode(PutLength, f.documentLengths) + Encode(PutToken, f.tokens))
  }

  ghost predicate FieldFits(f: Field) {
    && Fits(f.totalDocumentsLength) && Fits(|f.tokens|) && Fits(f.totalTokenFrequenciesCount)
    && Fits(|f.documentLengths|)
    && forall i | 0 <= i < |f.tokens| :: TokenFits(f.tokens[i])
  }

  /** The two tables of a field, once its header is read. */
  function ParseFieldTables(header: FieldHeader, buf: bytes): Option<(uint64, Field, bytes)> {
    var lengthsSize := header.documentLengthCount * DocumentLengthEntrySize;
    if |buf| < lengthsSize then None else
    var lengths, buf2 := Decode(GetLength, DocumentLengthEntrySize, header.documentLengthCount, buf),
        buf[lengthsSize..];
    var tokensSize := header.tokenCount * TokenSize;
    if |buf2| < tokensSize then None else
    Some((header.hash,
          Field(header.avgDocumentLength, header.totalDocumentsLength,
                Decode(GetToken, TokenSize, header.tokenCount, buf2),
                header.totalTokenFrequencies, lengths),
          buf2[tokensSize..]))
  }

  /** One field read from the front of the buffer: its hash, the field and what is left; none when a check fails. */
  function ParseField(buf: bytes): Option<(uint64, Field, bytes)> {
    if |buf| < FieldHeaderSize then None
    else ParseFieldTables(ReadFieldHeader(buf[..FieldHeaderSize]), buf[FieldHeaderSize..])
  }

  lemma TableRead<T(!new)>(f: T -> bytes, g: bytes -> T, size: nat, xs: seq<T>, rest: bytes)
    requires (forall x :: |f(x)| == size) && forall i | 0 <= i < |xs| :: g(f(xs[i])) == xs[i]
    ensures |xs| * size <= |Encode(f, xs) + rest| && |Encode(f, xs)| == |xs| * size
    ensures Decode(g, size, |xs|, Encode(f, xs) + rest) == xs
    ensures (Encode(f, xs) + rest)[|xs| * size..] == rest
  {
    EncodeLength(f, size, xs);
    DecodeOfEncode(f, g, size, xs, rest);
  }

  lemma LengthsRead(xs: seq<DocumentLengthEntry>, rest: bytes)
    ensures |xs| * DocumentLengthEntrySize <= |Encode(PutLength, xs) + rest|
    ensures |Encode(PutLength, xs)| == |xs| * DocumentLengthEntrySize
    ensures Decode(GetLength, DocumentLengthEntrySize, |xs|, Encode(PutLength, xs) + rest) == xs
    ensures (Encode(PutLength, xs) + rest)[|xs| * DocumentLengthEntrySize..] == rest
  {
    LengthsBack();
    TableRead(PutLength, GetLength, DocumentLengthEntrySize, xs, rest);
  }

  lemma TokensRead(xs: seq<Token>, rest: bytes)
    requires forall i | 0 <= i < |xs| :: TokenFits(xs[i])
    ensures |xs| * TokenSize <= |Encode(PutToken, xs) + rest|
    ensures |Encode(PutToken, xs)| == |xs| * TokenSize
    ensures Decode(GetToken, TokenSize, |xs|, Encode(PutToken, xs) + rest) == xs
    ensures (Encode(PutToken, xs) + rest)[|xs| * TokenSize..] == rest
  {
    forall i | 0 <= i < |xs|
      ensures GetToken(PutToken(xs[i])) == xs[i]
    {
      TokenBack(xs[i]);
    }
    TableRead(PutToken, GetToken, TokenSize, xs, rest);
  }

  lemma FieldImageLength(h: uint64, f: Field, p4: bytes)
    requires |p4| == 4
    ensures |FieldImage(h, f, p4)| == FieldSize()(f)
  {
    LengthsBack();
    EncodeLength(PutLength, DocumentLengthEntrySize, f.documentLengths);
    EncodeLength(PutToken, TokenSize, f.tokens);
  }

  lemma FieldTablesParsed(h: uint64, f: Field, rest: bytes)
    requires FieldFits(f)
    ensures ParseFieldTables(FieldHeaderOf(h, f),
                             Encode(PutLength, f.documentLengths) + (Encode(PutToken, f.tokens) + rest))
            == Some((h, f, rest))
  {
    LengthsRead(f.documentLengths, Encode(PutToken, f.tokens) + rest);
    TokensRead(f.tokens, rest);
  }

  lemma FieldParsedAt(head: bytes, tail: bytes, header: FieldHeader)
    requires |head| == FieldHeaderSize && ReadFieldHeader(head) == header
    ensures ParseField(head + tail) == ParseFieldTables(header, tail)
  {
    assert (head + tail)[..FieldHeaderSize] == head && (head + tail)[FieldHeaderSize..] == tail;
  }

  lemma Regroup<X>(a: seq<X>, b: seq<X>, c: seq<X>, d: seq<X>)
    ensures a + (b + c) + d == a + (b + (c + d))
  {
  }

  lemma FieldImageParsed(h: uint64, f: Field, p4: bytes, rest: bytes)
    requires |p4| == 4 && FieldFits(f)
    ensures ParseField(FieldImage(h, f, p4) + rest) == Some((h, f, rest))
  {
    var header, lengths, tokens := FieldHeaderBytes(FieldHeaderOf(h, f), p4), Encode(PutLength, f.documentLengths),
        Encode(PutToken, f.tokens);
    FieldHeaderBytesRead(FieldHeaderOf(h, f), p4);
    FieldTablesParsed(h, f, rest);
    Regroup(header, lengths, tokens, rest);
    FieldParsedAt(header, lengths + (tokens + rest), FieldHeaderOf(h, f));
  }

  /** Reading a table looks at no byte behind it. */
  lemma DecodeExtends<T>(g: bytes -> T, size: nat, n: nat, b: bytes, e: bytes)
    requires n * size <= |b|
    ensures Decode(g, size, n, b + e) == Decode(g, size, n, b) && (b + e)[n * size..] == b[n * size..] + e
  {
    forall i | 0 <= i < n
      ensures Decode(g, size, n, b + e)[i] == Decode(g, size, n, b)[i]
    {
      Stride(i, n, size);
      assert (b + e)[i * size..i * size + size] == b[i * size..i * size + size];
    }
  }

  lemma FieldTablesExtend(header: FieldHeader, b: bytes, e: bytes)
    requires ParseFieldTables(header, b).Some?
    ensures var (h, f, rest) := ParseFieldTables(header, b).value;
            ParseFieldTables(header, b + e) == Some((h, f, rest + e))
  {
    var size := header.documentLengthCount * DocumentLengthEntrySize;
    DecodeExtends(GetLength, DocumentLengthEntrySize, header.documentLengthCount, b, e);
    DecodeExtends(GetToken, TokenSize, header.tokenCount, b[size..], e);
  }

  lemma FieldExtends(b: bytes, e: bytes)
    requires ParseField(b).Some?
    ensures var (h, f, rest) := ParseField(b).value; ParseField(b + e) == Some((h, f, rest + e))
  {
    var head, tail := b[..FieldHeaderSize], b[FieldHeaderSize..];
    assert (b + e)[..FieldHeaderSize] == head && (b + e)[FieldHeaderSize..] == tail + e;
    FieldTablesExtend(ReadFieldHeader(head), tail, e);
  }
}
