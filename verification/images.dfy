/** The whole index file: its bytes, `Load` as a function of them, and the two ways that function can go. */
module Images {
  import opened Bytes
  import opened Codec
  import opened Collecting
  import opened Headers
  import opened Options
  import opened Records
  import opened Tables
  import opened Totals
  import opened Build
  import opened Format
  import opened ListTables
  import opened Parsing
  import opened Regions

  /** Order of the fields in the file, and the padding bytes each writer leaves behind. */
  datatype Shape = Shape(version: uint16, order: seq<uint64>, pads: seq<bytes>, p6: bytes, p4: bytes)

  ghost predicate ShapeOk(t: Tables, s: Shape) {
    && Enumerates(s.order, t.fields.Keys) && |s.pads| == |s.order|
    && (forall i | 0 <= i < |s.pads| :: |s.pads[i]| == 4)
    && |s.p6| == 6 && |s.p4| == 4
  }

  ghost function HeaderOf(t: Tables, version: uint16): Header
    requires |t.documentsIds| < MaxDocuments
  {
    Header(version, |t.documentsIds|, |t.fields|, |t.postingLists|, |Join(t.postingLists, |t.postingLists|)|,
           |t.tokenFrequencies|)
  }

  ghost function FieldAt(fields: map<uint64, Field>, order: seq<uint64>, pads: seq<bytes>): nat -> bytes {
    PieceOf(FieldImage, fields, order, pads)
  }

  ghost function FieldsImage(t: Tables, s: Shape): bytes {
    Collect(|s.order|, FieldAt(t.fields, s.order, s.pads))
  }


  ghost function BodyImage(t: Tables, s: Shape): bytes {
    Encode(PutRawValue, t.documentsIds)
        + (Encode(PutFrequency, t.tokenFrequencies) + (FieldsImage(t, s) + ListsImage(t.postingLists)))
  }

  ghost function Image(t: Tables, s: Shape): bytes
    requires |t.documentsIds| < MaxDocuments
  {
    HeaderBytes(HeaderOf(t, s.version), s.p6, s.p4) + BodyImage(t, s)
  }

  /** Every counter fits its 64 bits. */
  ghost predicate TablesFit(t: Tables) {
    && |t.documentsIds| < MaxDocuments
    && Fits(|t.fields|) && Fits(|t.postingLists|) && Fits(|t.tokenFrequencies|)
    && Fits(|Join(t.postingLists, |t.postingLists|)|)
    && forall h | h in t.fields :: FieldFits(t.fields[h])
  }

  datatype MappedLists = MappedLists(headers: seq<PostingListHeader>, reference: bytes)

  /** The posting lists region; without lists nothing is set and nothing is checked. */
  function ParseLists(h: Header, buf: bytes): Option<(Option<MappedLists>, bytes)> {
    var headersSize := h.totalPostingLists * PostingListHeaderSize;
    if |buf| < headersSize then None
    else if headersSize == 0 then Some((None, buf))
    else
      var headers, buf1 := Decode(GetHeader, PostingListHeaderSize, h.totalPostingLists, buf), buf[headersSize..];
      if |buf1| < h.totalPostingListsDataSize then None
      else if SumOfLengths(headers, |headers|) != h.totalPostingListsDataSize then None
      else Some((Some(MappedLists(headers, buf1[..h.totalPostingListsDataSize])), buf1[h.totalPostingListsDataSize..]))
  }

  /** What `Load` assigns: a table whose count is zero is left alone. */
  datatype Contents = Contents(
    documentsIds: Option<seq<RawValue>>,
    tokenFrequencies: Option<seq<TokenFrequencyEntry>>,
    fields: map<uint64, Field>,
    postingLists: Option<MappedLists>)

  datatype Loaded = Failed | HeaderOnly(version: uint16) | Loaded(version: uint16, contents: Contents, size: int)

  function Assigned<T>(xs: seq<T>): Option<seq<T>> {
    if |xs| > 0 then Some(xs) else None
  }

  /** Fields, then lists. */
  function ParseTail(h: Header, buf: bytes): Option<(map<uint64, Field>, Option<MappedLists>, bytes)> {
    match ReadAll(ParseField, h.fieldCount, buf, map[])
    case None => None
    case Some((fields, buf1)) =>
      match ParseLists(h, buf1)
      case None => None
      case Some((lists, buf2)) => Some((fields, lists, buf2))
  }

  function ParseRest(h: Header, ids: seq<RawValue>, freqs: seq<TokenFrequencyEntry>, buf: bytes): Option<(Contents,
      bytes)> {
    match ParseTail(h, buf)
    case None => None
    case Some((fields, lists, rest)) => Some((Contents(Assigned(ids), Assigned(freqs), fields, lists), rest))
  }

  function ParseFrequencies(h: Header, ids: seq<RawValue>, buf: bytes): Option<(Contents, bytes)> {
    var size := h.totalTokenFrequencies * TokenFrequencyEntrySize;
    if |buf| < size then None
    else ParseRest(h, ids, Decode(GetFrequency, TokenFrequencyEntrySize, h.totalTokenFrequencies, buf), buf[size..])
  }

  function ParseBody(h: Header, buf: bytes): Option<(Contents, bytes)> {
    var size := h.totalDocuments * DocumentIdSize;
    if |buf| < size then None
    else ParseFrequencies(h, Decode(GetRawValue, DocumentIdSize, h.totalDocuments, buf), buf[size..])
  }

  /** `Load` on the bytes of the mapped file. */
  function Parse(buf: bytes): Loaded {
    if |buf| < HeaderSize then Failed
    else
      var h, buf1 := ReadHeader(buf[..HeaderSize]), buf[HeaderSize..];
      if buf1 == [] then HeaderOnly(h.version)
      else match ParseBody(h, buf1)
        case None => Failed
        case Some((contents, rest)) => Loaded(h.version, contents, |buf| - |rest|)
  }

  lemma FieldRead(t: Tables, s: Shape, k: nat)
    requires TablesFit(t) && ShapeOk(t, s) && k < |s.order|
    ensures PieceReads(ParseField, FieldAt(t.fields, s.order, s.pads), t.fields, s.order, k)
  {
    var h := s.order[k];
    assert h in t.fields && FieldFits(t.fields[h]);
    var image := FieldImage(h, t.fields[h], s.pads[k]);
    forall rest
      ensures ParseField(image + rest) == Some((h, t.fields[h], rest))
    {
      FieldImageParsed(h, t.fields[h], s.pads[k], rest);
    }
  }

  lemma HeadersRead(ls: seq<bytes>, rest: bytes)
    requires Fits(|Join(ls, |ls|)|)
    ensures var hs, e := HeadersOf(ls), Encode(PutHeader, HeadersOf(ls));
            && |e| == |ls| * PostingListHeaderSize && Decode(GetHeader, PostingListHeaderSize, |ls|, e + rest) == hs
            && (e + rest)[|ls| * PostingListHeaderSize..] == rest
  {
    forall i | 0 <= i < |ls|
      ensures GetHeader(PutHeader(HeadersOf(ls)[i])) == HeadersOf(ls)[i]
    {
      CollectPiece(i, |ls|, ListAt(ls));
      ListHeaderBack(HeadersOf(ls)[i]);
    }
    TableRead(PutHeader, GetHeader, PostingListHeaderSize, HeadersOf(ls), rest);
  }

  ghost function ListsAssigned(ls: seq<bytes>): Option<MappedLists> {
    if |ls| > 0 then Some(MappedLists(HeadersOf(ls), Join(ls, |ls|))) else None
  }

  lemma ListsParsed(h: Header, ls: seq<bytes>, rest: bytes)
    requires h.totalPostingLists == |ls| && h.totalPostingListsDataSize == |Join(ls, |ls|)| && Fits(|Join(ls, |ls|)|)
    ensures ParseLists(h, ListsImage(ls) + rest) == Some((ListsAssigned(ls), rest))
  {
    var data := Join(ls, |ls|);
    HeadersRead(ls, data + rest);
    assert ListsImage(ls) + rest == Encode(PutHeader, HeadersOf(ls)) + (data + rest);
    LengthsOfHeaders(ls, |ls|);
    assert (data + rest)[..|data|] == data && (data + rest)[|data|..] == rest;
    if ls == [] {
      assert ListsImage(ls) + rest == rest;
    }
  }

  /** What a load of the image of `t` assigns. */
  ghost function ContentsOf(t: Tables): Contents {
    Contents(Assigned(t.documentsIds), Assigned(t.tokenFrequencies), t.fields, ListsAssigned(t.postingLists))
  }

  /** `image` reads as the fields, whatever follows. */
  ghost predicate FieldsReadBack(n: nat, image: bytes, fields: map<uint64, Field>) {
    forall rest {:trigger ReadAll(ParseField, n, image + rest, map[])} ::
      ReadAll(ParseField, n, image + rest, map[]) == Some((fields, rest))
  }

  lemma FieldsImageReads(t: Tables, s: Shape)
    requires TablesFit(t) && ShapeOk(t, s)
    ensures FieldsReadBack(|s.order|, FieldsImage(t, s), t.fields)
  {
    forall k: nat | k < |s.order|
      ensures PieceReads(ParseField, FieldAt(t.fields, s.order, s.pads), t.fields, s.order, k)
    {
      FieldRead(t, s, k);
    }
    forall rest
      ensures ReadAll(ParseField, |s.order|, FieldsImage(t, s) + rest, map[]) == Some((t.fields, rest))
    {
      ReadBack(ParseField, FieldAt(t.fields, s.order, s.pads), t.fields, s.order, rest);
    }
  }

  lemma RestParsed(h: Header, t: Tables, image: bytes, rest: bytes)
    requires FieldsReadBack(h.fieldCount, image, t.fields) && Fits(|Join(t.postingLists, |t.postingLists|)|)
    requires h.totalPostingLists == |t.postingLists|
    requires h.totalPostingListsDataSize == |Join(t.postingLists, |t.postingLists|)|
    ensures ParseRest(h, t.documentsIds, t.tokenFrequencies, image + (ListsImage(t.postingLists) + rest))
            == Some((ContentsOf(t), rest))
  {
    assert ReadAll(ParseField, h.fieldCount, image + (ListsImage(t.postingLists) + rest), map[])
        == Some((t.fields, ListsImage(t.postingLists) + rest));
    ListsParsed(h, t.postingLists, rest);
  }

  lemma IdsRead(xs: seq<RawValue>, rest: bytes)
    ensures |Encode(PutRawValue, xs)| == |xs| * DocumentIdSize
    ensures Decode(GetRawValue, DocumentIdSize, |xs|, Encode(PutRawValue, xs) + rest) == xs
    ensures (Encode(PutRawValue, xs) + rest)[|xs| * DocumentIdSize..] == rest
  {
    RawValuesBack();
    TableRead(PutRawValue, GetRawValue, DocumentIdSize, xs, rest);
  }

  lemma FrequenciesRead(xs: seq<TokenFrequencyEntry>, rest: bytes)
    ensures |Encode(PutFrequency, xs)| == |xs| * TokenFrequencyEntrySize
    ensures Decode(GetFrequency, TokenFrequencyEntrySize, |xs|, Encode(PutFrequency, xs) + rest) == xs
    ensures (Encode(PutFrequency, xs) + rest)[|xs| * TokenFrequencyEntrySize..] == rest
  {
    FrequenciesBack();
    TableRead(PutFrequency, GetFrequency, TokenFrequencyEntrySize, xs, rest);
  }

  lemma BodyParsed(t: Tables, s: Shape, rest: bytes)
    requires TablesFit(t) && ShapeOk(t, s) && |s.order| == |t.fields|
    ensures ParseBody(HeaderOf(t, s.version), BodyImage(t, s) + rest) == Some((ContentsOf(t), rest))
  {
    FieldsImageReads(t, s);
    var image, lists := FieldsImage(t, s), ListsImage(t.postingLists);
    RestParsed(HeaderOf(t, s.version), t, image, rest);
    TablesParsed(HeaderOf(t, s.version), t, image + lists, rest, image + (lists + rest));
  }

  /** The two tables in front of the fields; `tail` is what the fields and lists look like. */
  lemma TablesParsed(h: Header, t: Tables, tail: bytes, rest: bytes, after: bytes)
    requires h.totalDocuments == |t.documentsIds| && h.totalTokenFrequencies == |t.tokenFrequencies|
    requires after == tail + rest
    ensures ParseBody(h, Encode(PutRawValue, t.documentsIds) + (Encode(PutFrequency, t.tokenFrequencies) + tail) + rest)
            == ParseRest(h, t.documentsIds, t.tokenFrequencies, after)
  {
    var ids, freqs := Encode(PutRawValue, t.documentsIds), Encode(PutFrequency, t.tokenFrequencies);
    IdsRead(t.documentsIds, freqs + after);
    FrequenciesRead(t.tokenFrequencies, after);
    Associative(ids, freqs + tail, rest);
    Associative(freqs, tail, rest);
  }

  lemma ListsExtend(h: Header, b: bytes, e: bytes)
    requires ParseLists(h, b).Some?
    ensures var (lists, rest) := ParseLists(h, b).value; ParseLists(h, b + e) == Some((lists, rest + e))
  {
    DecodeExtends(GetHeader, PostingListHeaderSize, h.totalPostingLists, b, e);
    var size, data := h.totalPostingLists * PostingListHeaderSize, h.totalPostingListsDataSize;
    if size != 0 {
      assert (b[size..] + e)[..data] == b[size..][..data] && (b[size..] + e)[data..] == b[size..][data..] + e;
    }
  }

  lemma FieldReader()
    ensures Prefixed(ParseField)
  {
    forall b, e | ParseField(b).Some?
      ensures ParseField(b + e) == Some((ParseField(b).value.0, ParseField(b).value.1, ParseField(b).value.2 + e))
    {
      FieldExtends(b, e);
    }
  }

  lemma RestExtends(h: Header, ids: seq<RawValue>, freqs: seq<TokenFrequencyEntry>, b: bytes, e: bytes)
    requires ParseRest(h, ids, freqs, b).Some?
    ensures var (contents, rest) := ParseRest(h, ids, freqs, b).value;
            ParseRest(h, ids, freqs, b + e) == Some((contents, rest + e))
  {
    FieldReader();
    ReadExtends(ParseField, h.fieldCount, b, map[], e);
    ListsExtend(h, ReadAll(ParseField, h.fieldCount, b, map[]).value.1, e);
  }

  /** Loading looks at no byte behind the index. */
  lemma BodyExtends(h: Header, b: bytes, e: bytes)
    requires ParseBody(h, b).Some?
    ensures var (contents, rest) := ParseBody(h, b).value; ParseBody(h, b + e) == Some((contents, rest + e))
  {
    DecodeExtends(GetRawValue, DocumentIdSize, h.totalDocuments, b, e);
    var ids := Decode(GetRawValue, DocumentIdSize, h.totalDocuments, b);
    var b1 := b[h.totalDocuments * DocumentIdSize..];
    DecodeExtends(GetFrequency, TokenFrequencyEntrySize, h.totalTokenFrequencies, b1, e);
    RestExtends(h, ids, Decode(GetFrequency, TokenFrequencyEntrySize, h.totalTokenFrequencies, b1),
                b1[h.totalTokenFrequencies * TokenFrequencyEntrySize..], e);
  }

  /** A body that is used up to its last byte does not load when it is cut. */
  lemma BodyCut(h: Header, b: bytes, contents: Contents, m: nat)
    requires ParseBody(h, b) == Some((contents, [])) && m < |b|
    ensures ParseBody(h, b[..m]) == None
  {
    assert b[..m] + b[m..] == b;
    if ParseBody(h, b[..m]).Some? {
      BodyExtends(h, b[..m], b[m..]);
    }
  }

  lemma HeaderRead(t: Tables, s: Shape)
    requires TablesFit(t) && ShapeOk(t, s)
    ensures |HeaderBytes(HeaderOf(t, s.version), s.p6, s.p4)| == HeaderSize && |s.order| == |t.fields|
    ensures ReadHeader(HeaderBytes(HeaderOf(t, s.version), s.p6, s.p4)) == HeaderOf(t, s.version)
  {
    HeaderBytesRead(HeaderOf(t, s.version), s.p6, s.p4);
    EnumerationLength(s.order, t.fields.Keys);
    assert |t.fields| == |t.fields.Keys|;
  }

  lemma HeaderParsed(head: bytes, tail: bytes, h: Header)
    requires |head| == HeaderSize && ReadHeader(head) == h
    ensures Parse(head + tail) == if tail == [] then HeaderOnly(h.version)
                                  else match ParseBody(h, tail)
                                    case None => Failed
                                    case Some((contents, rest)) => Loaded(h.version, contents, |head + tail| - |rest|)
  {
    assert (head + tail)[..HeaderSize] == head && (head + tail)[HeaderSize..] == tail;
  }

  /** Loading what was saved gives the tables back, whatever the padding and whatever follows the image. */
  lemma LoadOfSave(t: Tables, s: Shape, rest: bytes)
    requires TablesFit(t) && ShapeOk(t, s)
    ensures Parse(Image(t, s) + rest) == if BodyImage(t, s) + rest == [] then HeaderOnly(s.version)
                                         else Loaded(s.version, ContentsOf(t), |Image(t, s)|)
  {
    var head, body := HeaderBytes(HeaderOf(t, s.version), s.p6, s.p4), BodyImage(t, s);
    HeaderRead(t, s);
    Associative(head, body, rest);
    HeaderParsed(head, body + rest, HeaderOf(t, s.version));
    BodyParsed(t, s, rest);
  }

  lemma ParseOfCut(head: bytes, body: bytes, h: Header, contents: Contents, n: nat)
    requires |head| == HeaderSize && ReadHeader(head) == h && ParseBody(h, body) == Some((contents, []))
    requires n < |head + body|
    ensures Parse((head + body)[..n]) == if n == HeaderSize then HeaderOnly(h.version) else Failed
  {
    if n >= HeaderSize {
      var m := n - HeaderSize;
      assert (head + body)[..n] == head + body[..m];
      HeaderParsed(head, body[..m], h);
      BodyCut(h, body, contents, m);
    }
  }

  /** A file cut short is refused, except when the cut leaves exactly the header. */
  lemma LoadOfCut(t: Tables, s: Shape, n: nat)
    requires TablesFit(t) && ShapeOk(t, s) && n < |Image(t, s)|
    ensures Parse(Image(t, s)[..n]) == if n == HeaderSize then HeaderOnly(s.version) else Failed
  {
    var body := BodyImage(t, s);
    HeaderRead(t, s);
    BodyParsed(t, s, []);
    assert body + [] == body;
    ParseOfCut(HeaderBytes(HeaderOf(t, s.version), s.p6, s.p4), body, HeaderOf(t, s.version), ContentsOf(t), n);
  }
}
