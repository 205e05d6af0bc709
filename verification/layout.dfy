/** Which byte of a file holds what: every number of every record at its offset, the lowest byte first. */
module Layout {
  import opened Bytes
  import opened Codec
  import opened Collecting
  import opened Headers
  import opened Records
  import opened Tables
  import opened Format
  import opened ListTables
  import opened Regions
  import opened Images

  /** The `w` bytes from `at` on are the number `n`, the lowest byte first. */
  ghost predicate Stored(b: bytes, at: nat, n: nat, w: nat) {
    at + w <= |b| && forall i: nat | i < w :: b[at + i] == n / Pow256(i) % 256
  }

  /** The bytes of `piece` stand at `at`. */
  ghost predicate Contains(b: bytes, at: nat, piece: bytes) {
    at + |piece| <= |b| && b[at..at + |piece|] == piece
  }

  lemma DividedOnce(n: nat, d: nat, q: nat, r: nat)
    requires r < d && n == d * q + r
    ensures n / d == q
  {
    var p := n / d;
    assert n == d * p + n % d;
    if p < q {
      OneMore(d, p, q);
    } else if q < p {
      OneMore(d, q, p);
    }
  }

  lemma {:induction false} OneMore(d: nat, p: nat, q: nat)
    requires p < q
    ensures d * q >= d * p + d
    decreases q
  {
    assert d * q == d * (q - 1) + d;
    if p < q - 1 {
      OneMore(d, p, q - 1);
    }
  }

  lemma DividedTwice(n: nat, p: nat)
    requires p > 0
    ensures n / 256 / p == n / (256 * p)
  {
    var q := n / 256;
    var r := q / p;
    assert q == p * r + q % p;
    assert (256 * p) * r == 256 * (p * r);
    DividedOnce(n, 256 * p, r, 256 * (q % p) + n % 256);
  }

  /** Byte i of a number written with its lowest byte first. */
  lemma {:induction false} ByteOf(n: nat, w: nat, i: nat)
    requires i < w
    ensures LE(n, w)[i] == n / Pow256(i) % 256
    decreases w
  {
    if i > 0 {
      ByteOf(n / 256, w - 1, i - 1);
      DividedTwice(n, Pow256(i - 1));
    }
  }

  lemma NumberStored(b: bytes, at: nat, n: nat, w: nat)
    requires Contains(b, at, LE(n, w))
    ensures Stored(b, at, n, w)
  {
    forall i: nat | i < w
      ensures b[at + i] == n / Pow256(i) % 256
    {
      ByteOf(n, w, i);
      assert b[at..at + w][i] == LE(n, w)[i];
    }
  }

  lemma Within(b: bytes, at: nat, piece: bytes, off: nat, part: bytes)
    requires Contains(b, at, piece) && Contains(piece, off, part)
    ensures Contains(b, at + off, part)
  {
    var from := at + off;
    forall i | 0 <= i < |part|
      ensures b[from..from + |part|][i] == part[i]
    {
      assert part[i] == piece[off..off + |part|][i] == piece[off + i];
      assert piece[off + i] == b[at..at + |piece|][off + i] == b[from + i];
    }
  }

  lemma Parts(x: bytes, y: bytes)
    ensures Contains(x + y, 0, x) && Contains(x + y, |x|, y)
  {
  }

  /** What stands first in a piece, and what follows it. */
  lemma Split(b: bytes, at: nat, x: bytes, y: bytes)
    requires Contains(b, at, x + y)
    ensures Contains(b, at, x) && Contains(b, at + |x|, y)
  {
    Parts(x, y);
    Within(b, at, x + y, 0, x);
    Within(b, at, x + y, |x|, y);
  }

  /** A number, and what follows it. */
  lemma SplitNumber(b: bytes, at: nat, n: nat, w: nat, y: bytes)
    requires Contains(b, at, LE(n, w) + y)
    ensures Stored(b, at, n, w) && Contains(b, at + w, y)
  {
    Split(b, at, LE(n, w), y);
    NumberStored(b, at, n, w);
  }

  /** A document id: the size, and the bytes. */
  ghost predicate IdStored(b: bytes, at: nat, v: RawValue) {
    Stored(b, at, v.size, 8) && at + 136 <= |b| && b[at + 8..at + 136] == v.data
  }

  ghost predicate FrequencyStored(b: bytes, at: nat, e: TokenFrequencyEntry) {
    Stored(b, at, e.documentIndex, 4) && Stored(b, at + 4, e.frequency, 4)
  }

  ghost predicate LengthStored(b: bytes, at: nat, e: DocumentLengthEntry) {
    Stored(b, at, e.index, 4) && Stored(b, at + 4, e.length, 4)
  }

  ghost predicate ListHeaderStored(b: bytes, at: nat, offset: nat, length: nat) {
    Stored(b, at, offset, 8) && Stored(b, at + 8, length, 8)
  }

  /** A token: three counters of eight bytes, and then its value as in a document id. */
  ghost predicate TokenStored(b: bytes, at: nat, t: Token) {
    && Stored(b, at, t.frequencyCount, 8) && Stored(b, at + 8, t.postingListIndex, 8)
    && Stored(b, at + 16, t.frequenciesIndex, 8) && IdStored(b, at + 24, t.value)
  }

  /** A field header, but for the four bytes of padding at 12. */
  ghost predicate FieldHeaderStored(b: bytes, at: nat, h: uint64, f: Field) {
    && Stored(b, at, h, 8) && Stored(b, at + 8, f.avgDocumentLength, 4)
    && Stored(b, at + 16, f.totalDocumentsLength, 8) && Stored(b, at + 24, |f.tokens|, 8)
    && Stored(b, at + 32, f.totalTokenFrequenciesCount, 8) && Stored(b, at + 40, |f.documentLengths|, 8)
  }

  /** The file header, but for the padding at 10 and at 20. */
  ghost predicate HeaderStored(b: bytes, t: Tables, version: uint16, dataSize: nat) {
    && Stored(b, 0, 0x7E7127E9, 8) && Stored(b, 8, version, 2) && Stored(b, 16, |t.documentsIds|, 4)
    && Stored(b, 24, |t.fields|, 8) && Stored(b, 32, |t.postingLists|, 8) && Stored(b, 40, dataSize, 8)
    && Stored(b, 48, |t.tokenFrequencies|, 8)
  }

  lemma IdBytes(b: bytes, at: nat, v: RawValue)
    requires Contains(b, at, PutRawValue(v))
    ensures IdStored(b, at, v)
  {
    SplitNumber(b, at, v.size, 8, v.data);
  }

  lemma FrequencyBytes(b: bytes, at: nat, e: TokenFrequencyEntry)
    requires Contains(b, at, PutFrequency(e))
    ensures FrequencyStored(b, at, e)
  {
    SplitNumber(b, at, e.documentIndex, 4, PutUint32(e.frequency));
    NumberStored(b, at + 4, e.frequency, 4);
  }

  lemma LengthBytes(b: bytes, at: nat, e: DocumentLengthEntry)
    requires Contains(b, at, PutLength(e))
    ensures LengthStored(b, at, e)
  {
    SplitNumber(b, at, e.index, 4, PutUint32(e.length));
    NumberStored(b, at + 4, e.length, 4);
  }

  lemma ListHeaderBytes(b: bytes, at: nat, h: PostingListHeader)
    requires Contains(b, at, PutHeader(h))
    ensures ListHeaderStored(b, at, h.offset, h.length)
  {
    SplitNumber(b, at, h.offset, 8, PutUint64(h.length));
    NumberStored(b, at + 8, h.length, 8);
  }

  /** Byte 8 + i of a token record is byte i of its posting list, byte 16 + i that of its first frequency, and so on. */
  lemma TokenBytes(b: bytes, at: nat, t: Token)
    requires Contains(b, at, PutToken(t))
    ensures TokenStored(b, at, t)
  {
    var value := PutRawValue(t.value);
    var frequencies := PutUint64(t.frequenciesIndex) + value;
    SplitNumber(b, at, t.frequencyCount, 8, PutUint64(t.postingListIndex) + frequencies);
    SplitNumber(b, at + 8, t.postingListIndex, 8, frequencies);
    SplitNumber(b, at + 16, t.frequenciesIndex, 8, value);
    IdBytes(b, at + 24, t.value);
  }

  lemma FourNumbers(b: bytes, at: nat, i: nat, j: nat, k: nat, l: nat)
    requires Contains(b, at, LE(i, 8) + (LE(j, 8) + (LE(k, 8) + LE(l, 8))))
    ensures Stored(b, at, i, 8) && Stored(b, at + 8, j, 8) && Stored(b, at + 16, k, 8) && Stored(b, at + 24, l, 8)
  {
    SplitNumber(b, at, i, 8, LE(j, 8) + (LE(k, 8) + LE(l, 8)));
    SplitNumber(b, at + 8, j, 8, LE(k, 8) + LE(l, 8));
    SplitNumber(b, at + 16, k, 8, LE(l, 8));
    NumberStored(b, at + 24, l, 8);
  }

  lemma FieldHeaderBytesAt(b: bytes, at: nat, h: uint64, f: Field, p4: bytes)
    requires |p4| == 4 && Contains(b, at, FieldHeaderBytes(FieldHeaderOf(h, f), p4))
    ensures FieldHeaderStored(b, at, h, f)
  {
    var front := PutUint64(h) + (PutUint32(f.avgDocumentLength) + p4);
    var back := PutUint64(f.totalDocumentsLength)
        + (PutUint64(|f.tokens|) + (PutUint64(f.totalTokenFrequenciesCount) + PutUint64(|f.documentLengths|)));
    Split(b, at, front, back);
    SplitNumber(b, at, h, 8, PutUint32(f.avgDocumentLength) + p4);
    SplitNumber(b, at + 8, f.avgDocumentLength, 4, p4);
    FourNumbers(b, at + 16, f.totalDocumentsLength, |f.tokens|, f.totalTokenFrequenciesCount, |f.documentLengths|);
  }

  lemma HeaderFrontAt(b: bytes, h: Header, p6: bytes, p4: bytes)
    requires |p6| == 6 && |p4| == 4 && Contains(b, 0, HeaderFront(h, p6, p4))
    ensures Stored(b, 0, 0x7E7127E9, 8) && Stored(b, 8, h.version, 2) && Stored(b, 16, h.totalDocuments, 4)
  {
    var documents := PutUint32(h.totalDocuments) + p4;
    SplitNumber(b, 0, MagicNumber, 8, LE(h.version, 2) + (p6 + documents));
    SplitNumber(b, 8, h.version, 2, p6 + documents);
    Split(b, 10, p6, documents);
    SplitNumber(b, 16, h.totalDocuments, 4, p4);
  }

  lemma HeaderNumbers(b: bytes, h: Header, p6: bytes, p4: bytes)
    requires |p6| == 6 && |p4| == 4 && Contains(b, 0, HeaderBytes(h, p6, p4))
    ensures Stored(b, 0, 0x7E7127E9, 8) && Stored(b, 8, h.version, 2) && Stored(b, 16, h.totalDocuments, 4)
    ensures Stored(b, 24, h.fieldCount, 8) && Stored(b, 32, h.totalPostingLists, 8)
    ensures Stored(b, 40, h.totalPostingListsDataSize, 8) && Stored(b, 48, h.totalTokenFrequencies, 8)
  {
    HeaderFrontRead(h, p6, p4);
    Split(b, 0, HeaderFront(h, p6, p4), HeaderBack(h));
    HeaderFrontAt(b, h, p6, p4);
    FourNumbers(b, 24, h.fieldCount, h.totalPostingLists, h.totalPostingListsDataSize, h.totalTokenFrequencies);
  }

  lemma HeaderAt(b: bytes, t: Tables, version: uint16, p6: bytes, p4: bytes)
    requires |t.documentsIds| < MaxDocuments && |p6| == 6 && |p4| == 4
    requires Contains(b, 0, HeaderBytes(HeaderOf(t, version), p6, p4))
    ensures HeaderStored(b, t, version, |Join(t.postingLists, |t.postingLists|)|)
  {
    HeaderNumbers(b, HeaderOf(t, version), p6, p4);
  }

  lemma EncodedAt<T(!new)>(f: T -> bytes, size: nat, xs: seq<T>, i: nat, off: nat)
    requires (forall x :: |f(x)| == size) && i < |xs| && off == i * size
    ensures Contains(Encode(f, xs), off, f(xs[i]))
  {
    EncodeAt(f, size, xs, i, [], off);
    assert Encode(f, xs) + [] == Encode(f, xs);
  }

  /** Record i of a table. */
  lemma RecordAt<T(!new)>(b: bytes, at: nat, f: T -> bytes, size: nat, xs: seq<T>, i: nat, off: nat)
    requires (forall x :: |f(x)| == size) && Contains(b, at, Encode(f, xs)) && i < |xs| && off == i * size
    ensures Contains(b, at + off, f(xs[i]))
  {
    EncodedAt(f, size, xs, i, off);
    Within(b, at, Encode(f, xs), off, f(xs[i]));
  }

  ghost predicate IdsStored(b: bytes, at: nat, ids: seq<RawValue>) {
    forall i: nat {:trigger ids[i]} | i < |ids| :: IdStored(b, at + 136 * i, ids[i])
  }

  ghost predicate FrequenciesStored(b: bytes, at: nat, es: seq<TokenFrequencyEntry>) {
    forall i: nat {:trigger es[i]} | i < |es| :: FrequencyStored(b, at + 8 * i, es[i])
  }

  ghost predicate LengthsStored(b: bytes, at: nat, ls: seq<DocumentLengthEntry>) {
    forall i: nat {:trigger ls[i]} | i < |ls| :: LengthStored(b, at + 8 * i, ls[i])
  }

  ghost predicate TokensStored(b: bytes, at: nat, ts: seq<Token>) {
    forall i: nat {:trigger ts[i]} | i < |ts| :: TokenStored(b, at + 160 * i, ts[i])
  }

  /** Header i says how many bytes the lists before it take, and how many its own. */
  ghost predicate ListHeadersStored(b: bytes, at: nat, ls: seq<bytes>) {
    forall i: nat {:trigger ls[i]} | i < |ls| :: ListHeaderStored(b, at + 16 * i, SumOfSizes(ls, i), |ls[i]|)
  }

  ghost predicate ListsStored(b: bytes, at: nat, ls: seq<bytes>) {
    forall i: nat {:trigger ls[i]} | i < |ls| :: Contains(b, at + SumOfSizes(ls, i), ls[i])
  }

  /** A field: its header, its lengths and its tokens. */
  ghost predicate FieldStored(b: bytes, at: nat, h: uint64, f: Field) {
    && FieldHeaderStored(b, at, h, f) && LengthsStored(b, at + 48, f.documentLengths)
    && TokensStored(b, at + 48 + 8 * |f.documentLengths|, f.tokens)
  }

  lemma IdTable(b: bytes, at: nat, ids: seq<RawValue>)
    requires Contains(b, at, Encode(PutRawValue, ids))
    ensures IdsStored(b, at, ids)
  {
    RawValuesBack();
    forall i: nat {:trigger ids[i]} | i < |ids|
      ensures IdStored(b, at + 136 * i, ids[i])
    {
      RecordAt(b, at, PutRawValue, DocumentIdSize, ids, i, 136 * i);
      IdBytes(b, at + 136 * i, ids[i]);
    }
  }

  lemma FrequencyTable(b: bytes, at: nat, es: seq<TokenFrequencyEntry>)
    requires Contains(b, at, Encode(PutFrequency, es))
    ensures FrequenciesStored(b, at, es)
  {
    forall i: nat {:trigger es[i]} | i < |es|
      ensures FrequencyStored(b, at + 8 * i, es[i])
    {
      RecordAt(b, at, PutFrequency, TokenFrequencyEntrySize, es, i, 8 * i);
      FrequencyBytes(b, at + 8 * i, es[i]);
    }
  }

  lemma LengthTable(b: bytes, at: nat, ls: seq<DocumentLengthEntry>)
    requires Contains(b, at, Encode(PutLength, ls))
    ensures LengthsStored(b, at, ls)
  {
    forall i: nat {:trigger ls[i]} | i < |ls|
      ensures LengthStored(b, at + 8 * i, ls[i])
    {
      RecordAt(b, at, PutLength, DocumentLengthEntrySize, ls, i, 8 * i);
      LengthBytes(b, at + 8 * i, ls[i]);
    }
  }

  lemma TokenTable(b: bytes, at: nat, ts: seq<Token>)
    requires Contains(b, at, Encode(PutToken, ts))
    ensures TokensStored(b, at, ts)
  {
    forall i: nat {:trigger ts[i]} | i < |ts|
      ensures TokenStored(b, at + 160 * i, ts[i])
    {
      RecordAt(b, at, PutToken, TokenSize, ts, i, 160 * i);
      TokenBytes(b, at + 160 * i, ts[i]);
    }
  }

  lemma ListHeaderTable(b: bytes, at: nat, ls: seq<bytes>)
    requires Contains(b, at, Encode(PutHeader, HeadersOf(ls)))
    ensures ListHeadersStored(b, at, ls)
  {
    var hs := HeadersOf(ls);
    forall i: nat {:trigger ls[i]} | i < |ls|
      ensures ListHeaderStored(b, at + 16 * i, SumOfSizes(ls, i), |ls[i]|)
    {
      SizesOfLists(ls, i);
      RecordAt(b, at, PutHeader, PostingListHeaderSize, hs, i, 16 * i);
      ListHeaderBytes(b, at + 16 * i, hs[i]);
    }
  }

  lemma ListData(b: bytes, at: nat, ls: seq<bytes>)
    requires Contains(b, at, Join(ls, |ls|))
    ensures ListsStored(b, at, ls)
  {
    forall i: nat {:trigger ls[i]} | i < |ls|
      ensures Contains(b, at + SumOfSizes(ls, i), ls[i])
    {
      SizesOfLists(ls, i);
      PieceContained(b, at, |ls|, ListAt(ls), i, at + SumOfSizes(ls, i));
    }
  }

  lemma FieldAtOffset(b: bytes, at: nat, h: uint64, f: Field, p4: bytes)
    requires |p4| == 4 && Contains(b, at, FieldImage(h, f, p4))
    ensures FieldStored(b, at, h, f)
  {
    var header, lengths, tokens := FieldHeaderBytes(FieldHeaderOf(h, f), p4), Encode(PutLength, f.documentLengths),
        Encode(PutToken, f.tokens);
    EncodeLength(PutLength, DocumentLengthEntrySize, f.documentLengths);
    Split(b, at, header, lengths + tokens);
    Split(b, at + 48, lengths, tokens);
    FieldHeaderBytesAt(b, at, h, f, p4);
    LengthTable(b, at + 48, f.documentLengths);
    TokenTable(b, at + 48 + 8 * |f.documentLengths|, f.tokens);
  }

  /** Where field k of the file begins: behind the header, the two tables, and the fields before it. */
  ghost function FieldStart(t: Tables, order: seq<uint64>, k: nat): nat
    requires k <= |order| && forall i | 0 <= i < k :: order[i] in t.fields
  {
    if k == 0 then 56 + 136 * |t.documentsIds| + 8 * |t.tokenFrequencies|
    else
      var f := t.fields[order[k - 1]];
      FieldStart(t, order, k - 1) + 48 + 8 * |f.documentLengths| + 160 * |f.tokens|
  }

  lemma FieldLength(t: Tables, s: Shape, k: nat, f: Field)
    requires ShapeOk(t, s) && k < |s.order| && f == t.fields[s.order[k]]
    ensures |FieldAt(t.fields, s.order, s.pads)(k)| == 48 + 8 * |f.documentLengths| + 160 * |f.tokens|
  {
    FieldImageLength(s.order[k], f, s.pads[k]);
  }

  lemma {:induction false} FieldsBefore(t: Tables, s: Shape, k: nat)
    requires ShapeOk(t, s) && k <= |s.order|
    ensures FieldStart(t, s.order, k) == FieldStart(t, s.order, 0) + |Collect(k, FieldAt(t.fields, s.order, s.pads))|
  {
    if k > 0 {
      FieldsBefore(t, s, k - 1);
      FieldLength(t, s, k - 1, t.fields[s.order[k - 1]]);
    }
  }

  /** Piece k of some pieces in a row. */
  lemma PieceContained(b: bytes, at: nat, n: nat, f: nat -> bytes, k: nat, start: nat)
    requires Contains(b, at, Collect(n, f)) && k < n && start == at + |Collect(k, f)|
    ensures Contains(b, start, f(k))
  {
    CollectPiece(k, n, f);
    Within(b, at, Collect(n, f), |Collect(k, f)|, f(k));
  }

  lemma FieldContained(b: bytes, t: Tables, s: Shape, k: nat, image: bytes)
    requires ShapeOk(t, s) && Contains(b, FieldStart(t, s.order, 0), FieldsImage(t, s)) && k < |s.order|
    requires image == FieldAt(t.fields, s.order, s.pads)(k)
    ensures Contains(b, FieldStart(t, s.order, k), image)
  {
    FieldsBefore(t, s, k);
    PieceContained(b, FieldStart(t, s.order, 0), |s.order|, FieldAt(t.fields, s.order, s.pads), k,
                   FieldStart(t, s.order, k));
  }

  lemma FieldsStored(b: bytes, t: Tables, s: Shape, k: nat)
    requires ShapeOk(t, s) && Contains(b, FieldStart(t, s.order, 0), FieldsImage(t, s)) && k < |s.order|
    ensures FieldStored(b, FieldStart(t, s.order, k), s.order[k], t.fields[s.order[k]])
  {
    var h := s.order[k];
    FieldContained(b, t, s, k, FieldAt(t.fields, s.order, s.pads)(k));
    FieldAtOffset(b, FieldStart(t, s.order, k), h, t.fields[h], s.pads[k]);
  }

  ghost predicate FieldsInFile(b: bytes, t: Tables, order: seq<uint64>)
    requires forall i | 0 <= i < |order| :: order[i] in t.fields
  {
    forall k: nat {:trigger order[k]} | k < |order| ::
      FieldStored(b, FieldStart(t, order, k), order[k], t.fields[order[k]])
  }

  lemma AllFieldsStored(b: bytes, t: Tables, s: Shape)
    requires ShapeOk(t, s) && Contains(b, FieldStart(t, s.order, 0), FieldsImage(t, s))
    ensures FieldsInFile(b, t, s.order)
  {
    forall k: nat {:trigger s.order[k]} | k < |s.order|
      ensures FieldStored(b, FieldStart(t, s.order, k), s.order[k], t.fields[s.order[k]])
    {
      FieldsStored(b, t, s, k);
    }
  }

  lemma HeadersLength(ls: seq<bytes>)
    ensures |Encode(PutHeader, HeadersOf(ls))| == 16 * |ls|
  {
    EncodeLength(PutHeader, PostingListHeaderSize, HeadersOf(ls));
  }

  /** The lists: their headers, and then the lists themselves. */
  ghost predicate RegionStored(b: bytes, at: nat, data: nat, ls: seq<bytes>) {
    ListHeadersStored(b, at, ls) && ListsStored(b, data, ls)
  }

  lemma ListRegion(b: bytes, at: nat, data: nat, ls: seq<bytes>)
    requires Contains(b, at, ListsImage(ls)) && data == at + 16 * |ls|
    ensures RegionStored(b, at, data, ls)
  {
    HeadersLength(ls);
    Split(b, at, Encode(PutHeader, HeadersOf(ls)), Join(ls, |ls|));
    ListHeaderTable(b, at, ls);
    ListData(b, data, ls);
  }

  lemma RegionLength(ls: seq<bytes>)
    ensures |ListsImage(ls)| == 16 * |ls| + SumOfSizes(ls, |ls|)
  {
    SizesOfLists(ls, |ls|);
    HeadersLength(ls);
  }

  function FrequenciesStart(t: Tables): nat {
    56 + 136 * |t.documentsIds|
  }

  ghost function ListsStart(t: Tables, order: seq<uint64>): nat
    requires forall i | 0 <= i < |order| :: order[i] in t.fields
  {
    FieldStart(t, order, |order|)
  }

  ghost function DataStart(t: Tables, order: seq<uint64>): nat
    requires forall i | 0 <= i < |order| :: order[i] in t.fields
  {
    ListsStart(t, order) + 16 * |t.postingLists|
  }

  /** Header, document ids and frequencies. */
  ghost predicate FrontStored(b: bytes, t: Tables, version: uint16) {
    && HeaderStored(b, t, version, SumOfSizes(t.postingLists, |t.postingLists|))
    && IdsStored(b, 56, t.documentsIds) && FrequenciesStored(b, FrequenciesStart(t), t.tokenFrequencies)
  }

  /** The whole file: header, document ids, frequencies, fields, list headers and lists, to the last byte. */
  ghost predicate FileOf(b: bytes, t: Tables, version: uint16, order: seq<uint64>)
    requires forall i | 0 <= i < |order| :: order[i] in t.fields
  {
    && FrontStored(b, t, version) && FieldsInFile(b, t, order)
    && RegionStored(b, ListsStart(t, order), DataStart(t, order), t.postingLists)
    && |b| == DataStart(t, order) + SumOfSizes(t.postingLists, |t.postingLists|)
  }

  /** Five pieces in a row, at the offsets given by their lengths. */
  lemma FiveParts(b: bytes, v: bytes, w: bytes, x: bytes, y: bytes, z: bytes, i: nat, j: nat, k: nat, l: nat, end: nat)
    requires b == v + (w + (x + (y + z))) && i == |v| && i + |w| == j && j + |x| == k && k + |y| == l
    requires l + |z| == end
    ensures Contains(b, 0, v) && Contains(b, i, w) && Contains(b, j, x) && Contains(b, k, y) && Contains(b, l, z)
    ensures |b| == end
  {
    Parts(v, w + (x + (y + z)));
    Split(b, i, w, x + (y + z));
    Split(b, j, x, y + z);
    Split(b, k, y, z);
  }

  lemma HeaderLength(h: Header, p6: bytes, p4: bytes)
    requires |p6| == 6 && |p4| == 4
    ensures |HeaderBytes(h, p6, p4)| == 56
  {
    HeaderFrontRead(h, p6, p4);
    HeaderBackRead(h);
  }

  /** Where the sections of an image begin. */
  lemma SectionStarts(t: Tables, s: Shape)
    requires |t.documentsIds| < MaxDocuments && ShapeOk(t, s)
    ensures |HeaderBytes(HeaderOf(t, s.version), s.p6, s.p4)| == 56
    ensures 56 + |Encode(PutRawValue, t.documentsIds)| == FrequenciesStart(t)
    ensures FrequenciesStart(t) + |Encode(PutFrequency, t.tokenFrequencies)| == FieldStart(t, s.order, 0)
    ensures FieldStart(t, s.order, 0) + |FieldsImage(t, s)| == ListsStart(t, s.order)
    ensures ListsStart(t, s.order) + |ListsImage(t.postingLists)|
            == DataStart(t, s.order) + SumOfSizes(t.postingLists, |t.postingLists|)
  {
    HeaderLength(HeaderOf(t, s.version), s.p6, s.p4);
    IdsRead(t.documentsIds, []);
    FrequenciesRead(t.tokenFrequencies, []);
    FieldsBefore(t, s, |s.order|);
    RegionLength(t.postingLists);
  }

  lemma FrontOfFile(b: bytes, t: Tables, version: uint16, p6: bytes, p4: bytes)
    requires |t.documentsIds| < MaxDocuments && |p6| == 6 && |p4| == 4
    requires Contains(b, 0, HeaderBytes(HeaderOf(t, version), p6, p4))
    requires Contains(b, 56, Encode(PutRawValue, t.documentsIds))
    requires Contains(b, FrequenciesStart(t), Encode(PutFrequency, t.tokenFrequencies))
    ensures FrontStored(b, t, version)
  {
    SizesOfLists(t.postingLists, |t.postingLists|);
    HeaderAt(b, t, version, p6, p4);
    IdTable(b, 56, t.documentsIds);
    FrequencyTable(b, FrequenciesStart(t), t.tokenFrequencies);
  }

  lemma FileOfParts(b: bytes, t: Tables, s: Shape)
    requires |t.documentsIds| < MaxDocuments && ShapeOk(t, s)
    requires Contains(b, 0, HeaderBytes(HeaderOf(t, s.version), s.p6, s.p4))
    requires Contains(b, 56, Encode(PutRawValue, t.documentsIds))
    requires Contains(b, FrequenciesStart(t), Encode(PutFrequency, t.tokenFrequencies))
    requires Contains(b, FieldStart(t, s.order, 0), FieldsImage(t, s))
    requires Contains(b, ListsStart(t, s.order), ListsImage(t.postingLists))
    requires |b| == DataStart(t, s.order) + SumOfSizes(t.postingLists, |t.postingLists|)
    ensures FileOf(b, t, s.version, s.order)
  {
    FrontOfFile(b, t, s.version, s.p6, s.p4);
    AllFieldsStored(b, t, s);
    ListRegion(b, ListsStart(t, s.order), DataStart(t, s.order), t.postingLists);
  }

  /** Every image of some tables has each number and each byte string of theirs where the format has it. */
  lemma ImageIsFile(t: Tables, s: Shape)
    requires |t.documentsIds| < MaxDocuments && ShapeOk(t, s)
    ensures FileOf(Image(t, s), t, s.version, s.order)
  {
    SectionStarts(t, s);
    FiveParts(Image(t, s), HeaderBytes(HeaderOf(t, s.version), s.p6, s.p4), Encode(PutRawValue, t.documentsIds),
              Encode(PutFrequency, t.tokenFrequencies), FieldsImage(t, s), ListsImage(t.postingLists), 56,
              FrequenciesStart(t), FieldStart(t, s.order, 0), ListsStart(t, s.order),
              DataStart(t, s.order) + SumOfSizes(t.postingLists, |t.postingLists|));
    FileOfParts(Image(t, s), t, s);
  }
}
