/** storage/storage.go, `SaveTo`: the pieces of a file in the order they are written. */
module Saving {
  import opened Bytes
  import opened Codec
  import opened Collecting
  import opened Headers
  import opened Records
  import opened Tables
  import opened Totals
  import opened Format
  import opened Files
  import opened Images
  import opened Parsing

  lemma Associate<X>(base: seq<X>, done: seq<X>, piece: seq<X>)
    ensures base + done + piece == base + (done + piece)
  {
  }

  /** The file header through one reused 8-byte buffer; short values leave stale bytes behind them. */
  method WriteHeader(w: Writer, h: Header) returns (buffer: bytes, ghost p6: bytes, ghost p4: bytes)
    requires w.Appending()
    modifies w, w.file
    ensures w.Appending() && w.Written() == old(w.Written()) + HeaderBytes(h, p6, p4)
    ensures |buffer| == 8 && |p6| == 6 && |p4| == 4
  {
    ghost var base := w.Written();
    buffer, p6, p4 := WriteHeaderFront(w, h);
    ghost var front := HeaderFront(h, p6, p4);
    buffer := WriteWords(w, h.fieldCount, h.totalPostingLists, h.totalPostingListsDataSize, h.totalTokenFrequencies);
    Associate(base, front, HeaderBack(h));
  }

  method WriteHeaderFront(w: Writer, h: Header) returns (buffer: bytes, ghost p6: bytes, ghost p4: bytes)
    requires w.Appending()
    modifies w, w.file
    ensures w.Appending() && w.Written() == old(w.Written()) + HeaderFront(h, p6, p4)
    ensures |buffer| == 8 && |p6| == 6 && |p4| == 4
  {
    ghost var base := w.Written();
    buffer := PutUint64(MagicNumber);
    w.Write(buffer);
    p6 := buffer[2..];
    buffer := LE(h.version, 2) + buffer[2..];
    w.Write(buffer);
    p4 := buffer[4..];
    buffer := PutUint32(h.totalDocuments) + buffer[4..];
    w.Write(buffer);
    ThreeWrites(base, PutUint64(MagicNumber), LE(h.version, 2), p6, PutUint32(h.totalDocuments) + p4);
  }

  lemma ThreeWrites<X>(base: seq<X>, a: seq<X>, b: seq<X>, c: seq<X>, d: seq<X>)
    ensures base + a + (b + c) + d == base + (a + (b + (c + d)))
  {
  }

  lemma FourWrites<X>(base: seq<X>, a: seq<X>, b: seq<X>, c: seq<X>, d: seq<X>)
    ensures base + a + b + c + d == base + (a + (b + (c + d)))
  {
  }

  method WriteWords(w: Writer, a: nat, b: nat, c: nat, d: nat) returns (buffer: bytes)
    requires w.Appending()
    modifies w, w.file
    ensures w.Appending() && |buffer| == 8
    ensures w.Written() == old(w.Written()) + (PutUint64(a) + (PutUint64(b) + (PutUint64(c) + PutUint64(d))))
  {
    ghost var base := w.Written();
    w.Write(PutUint64(a));
    w.Write(PutUint64(b));
    w.Write(PutUint64(c));
    buffer := PutUint64(d);
    w.Write(buffer);
    FourWrites(base, PutUint64(a), PutUint64(b), PutUint64(c), PutUint64(d));
  }

  /** The header of one field; the average goes through the buffer and leaves its last four bytes as they were. */
  method WriteFieldHeader(w: Writer, buffer: bytes, h: FieldHeader) returns (buffer': bytes, ghost p4: bytes)
    requires w.Appending() && |buffer| == 8
    modifies w, w.file
    ensures w.Appending() && w.Written() == old(w.Written()) + FieldHeaderBytes(h, p4)
    ensures |buffer'| == 8 && |p4| == 4
  {
    ghost var base := w.Written();
    w.Write(PutUint64(h.hash));
    p4 := buffer[4..];
    w.Write(PutUint32(h.avgDocumentLength) + buffer[4..]);
    buffer' := WriteWords(w, h.totalDocumentsLength, h.tokenCount, h.totalTokenFrequencies, h.documentLengthCount);
    HeaderWrites(base, PutUint64(h.hash), PutUint32(h.avgDocumentLength) + p4,
                 PutUint64(h.totalDocumentsLength)
                     + (PutUint64(h.tokenCount)
                        + (PutUint64(h.totalTokenFrequencies) + PutUint64(h.documentLengthCount))));
  }

  lemma HeaderWrites<X>(base: seq<X>, a: seq<X>, b: seq<X>, c: seq<X>)
    ensures base + a + b + c == base + (a + b + c)
  {
  }

  lemma TwoWrites<X>(base: seq<X>, a: seq<X>, b: seq<X>, c: seq<X>)
    ensures base + a + b + c == base + (a + (b + c))
  {
  }

  method WriteField(w: Writer, buffer: bytes, h: uint64, f: Field) returns (buffer': bytes, ghost p4: bytes)
    requires w.Appending() && |buffer| == 8
    modifies w, w.file
    ensures w.Appending() && w.Written() == old(w.Written()) + FieldImage(h, f, p4)
    ensures |buffer'| == 8 && |p4| == 4
  {
    ghost var base := w.Written();
    buffer', p4 := WriteFieldHeader(w, buffer, FieldHeader(h, f.avgDocumentLength, f.totalDocumentsLength, |f.tokens|,
                                                           f.totalTokenFrequenciesCount, |f.documentLengths|));
    var lengths, tokens := Encode(PutLength, f.documentLengths), Encode(PutToken, f.tokens);
    w.Write(lengths);
    w.Write(tokens);
    TwoWrites(base, FieldHeaderBytes(FieldHeaderOf(h, f), p4), lengths, tokens);
  }

  /** The fields written so far, in the order the map yielded them. */
  ghost predicate FieldsOut(fields: map<uint64, Field>, remaining: map<uint64, Field>, order: seq<uint64>,
                            pads: seq<bytes>) {
    && (forall i, j | 0 <= i < j < |order| :: order[i] != order[j])
    && (forall i | 0 <= i < |order| :: order[i] in fields && order[i] !in remaining)
    && (forall h | h in fields :: h in order || h in remaining)
    && (forall h | h in remaining :: h in fields && remaining[h] == fields[h])
    && |pads| == |order| && (forall i | 0 <= i < |pads| :: |pads[i]| == 4)
  }

  lemma FieldsOutNext(fields: map<uint64, Field>, remaining: map<uint64, Field>, order: seq<uint64>, pads: seq<bytes>,
                      h: uint64, p4: bytes)
    requires FieldsOut(fields, remaining, order, pads) && h in remaining && |p4| == 4
    ensures FieldsOut(fields, remaining - {h}, order + [h], pads + [p4])
  {
    assert (order + [h])[|order|] == h;
  }

  method WriteNextField(w: Writer, buffer: bytes, remaining: map<uint64, Field>, ghost fields: map<uint64, Field>,
                        ghost order: seq<uint64>, ghost pads: seq<bytes>)
      returns (buffer': bytes, remaining': map<uint64, Field>, ghost order': seq<uint64>, ghost pads': seq<bytes>)
    requires w.Appending() && |buffer| == 8 && remaining.Keys != {} && FieldsOut(fields, remaining, order, pads)
    modifies w, w.file
    ensures w.Appending() && |buffer'| == 8 && FieldsOut(fields, remaining', order', pads')
    ensures exists image ::
              w.Written() == old(w.Written()) + image && Appends(fields, order, pads, order', pads', image)
    ensures |remaining'.Keys| < |remaining.Keys|
  {
    var h :| h in remaining.Keys;
    ghost var p4;
    buffer', p4 := WriteField(w, buffer, h, remaining[h]);
    remaining', order', pads' := remaining - {h}, order + [h], pads + [p4];
    FieldsOutNext(fields, remaining, order, pads, h, p4);
    OneLess(remaining, h);
    PieceAppended(FieldImage, fields, order, pads, h, p4);
    assert Appends(fields, order, pads, order', pads', FieldImage(h, fields[h], p4));
  }

  /** The fields written so far, with one more. */
  ghost predicate Appends(fields: map<uint64, Field>, order: seq<uint64>, pads: seq<bytes>, order': seq<uint64>,
                          pads': seq<bytes>, image: bytes) {
    Collect(|order'|, FieldAt(fields, order', pads')) == Collect(|order|, FieldAt(fields, order, pads)) + image
  }

  lemma OneLess<K, V>(m: map<K, V>, k: K)
    requires k in m
    ensures |(m - {k}).Keys| < |m.Keys|
  {
    assert (m - {k}).Keys == m.Keys - {k};
  }

  method WriteFields(w: Writer, buffer: bytes, fields: map<uint64, Field>)
      returns (ghost order: seq<uint64>, ghost pads: seq<bytes>)
    requires w.Appending() && |buffer| == 8
    modifies w, w.file
    ensures w.Appending() && Enumerates(order, fields.Keys) && |pads| == |order|
    ensures forall i | 0 <= i < |pads| :: |pads[i]| == 4
    ensures w.Written() == old(w.Written()) + Collect(|order|, FieldAt(fields, order, pads))
  {
    ghost var base := w.Written();
    var remaining, buf := fields, buffer;
    order, pads := [], [];
    while remaining.Keys != {}
      invariant w.Appending() && |buf| == 8 && FieldsOut(fields, remaining, order, pads)
      invariant w.Written() == base + Collect(|order|, FieldAt(fields, order, pads))
      decreases |remaining.Keys|
    {
      ghost var written, done := w.Written(), Collect(|order|, FieldAt(fields, order, pads));
      buf, remaining, order, pads := WriteNextField(w, buf, remaining, fields, order, pads);
      ghost var image :| w.Written() == written + image
          && Collect(|order|, FieldAt(fields, order, pads)) == done + image;
      Associate(base, done, image);
    }
  }
}
