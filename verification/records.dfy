/** The bytes of each fixed-stride record of storage/headers.go, and the way back. */
module Records {
  import opened Bytes
  import opened Codec
  import opened Headers

  const DocumentIdSize := 136
  const TokenSize := 160
  const TokenFrequencyEntrySize := 8
  const DocumentLengthEntrySize := 8
  const PostingListHeaderSize := 16

  function PutUint32(n: uint32): (b: bytes)
    ensures |b| == 4
  {
    LE(n, 4)
  }

  function PutUint64(n: nat): (b: bytes)
    ensures |b| == 8
  {
    LE(n, 8)
  }

  function Uint32(b: bytes): uint32
    requires |b| == 4
  {
    UnLEBound(b);
    Widths();
    UnLE(b)
  }

  function Uint64(b: bytes): uint64
    requires |b| == 8
  {
    UnLEBound(b);
    Widths();
    UnLE(b)
  }

  lemma Uint32Back(n: uint32)
    ensures Uint32(PutUint32(n)) == n
  {
    Widths();
    UnLEOfLE(n, 4);
  }

  lemma Uint64Back(n: nat)
    requires n < 0x1_0000_0000_0000_0000
    ensures Uint64(PutUint64(n)) == n
  {
    Widths();
    UnLEOfLE(n, 8);
  }

  function PutRawValue(v: RawValue): bytes {
    PutUint64(v.size) + v.data
  }

  function GetRawValue(b: bytes): RawValue {
    if |b| == DocumentIdSize then RawRecord.RawValue(Uint64(b[..8]), b[8..])
        else RawRecord.RawValue(0, seq(MaxRawValueSize, _ => 0))
  }

  function PutFrequency(e: TokenFrequencyEntry): bytes {
    PutUint32(e.documentIndex) + PutUint32(e.frequency)
  }

  function GetFrequency(b: bytes): TokenFrequencyEntry {
    if |b| == TokenFrequencyEntrySize then TokenFrequencyEntry(Uint32(b[..4]), Uint32(b[4..]))
        else TokenFrequencyEntry(0, 0)
  }

  function PutLength(e: DocumentLengthEntry): bytes {
    PutUint32(e.index) + PutUint32(e.length)
  }

  function GetLength(b: bytes): DocumentLengthEntry {
    if |b| == DocumentLengthEntrySize then DocumentLengthEntry(Uint32(b[..4]), Uint32(b[4..]))
        else DocumentLengthEntry(0, 0)
  }

  function PutHeader(h: PostingListHeader): bytes {
    PutUint64(h.offset) + PutUint64(h.length)
  }

  function GetHeader(b: bytes): PostingListHeader {
    if |b| == PostingListHeaderSize then PostingListHeader(Uint64(b[..8]), Uint64(b[8..])) else PostingListHeader(0, 0)
  }

  function PutToken(t: Token): bytes {
    PutUint64(t.frequencyCount)
        + (PutUint64(t.postingListIndex) + (PutUint64(t.frequenciesIndex) + PutRawValue(t.value)))
  }

  function GetToken(b: bytes): Token {
    if |b| == TokenSize then
      Token(Uint64(b[..8]), Uint64(b[8..][..8]), Uint64(b[8..][8..][..8]), GetRawValue(b[8..][8..][8..]))
    else Token(0, 0, 0, GetRawValue([]))
  }

  lemma RawValuesBack()
    ensures forall v: RawValue :: |PutRawValue(v)| == DocumentIdSize && GetRawValue(PutRawValue(v)) == v
  {
    forall v: RawValue
      ensures |PutRawValue(v)| == DocumentIdSize && GetRawValue(PutRawValue(v)) == v
    {
      Uint64Back(v.size);
      assert PutRawValue(v)[..8] == PutUint64(v.size) && PutRawValue(v)[8..] == v.data;
    }
  }

  lemma FrequenciesBack()
    ensures forall e :: |PutFrequency(e)| == TokenFrequencyEntrySize && GetFrequency(PutFrequency(e)) == e
  {
    forall e
      ensures |PutFrequency(e)| == TokenFrequencyEntrySize && GetFrequency(PutFrequency(e)) == e
    {
      Uint32Back(e.documentIndex);
      Uint32Back(e.frequency);
      assert PutFrequency(e)[..4] == PutUint32(e.documentIndex) && PutFrequency(e)[4..] == PutUint32(e.frequency);
    }
  }

  lemma LengthsBack()
    ensures forall e :: |PutLength(e)| == DocumentLengthEntrySize && GetLength(PutLength(e)) == e
  {
    forall e
      ensures |PutLength(e)| == DocumentLengthEntrySize && GetLength(PutLength(e)) == e
    {
      Uint32Back(e.index);
      Uint32Back(e.length);
      assert PutLength(e)[..4] == PutUint32(e.index) && PutLength(e)[4..] == PutUint32(e.length);
    }
  }

  /** A header or token whose counters fit 64 bits. */
  ghost predicate HeaderFits(h: PostingListHeader) {
    h.offset < 0x1_0000_0000_0000_0000 && h.length < 0x1_0000_0000_0000_0000
  }

  ghost predicate TokenFits(t: Token) {
    && t.frequencyCount < 0x1_0000_0000_0000_0000
    && t.postingListIndex < 0x1_0000_0000_0000_0000
    && t.frequenciesIndex < 0x1_0000_0000_0000_0000
  }

  lemma ListHeaderBack(h: PostingListHeader)
    requires HeaderFits(h)
    ensures GetHeader(PutHeader(h)) == h
  {
    Uint64Back(h.offset);
    Uint64Back(h.length);
    assert PutHeader(h)[..8] == PutUint64(h.offset) && PutHeader(h)[8..] == PutUint64(h.length);
  }

  lemma TokenBack(t: Token)
    requires TokenFits(t)
    ensures GetToken(PutToken(t)) == t
  {
    RawValuesBack();
    Uint64Back(t.frequencyCount);
    Uint64Back(t.postingListIndex);
    Uint64Back(t.frequenciesIndex);
    var v := PutRawValue(t.value);
    var fi := PutUint64(t.frequenciesIndex) + v;
    var pl := PutUint64(t.postingListIndex) + fi;
    assert PutToken(t)[8..] == pl && pl[8..] == fi && fi[8..] == v;
    assert PutToken(t)[..8] == PutUint64(t.frequencyCount) && pl[..8] == PutUint64(t.postingListIndex);
    assert fi[..8] == PutUint64(t.frequenciesIndex);
  }
}
