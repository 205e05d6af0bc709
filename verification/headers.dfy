/** storage/headers.go: the fixed-stride records of an index and the searches over two of their tables. */
module Headers {
  import opened Bytes

  type uint32 = x: int | 0 <= x < 0x1_0000_0000
  type uint64 = x: int | 0 <= x < 0x1_0000_0000_0000_0000

  /** Documents are numbered with 32 bits. */
  const MaxDocuments := 0x1_0000_0000

  const MaxRawValueSize := 128

  /** A length and an inline buffer of 128 bytes. */
  datatype RawRecord = RawValue(size: uint64, data: bytes)

  type RawValue = v: RawRecord | |v.data| == MaxRawValueSize
    witness RawRecord.RawValue(0, seq(MaxRawValueSize, _ => 0))

  function RawBytes(v: RawValue): bytes {
    v.data[..if v.size < MaxRawValueSize then v.size else MaxRawValueSize]
  }

  /** `copy` into the inline buffer: what exceeds 128 bytes is cut, and zeros are left behind what does not fill it. */
  function RawValueFrom(b: bytes): (v: RawValue)
    ensures v.size <= MaxRawValueSize && RawBytes(v) == if |b| <= MaxRawValueSize then b else b[..MaxRawValueSize]
  {
    var n := if |b| < MaxRawValueSize then |b| else MaxRawValueSize;
    RawRecord.RawValue(n, b[..n] + seq(MaxRawValueSize - n, _ => 0))
  }

  /** The buffer holds those bytes, and zeros behind them. */
  lemma BufferFrom(b: bytes)
    ensures var v, n := RawValueFrom(b), if |b| < 128 then |b| else 128;
            v.size == n && v.data == b[..n] + seq(128 - n, _ => 0)
  {
  }

  /** The 64-bit counters are unbounded here; writing one keeps its low 8 bytes. */
  datatype Token = Token(frequencyCount: nat, postingListIndex: nat, frequenciesIndex: nat, value: RawValue)
  {
    function Bytes(): bytes { RawBytes(value) }
  }

  datatype TokenFrequencyEntry = TokenFrequencyEntry(documentIndex: uint32, frequency: uint32)

  datatype DocumentLengthEntry = DocumentLengthEntry(index: uint32, length: uint32)

  datatype PostingListHeader = PostingListHeader(offset: nat, length: nat)

  ghost predicate FreqsAscending(s: seq<TokenFrequencyEntry>) {
    forall i, j | 0 <= i < j < |s| :: s[i].documentIndex < s[j].documentIndex
  }

  ghost predicate LengthsAscending(s: seq<DocumentLengthEntry>) {
    forall i, j | 0 <= i < j < |s| :: s[i].index < s[j].index
  }

  lemma {:induction false} LengthAtLeast(s: seq<DocumentLengthEntry>, i: nat)
    requires LengthsAscending(s) && i < |s|
    ensures s[i].index >= i
  {
    if i > 0 {
      LengthAtLeast(s, i - 1);
    }
  }

  /** `TokenFrequencies.BinarySearch`: the lower bound of the document, and whether it is there. */
  method SearchFrequencies(s: seq<TokenFrequencyEntry>, docIdx: uint32) returns (i: nat, found: bool)
    requires FreqsAscending(s)
    ensures i <= |s|
    ensures forall l | 0 <= l < i :: s[l].documentIndex < docIdx
    ensures forall l | i <= l < |s| :: s[l].documentIndex >= docIdx
    ensures found <==> exists f :: TokenFrequencyEntry(docIdx, f) in s
    ensures found ==> i < |s| && s[i].documentIndex == docIdx
  {
    i := 0;
    var j := |s|;
    while i < j
      invariant 0 <= i <= j <= |s|
      invariant forall l | 0 <= l < i :: s[l].documentIndex < docIdx
      invariant forall l | j <= l < |s| :: s[l].documentIndex >= docIdx
    {
      var h := (i + j) / 2;
      if s[h].documentIndex < docIdx {
        i := h + 1;
      } else {
        j := h;
      }
    }
    found := i < |s| && s[i].documentIndex == docIdx;
    if found {
      assert TokenFrequencyEntry(docIdx, s[i].frequency) in s;
    }
  }

  /** `DocumentsLengths.BinarySearch`. */
  method SearchLengths(s: seq<DocumentLengthEntry>, docIdx: uint32) returns (i: nat, found: bool)
    requires LengthsAscending(s)
    ensures i <= |s|
    ensures forall l | 0 <= l < i :: s[l].index < docIdx
    ensures forall l | i <= l < |s| :: s[l].index >= docIdx
    ensures found <==> exists n :: DocumentLengthEntry(docIdx, n) in s
    ensures found ==> i < |s| && s[i].index == docIdx
  {
    i := 0;
    var j := |s|;
    while i < j
      invariant 0 <= i <= j <= |s|
      invariant forall l | 0 <= l < i :: s[l].index < docIdx
      invariant forall l | j <= l < |s| :: s[l].index >= docIdx
    {
      var h := (i + j) / 2;
      if s[h].index < docIdx {
        i := h + 1;
      } else {
        j := h;
      }
    }
    found := i < |s| && s[i].index == docIdx;
    if found {
      assert DocumentLengthEntry(docIdx, s[i].length) in s;
    }
  }
}
