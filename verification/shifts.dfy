/** Documents renumbered: what the second of two merged indexes goes through. */
module Shifts {
  import opened Collecting
  import opened Headers
  import opened Bitmaps
  import opened Tables

  function Add32(x: uint32, y: uint32): uint32 {
    (x + y) % 0x1_0000_0000
  }

  function ShiftEntry(offset: uint32): TokenFrequencyEntry -> TokenFrequencyEntry {
    (e: TokenFrequencyEntry) => TokenFrequencyEntry(Add32(offset, e.documentIndex), e.frequency)
  }

  function ShiftLength(offset: uint32): DocumentLengthEntry -> DocumentLengthEntry {
    (e: DocumentLengthEntry) => DocumentLengthEntry(Add32(offset, e.index), e.length)
  }

  /** Entries renumbered for documents that follow `offset` others. */
  ghost function Shift(es: seq<TokenFrequencyEntry>, offset: uint32): seq<TokenFrequencyEntry> {
    MapSeq(es, ShiftEntry(offset))
  }

  ghost function ShiftLengths(ls: seq<DocumentLengthEntry>, offset: uint32): seq<DocumentLengthEntry> {
    MapSeq(ls, ShiftLength(offset))
  }

  ghost function ShiftSet(s: Bitmap, offset: uint32): Bitmap {
    set d | d in s :: Add32(offset, d)
  }

  lemma DocumentsShift(es: seq<TokenFrequencyEntry>, offset: uint32)
    ensures DocumentsOf(Shift(es, offset)) == ShiftSet(DocumentsOf(es), offset)
  {
    var shifted := Shift(es, offset);
    forall d | d in ShiftSet(DocumentsOf(es), offset)
      ensures d in DocumentsOf(shifted)
    {
      var i :| 0 <= i < |es| && Add32(offset, es[i].documentIndex) == d;
      assert shifted[i].documentIndex == d;
    }
    forall i | 0 <= i < |es|
      ensures shifted[i].documentIndex in ShiftSet(DocumentsOf(es), offset)
    {
      assert es[i].documentIndex in DocumentsOf(es);
    }
  }

  /** Entries over `m` documents followed by shifted entries over `n` more are entries over all of them. */
  lemma EntriesAppend(xs: seq<TokenFrequencyEntry>, ys: seq<TokenFrequencyEntry>, m: uint32, n: nat)
    requires m + n < MaxDocuments && (xs == [] || EntriesOk(xs, m)) && (ys == [] || EntriesOk(ys, n))
    ensures xs != [] || ys != [] ==> EntriesOk(xs + Shift(ys, m), m + n)
  {
    if xs != [] || ys != [] {
      EntriesInOrder(xs, ys, m, n);
    }
  }

  lemma EntryAppended(xs: seq<TokenFrequencyEntry>, ys: seq<TokenFrequencyEntry>, m: uint32, n: nat, i: nat)
    requires m + n < MaxDocuments && i < |xs| + |ys| && (xs == [] || EntriesOk(xs, m)) && (ys == [] || EntriesOk(ys, n))
    ensures var d := (xs + Shift(ys, m))[i].documentIndex;
            if i < |xs| then d == xs[i].documentIndex < m else m <= d == m + ys[i - |xs|].documentIndex < m + n
  {
  }

  lemma EntriesInOrder(xs: seq<TokenFrequencyEntry>, ys: seq<TokenFrequencyEntry>, m: uint32, n: nat)
    requires m + n < MaxDocuments && (xs == [] || EntriesOk(xs, m)) && (ys == [] || EntriesOk(ys, n))
    ensures FreqsAscending(xs + Shift(ys, m))
    ensures var es := xs + Shift(ys, m); forall i | 0 <= i < |es| :: es[i].documentIndex < m + n
  {
    var es := xs + Shift(ys, m);
    forall i | 0 <= i < |es|
      ensures es[i].documentIndex < m + n
    {
      EntryAppended(xs, ys, m, n, i);
    }
    forall i, j | 0 <= i < j < |es|
      ensures es[i].documentIndex < es[j].documentIndex
    {
      EntryAppended(xs, ys, m, n, i);
      EntryAppended(xs, ys, m, n, j);
    }
  }

  lemma LengthsAppend(xs: seq<DocumentLengthEntry>, ys: seq<DocumentLengthEntry>, m: uint32, n: nat)
    requires m + n < MaxDocuments && LengthsOk(xs, m) && LengthsOk(ys, n)
    ensures LengthsOk(xs + ShiftLengths(ys, m), m + n)
  {
    var ls := xs + ShiftLengths(ys, m);
    forall i | 0 <= i < |ls|
      ensures ls[i].index < m + n && ls[i].length > 0
      ensures if i < |xs| then ls[i].index < m else ls[i].index == m + ys[i - |xs|].index
    {
    }
  }

  lemma {:induction false} SumOfAppended(xs: seq<DocumentLengthEntry>, ys: seq<DocumentLengthEntry>, m: uint32, n: nat)
    requires n <= |ys|
    ensures SumLengths(xs + ShiftLengths(ys, m), |xs| + n) == SumLengths(xs, |xs|) + SumLengths(ys, n)
  {
    var ls := xs + ShiftLengths(ys, m);
    if n > 0 {
      SumOfAppended(xs, ys, m, n - 1);
      assert ls[|xs| + n - 1].length == ys[n - 1].length;
    } else {
      SumOfPrefix(ls, xs, |xs|);
    }
  }

  lemma {:induction false} SumOfPrefix(ls: seq<DocumentLengthEntry>, xs: seq<DocumentLengthEntry>, n: nat)
    requires n <= |xs| && n <= |ls| && forall i | 0 <= i < n :: ls[i] == xs[i]
    ensures SumLengths(ls, n) == SumLengths(xs, n)
  {
    if n > 0 {
      SumOfPrefix(ls, xs, n - 1);
    }
  }

  /** Renumbering twice is renumbering by the sum, entry by entry. */
  lemma ShiftTwice(es: seq<TokenFrequencyEntry>, m: uint32, n: uint32)
    requires m + n < MaxDocuments
    ensures Shift(Shift(es, n), m) == Shift(es, m + n)
  {
    forall i | 0 <= i < |es|
      ensures Shift(Shift(es, n), m)[i] == Shift(es, m + n)[i]
    {
      AddTwice(m, n, es[i].documentIndex);
    }
  }

  lemma LengthsShiftTwice(ls: seq<DocumentLengthEntry>, m: uint32, n: uint32)
    requires m + n < MaxDocuments
    ensures ShiftLengths(ShiftLengths(ls, n), m) == ShiftLengths(ls, m + n)
  {
    forall i | 0 <= i < |ls|
      ensures ShiftLengths(ShiftLengths(ls, n), m)[i] == ShiftLengths(ls, m + n)[i]
    {
      AddTwice(m, n, ls[i].index);
    }
  }

  lemma AddTwice(m: uint32, n: uint32, d: uint32)
    requires m + n < MaxDocuments
    ensures Add32(m, Add32(n, d)) == Add32(m + n, d)
  {
  }

  lemma ShiftAppended(xs: seq<TokenFrequencyEntry>, ys: seq<TokenFrequencyEntry>, m: uint32)
    ensures Shift(xs + ys, m) == Shift(xs, m) + Shift(ys, m)
  {
  }

  lemma LengthsShiftAppended(xs: seq<DocumentLengthEntry>, ys: seq<DocumentLengthEntry>, m: uint32)
    ensures ShiftLengths(xs + ys, m) == ShiftLengths(xs, m) + ShiftLengths(ys, m)
  {
  }
}
