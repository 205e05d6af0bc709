/**
 storage/storage.go, first half of `BuildFrom`: documents are folded into one accumulator per field, whose
 tokens sit in a tree sorted by bytes. The tree is modelled as the sorted list of its items.
 */
module Accumulate {
  import opened Bytes
  import opened Collecting
  import opened Headers
  import opened Options
  import opened Tables
  import opened Documents
  import opened Totals
  import opened Records

  const FieldHeaderSize := 48

  datatype PostingData = PostingData(value: bytes, freqs: seq<TokenFrequencyEntry>)

  datatype Accumulator = Accumulator(
    totalLength: nat,
    documentsCount: nat,
    lengths: seq<DocumentLengthEntry>,
    tokens: seq<PostingData>,
    totalFreqs: nat)

  type Accumulators = map<uint64, Accumulator>

  ghost predicate DataSorted(ts: seq<PostingData>) {
    forall i, j | 0 <= i < j < |ts| :: Less(ts[i].value, ts[j].value)
  }

  ghost predicate HasData(ts: seq<PostingData>, v: bytes, i: nat) {
    i < |ts| && ts[i].value == v
  }

  ghost function DataEntries(ts: seq<PostingData>, v: bytes): seq<TokenFrequencyEntry> {
    if exists i: nat :: HasData(ts, v, i) then
      var i: nat :| HasData(ts, v, i);
      ts[i].freqs
    else []
  }

  lemma DataEntriesAt(ts: seq<PostingData>, v: bytes, i: nat)
    requires DataSorted(ts) && HasData(ts, v, i)
    ensures DataEntries(ts, v) == ts[i].freqs
  {
    forall j: nat | HasData(ts, v, j)
      ensures j == i
    {
      LessTotal(ts[i].value, ts[j].value);
    }
  }

  lemma DataEntriesNone(ts: seq<PostingData>, v: bytes)
    requires forall i: nat :: !HasData(ts, v, i)
    ensures DataEntries(ts, v) == []
  {
  }

  ghost function SumFreqs(ts: seq<PostingData>, n: nat): nat
    requires n <= |ts|
  {
    if n == 0 then 0 else SumFreqs(ts, n - 1) + |ts[n - 1].freqs|
  }

  /** The lists agree on their first `n` items, so do their sums. */
  lemma {:induction false} SumFreqsSame(ts: seq<PostingData>, us: seq<PostingData>, n: nat)
    requires n <= |ts| && n <= |us| && forall i | 0 <= i < n :: ts[i] == us[i]
    ensures SumFreqs(ts, n) == SumFreqs(us, n)
  {
    if n > 0 {
      SumFreqsSame(ts, us, n - 1);
    }
  }

  lemma {:induction false} SumFreqsUpdate(ts: seq<PostingData>, i: nat, e: TokenFrequencyEntry, n: nat)
    requires i < n <= |ts|
    ensures SumFreqs(ts[i := PostingData(ts[i].value, ts[i].freqs + [e])], n) == SumFreqs(ts, n) + 1
  {
    var us := ts[i := PostingData(ts[i].value, ts[i].freqs + [e])];
    if i < n - 1 {
      SumFreqsUpdate(ts, i, e, n - 1);
    } else {
      SumFreqsSame(ts, us, n - 1);
    }
  }

  lemma {:induction false} SumFreqsInsert(ts: seq<PostingData>, i: nat, x: PostingData, n: nat)
    requires i <= n <= |ts|
    ensures SumFreqs(ts[..i] + [x] + ts[i..], n + 1) == SumFreqs(ts, n) + |x.freqs|
  {
    var us := ts[..i] + [x] + ts[i..];
    if i < n {
      SumFreqsInsert(ts, i, x, n - 1);
      assert us[n] == ts[n - 1];
    } else {
      SumFreqsSame(ts, us, n);
      assert us[n] == x;
    }
  }

  ghost predicate ItemsOk(ts: seq<PostingData>) {
    forall i | 0 <= i < |ts| :: ts[i].freqs != [] && |ts[i].value| <= MaxRawValueSize
  }

  ghost predicate AccumulatorOk(a: Accumulator) {
    && DataSorted(a.tokens)
    && ItemsOk(a.tokens)
    && a.totalFreqs == SumFreqs(a.tokens, |a.tokens|)
    && a.totalLength == SumLengths(a.lengths, |a.lengths|)
    && a.documentsCount == |a.lengths|
  }

  /** Bytes of the file that the accumulator stands for, posting lists apart. */
  ghost function AccumulatorSize(): Accumulator -> nat {
    (a: Accumulator) => FieldHeaderSize + DocumentLengthEntrySize * |a.lengths| + TokenSize * |a.tokens|
                        + TokenFrequencyEntrySize * a.totalFreqs
  }

  /** The tree lookup: the first item that is not below `v`. */
  method Find(ts: seq<PostingData>, v: bytes) returns (i: nat, found: bool)
    requires DataSorted(ts)
    ensures i <= |ts| && (forall l | 0 <= l < i :: Less(ts[l].value, v))
    ensures if found then i < |ts| && ts[i].value == v else forall l | i <= l < |ts| :: Less(v, ts[l].value)
  {
    i := 0;
    while i < |ts| && Compare(ts[i].value, v) < 0
      invariant i <= |ts| && forall l | 0 <= l < i :: Less(ts[l].value, v)
    {
      i := i + 1;
    }
    found := i < |ts| && ts[i].value == v;
    if i < |ts| && !found {
      LessTotal(ts[i].value, v);
      AllAbove(ts, i, v);
    }
  }

  lemma AllAbove(ts: seq<PostingData>, i: nat, v: bytes)
    requires DataSorted(ts) && i < |ts| && Less(v, ts[i].value)
    ensures forall l | i <= l < |ts| :: Less(v, ts[l].value)
  {
    forall l | i < l < |ts|
      ensures Less(v, ts[l].value)
    {
      LessTransitive(v, ts[i].value, ts[l].value);
    }
  }

  ghost function Added(v: bytes, u: bytes, e: TokenFrequencyEntry): seq<TokenFrequencyEntry> {
    if u == v then [e] else []
  }

  lemma EntriesUpdated(ts: seq<PostingData>, i: nat, e: TokenFrequencyEntry, u: bytes)
    requires DataSorted(ts) && i < |ts|
    ensures var us := ts[i := PostingData(ts[i].value, ts[i].freqs + [e])];
            DataSorted(us) && DataEntries(us, u) == DataEntries(ts, u) + Added(ts[i].value, u, e)
  {
    var us := ts[i := PostingData(ts[i].value, ts[i].freqs + [e])];
    assert forall j: nat :: HasData(us, u, j) <==> HasData(ts, u, j);
    if j: nat :| HasData(ts, u, j) {
      assert HasData(us, u, j);
      DataEntriesAt(ts, u, j);
      DataEntriesAt(us, u, j);
      if j != i {
        LessTotal(ts[i].value, ts[j].value);
      }
    } else {
      assert HasData(ts, ts[i].value, i);
      DataEntriesNone(ts, u);
      DataEntriesNone(us, u);
    }
  }

  lemma InsertSorted(ts: seq<PostingData>, i: nat, x: PostingData)
    requires DataSorted(ts) && i <= |ts|
    requires forall l | 0 <= l < i :: Less(ts[l].value, x.value)
    requires forall l | i <= l < |ts| :: Less(x.value, ts[l].value)
    ensures DataSorted(ts[..i] + [x] + ts[i..])
  {
  }

  lemma EntriesInserted(ts: seq<PostingData>, i: nat, v: bytes, e: TokenFrequencyEntry, u: bytes)
    requires DataSorted(ts) && i <= |ts|
    requires forall l | 0 <= l < i :: Less(ts[l].value, v)
    requires forall l | i <= l < |ts| :: Less(v, ts[l].value)
    ensures DataEntries(ts[..i] + [PostingData(v, [e])] + ts[i..], u) == DataEntries(ts, u) + Added(v, u, e)
  {
    var us := ts[..i] + [PostingData(v, [e])] + ts[i..];
    InsertSorted(ts, i, PostingData(v, [e]));
    LessTotal(v, v);
    if u == v {
      assert forall j: nat :: HasData(ts, u, j) ==> Less(v, v);
      DataEntriesNone(ts, u);
      assert HasData(us, u, i);
      DataEntriesAt(us, u, i);
    } else if j: nat :| HasData(ts, u, j) {
      var j' := if j < i then j else j + 1;
      assert us[j'] == ts[j] && HasData(us, u, j');
      DataEntriesAt(ts, u, j);
      DataEntriesAt(us, u, j');
    } else {
      DataEntriesNone(ts, u);
      StillNone(ts, i, PostingData(v, [e]), u);
      DataEntriesNone(us, u);
    }
  }

  lemma StillNone(ts: seq<PostingData>, i: nat, x: PostingData, u: bytes)
    requires i <= |ts| && u != x.value && forall j: nat :: !HasData(ts, u, j)
    ensures forall j: nat :: !HasData(ts[..i] + [x] + ts[i..], u, j)
  {
    var us := ts[..i] + [x] + ts[i..];
    forall j: nat
      ensures !HasData(us, u, j)
    {
      if j < |us| && j != i {
        var j' := if j < i then j else j - 1;
        assert us[j] == ts[j'] && !HasData(ts, u, j');
      }
    }
  }

  lemma AllUpdated(ts: seq<PostingData>, i: nat, e: TokenFrequencyEntry)
    requires DataSorted(ts) && i < |ts|
    ensures var us := ts[i := PostingData(ts[i].value, ts[i].freqs + [e])];
            forall u :: DataEntries(us, u) == DataEntries(ts, u) + Added(ts[i].value, u, e)
  {
    forall u {
      EntriesUpdated(ts, i, e, u);
    }
  }

  lemma AllInserted(ts: seq<PostingData>, i: nat, v: bytes, e: TokenFrequencyEntry)
    requires DataSorted(ts) && i <= |ts|
    requires forall l | 0 <= l < i :: Less(ts[l].value, v)
    requires forall l | i <= l < |ts| :: Less(v, ts[l].value)
    ensures var us := ts[..i] + [PostingData(v, [e])] + ts[i..];
            forall u :: DataEntries(us, u) == DataEntries(ts, u) + Added(v, u, e)
  {
    forall u {
      EntriesInserted(ts, i, v, e, u);
    }
  }

  /** `Get`, `Set` when it is missing, and the append to its frequencies. */
  method AddEntry(ts: seq<PostingData>, v: bytes, e: TokenFrequencyEntry) returns (us: seq<PostingData>, found: bool)
    requires DataSorted(ts) && ItemsOk(ts) && |v| <= MaxRawValueSize
    ensures DataSorted(us) && |us| == |ts| + if found then 0 else 1
    ensures forall u :: DataEntries(us, u) == DataEntries(ts, u) + Added(v, u, e)
    ensures SumFreqs(us, |us|) == SumFreqs(ts, |ts|) + 1
    ensures ItemsOk(us)
  {
    var i: nat;
    i, found := Find(ts, v);
    if found {
      us := ts[i := PostingData(v, ts[i].freqs + [e])];
      SumFreqsUpdate(ts, i, e, |ts|);
      AllUpdated(ts, i, e);
      EntriesUpdated(ts, i, e, v);
    } else {
      us := ts[..i] + [PostingData(v, [e])] + ts[i..];
      SumFreqsInsert(ts, i, PostingData(v, [e]), |ts|);
      InsertSorted(ts, i, PostingData(v, [e]));
      AllInserted(ts, i, v, e);
    }
  }

  ghost function AccumulatedEntries(accs: Accumulators, h: uint64, v: bytes): seq<TokenFrequencyEntry> {
    if h in accs then DataEntries(accs[h].tokens, v) else []
  }

  ghost function AccumulatedLengths(accs: Accumulators, h: uint64): seq<DocumentLengthEntry> {
    if h in accs then accs[h].lengths else []
  }

  ghost predicate AccumulatorsOk(accs: Accumulators) {
    forall h | h in accs :: AccumulatorOk(accs[h])
  }

  ghost function AccumulatorsSize(accs: Accumulators): nat {
    Total(accs, AccumulatorSize())
  }

  ghost function EntriesOfField(fd: FieldDefinition, h: uint64, v: bytes, d: uint32): seq<TokenFrequencyEntry> {
    if fd.hash == h then Collect(|fd.tokens|, TokenAt(fd.tokens, v, d)) else []
  }

  ghost function LengthOfField(fd: FieldDefinition, h: uint64, d: uint32): seq<DocumentLengthEntry> {
    if fd.hash == h && fd.length > 0 then [DocumentLengthEntry(d, fd.length)] else []
  }

  /** One token definition: a tree item when it is new, and one more frequency entry. */
  method AddToken(acc: Accumulator, v: bytes, e: TokenFrequencyEntry, size: nat) returns (acc': Accumulator, size': nat)
    requires AccumulatorOk(acc) && |v| <= MaxRawValueSize
    ensures AccumulatorOk(acc') && acc'.lengths == acc.lengths
    ensures forall u :: DataEntries(acc'.tokens, u) == DataEntries(acc.tokens, u) + Added(v, u, e)
    ensures size' + AccumulatorSize()(acc) == size + AccumulatorSize()(acc')
  {
    size' := size;
    var tokens, found := AddEntry(acc.tokens, v, e);
    if !found {
      size' := size' + TokenSize;
    }
    acc' := acc.(tokens := tokens, totalFreqs := acc.totalFreqs + 1);
    size' := size' + TokenFrequencyEntrySize;
  }

  lemma TokenAdded(before: seq<TokenFrequencyEntry>, ts: seq<Option<TokenDefinition>>, i: nat, u: bytes, d: uint32)
    requires i < |ts|
    ensures before + Collect(i + 1, TokenAt(ts, u, d)) == before + Collect(i, TokenAt(ts, u, d)) +
            if ts[i].Some? then Added(ts[i].value.value, u, TokenFrequencyEntry(d, ts[i].value.frequency)) else []
  {
  }

  /** The innermost loop: the token definitions of one field of one document. */
  method AddTokens(acc: Accumulator, ts: seq<Option<TokenDefinition>>, d: uint32, size: nat)
      returns (acc': Accumulator, size': nat)
    requires AccumulatorOk(acc)
    requires forall i | 0 <= i < |ts| && ts[i].Some? :: |ts[i].value.value| <= MaxRawValueSize
    ensures AccumulatorOk(acc') && acc'.lengths == acc.lengths
    ensures forall v :: DataEntries(acc'.tokens, v) == DataEntries(acc.tokens, v) + Collect(|ts|, TokenAt(ts, v, d))
    ensures size' + AccumulatorSize()(acc) == size + AccumulatorSize()(acc')
  {
    acc', size' := acc, size;
    for i := 0 to |ts|
      invariant AccumulatorOk(acc') && acc'.lengths == acc.lengths
      invariant forall v :: DataEntries(acc'.tokens, v) == DataEntries(acc.tokens, v) + Collect(i, TokenAt(ts, v, d))
      invariant size' + AccumulatorSize()(acc) == size + AccumulatorSize()(acc')
    {
      if ts[i].Some? {
        acc', size' := AddToken(acc', ts[i].value.value, TokenFrequencyEntry(d, ts[i].value.frequency), size');
      }
      forall v { TokenAdded(DataEntries(acc.tokens, v), ts, i, v, d); }
    }
  }

  /** The accumulator of the field, new when it is the first time, and the length entry when there is one. */
  method OpenField(accs: Accumulators, fd: FieldDefinition, d: uint32, size: nat)
      returns (ghost start: Accumulator, acc: Accumulator, size': nat)
    requires AccumulatorsOk(accs)
    ensures if fd.hash in accs then start == accs[fd.hash] else start.tokens == [] && start.lengths == []
    ensures AccumulatorOk(acc) && acc.tokens == start.tokens
    ensures acc.lengths == start.lengths + LengthOfField(fd, fd.hash, d)
    ensures size' + (if fd.hash in accs then AccumulatorSize()(accs[fd.hash]) else 0) == size + AccumulatorSize()(acc)
  {
    size' := size;
    acc := Accumulator(0, 0, [], [], 0);
    if fd.hash in accs {
      acc := accs[fd.hash];
    } else {
      size' := size' + FieldHeaderSize;
    }
    start := acc;
    if fd.length > 0 {
      acc := acc.(lengths := acc.lengths + [DocumentLengthEntry(d, fd.length)],
                  totalLength := acc.totalLength + fd.length,
                  documentsCount := acc.documentsCount + 1);
      SumLengthsSnoc(start.lengths, DocumentLengthEntry(d, fd.length));
      size' := size' + DocumentLengthEntrySize;
    }
  }

  /** One field of one document: its accumulator, its length, its tokens. */
  method AddField(accs: Accumulators, fd: FieldDefinition, d: uint32, size: nat)
      returns (accs': Accumulators, size': nat)
    requires AccumulatorsOk(accs) && FieldDefined(fd)
    ensures AccumulatorsOk(accs') && accs'.Keys == accs.Keys + {fd.hash}
    ensures forall h, v ::
            AccumulatedEntries(accs', h, v) == AccumulatedEntries(accs, h, v) + EntriesOfField(fd, h, v, d)
    ensures forall h :: AccumulatedLengths(accs', h) == AccumulatedLengths(accs, h) + LengthOfField(fd, h, d)
    ensures size' + AccumulatorsSize(accs) == size + AccumulatorsSize(accs')
  {
    ghost var start;
    var acc;
    start, acc, size' := OpenField(accs, fd, d, size);
    acc, size' := AddTokens(acc, fd.tokens, d, size');
    accs' := accs[fd.hash := acc];
    SizeUpdated(accs, fd.hash, acc);
    FieldStored(accs, fd, d, start, acc);
  }

  lemma FieldStored(accs: Accumulators, fd: FieldDefinition, d: uint32, start: Accumulator, acc: Accumulator)
    requires if fd.hash in accs then start == accs[fd.hash] else start.tokens == [] && start.lengths == []
    requires acc.lengths == start.lengths + LengthOfField(fd, fd.hash, d)
    requires forall v ::
             DataEntries(acc.tokens, v) == DataEntries(start.tokens, v) + Collect(|fd.tokens|, TokenAt(fd.tokens, v, d))
    ensures forall h, v ::
            AccumulatedEntries(accs[fd.hash := acc], h, v)
                == AccumulatedEntries(accs, h, v) + EntriesOfField(fd, h, v, d)
    ensures forall h ::
            AccumulatedLengths(accs[fd.hash := acc], h) == AccumulatedLengths(accs, h) + LengthOfField(fd, h, d)
  {
    var accs' := accs[fd.hash := acc];
    forall h, v
      ensures AccumulatedEntries(accs', h, v) == AccumulatedEntries(accs, h, v) + EntriesOfField(fd, h, v, d)
    {
      if h == fd.hash && h !in accs {
        DataEntriesNone(start.tokens, v);
      }
    }
    forall h
      ensures AccumulatedLengths(accs', h) == AccumulatedLengths(accs, h) + LengthOfField(fd, h, d)
    {
    }
  }

  lemma {:induction false} SumLengthsSame(xs: seq<DocumentLengthEntry>, ys: seq<DocumentLengthEntry>, n: nat)
    requires n <= |xs| && n <= |ys| && forall i | 0 <= i < n :: xs[i] == ys[i]
    ensures SumLengths(xs, n) == SumLengths(ys, n)
  {
    if n > 0 {
      SumLengthsSame(xs, ys, n - 1);
    }
  }

  lemma SumLengthsSnoc(ls: seq<DocumentLengthEntry>, e: DocumentLengthEntry)
    ensures SumLengths(ls + [e], |ls| + 1) == SumLengths(ls, |ls|) + e.length
  {
    SumLengthsSame(ls + [e], ls, |ls|);
  }

  lemma SizeUpdated(accs: Accumulators, h: uint64, acc: Accumulator)
    ensures AccumulatorsSize(accs[h := acc]) + (if h in accs then AccumulatorSize()(accs[h]) else 0)
            == AccumulatorsSize(accs) + AccumulatorSize()(acc)
  {
    TotalUpdate(accs, AccumulatorSize(), h, acc);
    if h in accs {
      TotalWithout(accs, AccumulatorSize(), h);
    }
  }

  ghost predicate EntriesIn(accs: Accumulators, now: Accumulators, fs: seq<FieldDefinition>, i: nat, d: uint32,
                            h: uint64, v: bytes) {
    AccumulatedEntries(now, h, v) == AccumulatedEntries(accs, h, v) + Collect(i, FieldAt(fs, h, v, d))
  }

  ghost predicate LengthsIn(accs: Accumulators, now: Accumulators, fs: seq<FieldDefinition>, i: nat, d: uint32,
                            h: uint64) {
    && (h in now <==> h in accs || FieldNamed(fs, i, h))
    && AccumulatedLengths(now, h) == AccumulatedLengths(accs, h) + Collect(i, LengthAt(fs, h, d))
  }

  /** The accumulators after the first `i` fields of a document. */
  ghost predicate FieldsIn(accs: Accumulators, now: Accumulators, fs: seq<FieldDefinition>, i: nat, d: uint32) {
    && AccumulatorsOk(now)
    && (forall h {:trigger LengthsIn(accs, now, fs, i, d, h)} :: LengthsIn(accs, now, fs, i, d, h))
    && (forall h, v {:trigger EntriesIn(accs, now, fs, i, d, h, v)} :: EntriesIn(accs, now, fs, i, d, h, v))
  }

  lemma NothingIn(accs: Accumulators, fs: seq<FieldDefinition>, d: uint32)
    requires AccumulatorsOk(accs)
    ensures FieldsIn(accs, accs, fs, 0, d)
  {
  }

  method AddNext(accs: Accumulators, fs: seq<FieldDefinition>, i: nat, d: uint32, size: nat, ghost first: Accumulators)
      returns (accs': Accumulators, size': nat)
    requires i < |fs| && FieldDefined(fs[i]) && FieldsIn(first, accs, fs, i, d)
    ensures FieldsIn(first, accs', fs, i + 1, d)
    ensures size' + AccumulatorsSize(accs) == size + AccumulatorsSize(accs')
  {
    accs', size' := AddField(accs, fs[i], d, size);
    EntriesAdded(first, accs, accs', fs, i, d);
    LengthsAdded(first, accs, accs', fs, i, d);
  }

  /** The fields of one document. */
  method AddDocument(accs: Accumulators, doc: Document, d: uint32, size: nat) returns (accs': Accumulators, size': nat)
    requires AccumulatorsOk(accs) && Defined(doc)
    ensures FieldsIn(accs, accs', doc.fields, |doc.fields|, d)
    ensures size' + AccumulatorsSize(accs) == size + AccumulatorsSize(accs')
  {
    accs', size' := accs, size;
    var fs := doc.fields;
    NothingIn(accs, fs, d);
    for i := 0 to |fs|
      invariant FieldsIn(accs, accs', fs, i, d)
      invariant size' + AccumulatorsSize(accs) == size + AccumulatorsSize(accs')
    {
      assert FieldDefined(fs[i]);
      accs', size' := AddNext(accs', fs, i, d, size', accs);
    }
  }

  lemma EntriesAdded(accs: Accumulators, before: Accumulators, after: Accumulators, fs: seq<FieldDefinition>, i: nat,
                     d: uint32)
    requires i < |fs| && FieldsIn(accs, before, fs, i, d)
    requires forall h, v ::
             AccumulatedEntries(after, h, v) == AccumulatedEntries(before, h, v) + EntriesOfField(fs[i], h, v, d)
    ensures forall h, v {:trigger EntriesIn(accs, after, fs, i + 1, d, h, v)} ::
            EntriesIn(accs, after, fs, i + 1, d, h, v)
  {
    forall h, v {:trigger EntriesIn(accs, after, fs, i + 1, d, h, v)}
      ensures EntriesIn(accs, after, fs, i + 1, d, h, v)
    {
      assert EntriesIn(accs, before, fs, i, d, h, v);
      CollectStep(AccumulatedEntries(accs, h, v), i, FieldAt(fs, h, v, d));
    }
  }

  lemma LengthsAdded(accs: Accumulators, before: Accumulators, after: Accumulators, fs: seq<FieldDefinition>, i: nat,
                     d: uint32)
    requires i < |fs| && FieldsIn(accs, before, fs, i, d) && after.Keys == before.Keys + {fs[i].hash}
    requires forall h :: AccumulatedLengths(after, h) == AccumulatedLengths(before, h) + LengthOfField(fs[i], h, d)
    ensures forall h {:trigger LengthsIn(accs, after, fs, i + 1, d, h)} :: LengthsIn(accs, after, fs, i + 1, d, h)
  {
    forall h {:trigger LengthsIn(accs, after, fs, i + 1, d, h)}
      ensures LengthsIn(accs, after, fs, i + 1, d, h)
    {
      assert LengthsIn(accs, before, fs, i, d, h);
      CollectStep(AccumulatedLengths(accs, h), i, LengthAt(fs, h, d));
      NamedStep(fs, i, h);
      assert h in after.Keys <==> h in before.Keys || h == fs[i].hash;
    }
  }

  lemma CollectStep<X>(before: seq<X>, i: nat, f: nat -> seq<X>)
    ensures before + Collect(i, f) + f(i) == before + Collect(i + 1, f)
  {
  }

  lemma NamedStep(fs: seq<FieldDefinition>, i: nat, h: uint64)
    requires i < |fs|
    ensures FieldNamed(fs, i + 1, h) <==> FieldNamed(fs, i, h) || h == fs[i].hash
  {
    assert fs[i].hash == h ==> FieldNamed(fs, i + 1, h);
  }

  /** The accumulators hold exactly what the first `n` documents define. */
  ghost predicate Accumulated(accs: Accumulators, docs: seq<Document>, n: nat) {
    && AccumulatorsOk(accs)
    && (forall h :: h in accs <==> Named(docs, n, h))
    && (forall h, v :: AccumulatedEntries(accs, h, v) == Collect(n, DocumentAt(docs, h, v)))
    && (forall h :: AccumulatedLengths(accs, h) == Collect(n, LengthsAt(docs, h)))
  }

  lemma DocumentAdded(before: Accumulators, after: Accumulators, docs: seq<Document>, d: nat)
    requires d < |docs| < MaxDocuments && Accumulated(before, docs, d)
    requires FieldsIn(before, after, docs[d].fields, |docs[d].fields|, d)
    ensures Accumulated(after, docs, d + 1)
  {
    var fs := docs[d].fields;
    forall h, v
      ensures AccumulatedEntries(after, h, v) == Collect(d + 1, DocumentAt(docs, h, v))
    {
      assert EntriesIn(before, after, fs, |fs|, d, h, v);
      assert DocumentAt(docs, h, v)(d) == OfDocument(docs[d], h, v, d);
    }
    forall h
      ensures AccumulatedLengths(after, h) == Collect(d + 1, LengthsAt(docs, h))
      ensures h in after <==> Named(docs, d + 1, h)
    {
      assert LengthsIn(before, after, fs, |fs|, d, h);
      assert LengthsAt(docs, h)(d) == LengthOfDocument(docs[d], h, d);
    }
  }

  /** The outer loop of `BuildFrom`: document ids, accumulators and the size counted so far. */
  method AddDocuments(docs: seq<Document>, size: nat) returns (ids: seq<RawValue>, accs: Accumulators, size': nat)
    requires AllDefined(docs)
    ensures ids == Ids(docs) && Accumulated(accs, docs, |docs|)
    ensures size' == size + DocumentIdSize * |docs| + AccumulatorsSize(accs)
  {
    ids, accs, size' := [], map[], size;
    for d := 0 to |docs|
      invariant ids == Ids(docs)[..d] && Accumulated(accs, docs, d)
      invariant size' == size + DocumentIdSize * d + AccumulatorsSize(accs)
    {
      ghost var before := accs;
      ids := ids + [docs[d].id];
      size' := size' + DocumentIdSize;
      assert Defined(docs[d]);
      accs, size' := AddDocument(accs, docs[d], d, size');
      DocumentAdded(before, accs, docs, d);
    }
  }
}
