/**
 query/bm5_acc_scalar.go, the reads of the accumulator: eight documents at a time, from the last to the first, each
 search narrowed to what lies before the one found last, and the table cut behind the eighth. Every candidate on a list
 has a frequency; it need not have a length, and what is read then is what the search ends at.
 */
module Lookups {
  import opened Headers
  import opened Bitmaps

  ghost predicate HasFrequency(s: seq<TokenFrequencyEntry>, d: uint32, n: nat) {
    exists i :: 0 <= i < n && i < |s| && s[i].documentIndex == d
  }

  ghost predicate HasLength(s: seq<DocumentLengthEntry>, d: uint32, n: nat) {
    exists i :: 0 <= i < n && i < |s| && s[i].index == d
  }

  /** The frequency of a document, looked up in the whole table. */
  ghost function Tf(s: seq<TokenFrequencyEntry>, d: uint32): uint32 {
    if HasFrequency(s, d, |s|) then
      var i :| 0 <= i < |s| && s[i].documentIndex == d;
      s[i].frequency
    else 0
  }

  /** The length of a document, looked up in the whole table. */
  ghost function Dl(s: seq<DocumentLengthEntry>, d: uint32): uint32 {
    if HasLength(s, d, |s|) then
      var i :| 0 <= i < |s| && s[i].index == d;
      s[i].length
    else 0
  }

  lemma TfAt(s: seq<TokenFrequencyEntry>, d: uint32, i: nat)
    requires FreqsAscending(s) && i < |s| && s[i].documentIndex == d
    ensures Tf(s, d) == s[i].frequency && HasFrequency(s, d, |s|)
  {
  }

  lemma DlAt(s: seq<DocumentLengthEntry>, d: uint32, i: nat)
    requires LengthsAscending(s) && i < |s| && s[i].index == d
    ensures Dl(s, d) == s[i].length && HasLength(s, d, |s|)
  {
  }

  /** A full ascending table over `n` documents has entry i at index i. */
  lemma {:induction false} DenseFrequencies(s: seq<TokenFrequencyEntry>, i: nat)
    requires FreqsAscending(s) && (forall j | 0 <= j < |s| :: s[j].documentIndex < |s|) && i < |s|
    ensures s[i].documentIndex == i
  {
    AtLeast(s, i);
    AtMostFromEnd(s, i);
  }

  lemma {:induction false} AtLeast(s: seq<TokenFrequencyEntry>, i: nat)
    requires FreqsAscending(s) && i < |s|
    ensures s[i].documentIndex >= i
  {
    if i > 0 {
      AtLeast(s, i - 1);
    }
  }

  lemma {:induction false} AtMostFromEnd(s: seq<TokenFrequencyEntry>, i: nat)
    requires FreqsAscending(s) && (forall j | 0 <= j < |s| :: s[j].documentIndex < |s|) && i < |s|
    ensures s[i].documentIndex <= i
    decreases |s| - i
  {
    if i < |s| - 1 {
      AtMostFromEnd(s, i + 1);
    }
  }

  lemma {:induction false} LengthAtMost(s: seq<DocumentLengthEntry>, i: nat)
    requires LengthsAscending(s) && (forall j | 0 <= j < |s| :: s[j].index < |s|) && i < |s|
    ensures s[i].index <= i
    decreases |s| - i
  {
    if i < |s| - 1 {
      LengthAtMost(s, i + 1);
    }
  }

  lemma DenseLengths(s: seq<DocumentLengthEntry>, i: nat)
    requires LengthsAscending(s) && (forall j | 0 <= j < |s| :: s[j].index < |s|) && i < |s|
    ensures s[i].index == i
  {
    LengthAtLeast(s, i);
    LengthAtMost(s, i);
  }

  /** The search over the first `n` entries, for a document that is among them. */
  method NarrowFrequencies(s: seq<TokenFrequencyEntry>, n: nat, d: uint32) returns (i: nat)
    requires FreqsAscending(s) && n <= |s| && HasFrequency(s, d, n)
    ensures i < n && s[i].documentIndex == d
  {
    var found;
    i, found := SearchFrequencies(s[..n], d);
    ghost var p :| 0 <= p < n && s[p].documentIndex == d;
    assert s[..n][p] == s[p];
    assert TokenFrequencyEntry(d, s[p].frequency) in s[..n];
  }

  /** A smaller document lies before the position that was found. */
  lemma FrequencyBefore(s: seq<TokenFrequencyEntry>, d: uint32, e: uint32, i: nat)
    requires FreqsAscending(s) && HasFrequency(s, d, |s|) && d < e && i < |s| && s[i].documentIndex == e
    ensures HasFrequency(s, d, i)
  {
    var p :| 0 <= p < |s| && s[p].documentIndex == d;
    assert p < i;
  }

  method NextFrequency(s: seq<TokenFrequencyEntry>, n: nat, d: uint32, ghost e: uint32) returns (i: nat)
    requires FreqsAscending(s) && n < |s| && s[n].documentIndex == e && d < e && HasFrequency(s, d, |s|)
    ensures i < n && s[i].documentIndex == d && s[i].frequency == Tf(s, d)
  {
    FrequencyBefore(s, d, e, n);
    i := NarrowFrequencies(s, n, d);
    TfAt(s, d, i);
  }

  /** Eight ascending documents, all in the table. */
  ghost predicate InFrequencies(s: seq<TokenFrequencyEntry>, docs: seq<uint32>) {
    && (forall k, l | 0 <= k < l < |docs| :: docs[k] < docs[l])
    && (forall k | 0 <= k < |docs| :: HasFrequency(s, docs[k], |s|))
  }

  /** The cascade over the frequencies: each search is confined to what lies before the last one. */
  method CascadeFrequencies(s: seq<TokenFrequencyEntry>, docs: seq<uint32>)
      returns (tf: seq<uint32>, rest: seq<TokenFrequencyEntry>, ghost last: nat)
    requires FreqsAscending(s) && |docs| == 8 && InFrequencies(s, docs)
    ensures |tf| == 8 && forall k | 0 <= k < 8 :: tf[k] == Tf(s, docs[k])
    ensures last < |s| && s[last].documentIndex == docs[7] && rest == s[1 + last..]
  {
    assert docs[0] < docs[1] < docs[2] < docs[3] < docs[4] < docs[5] < docs[6] < docs[7];
    var freqIdx8 := NarrowFrequencies(s, |s|, docs[7]);
    TfAt(s, docs[7], freqIdx8);
    var freqIdx7 := NextFrequency(s, freqIdx8, docs[6], docs[7]);
    var freqIdx6 := NextFrequency(s, freqIdx7, docs[5], docs[6]);
    var freqIdx5 := NextFrequency(s, freqIdx6, docs[4], docs[5]);
    var freqIdx4 := NextFrequency(s, freqIdx5, docs[3], docs[4]);
    var freqIdx3 := NextFrequency(s, freqIdx4, docs[2], docs[3]);
    var freqIdx2 := NextFrequency(s, freqIdx3, docs[1], docs[2]);
    var freqIdx1 := NextFrequency(s, freqIdx2, docs[0], docs[1]);
    tf := [s[freqIdx1].frequency, s[freqIdx2].frequency, s[freqIdx3].frequency, s[freqIdx4].frequency,
           s[freqIdx5].frequency, s[freqIdx6].frequency, s[freqIdx7].frequency, s[freqIdx8].frequency];
    last := freqIdx8;
    rest := s[1 + freqIdx8..];
  }

  /** A later document is found in the rest of the table as in the whole. */
  lemma FrequencyBehind(s: seq<TokenFrequencyEntry>, last: nat, d: uint32)
    requires FreqsAscending(s) && last < |s| && s[last].documentIndex < d && HasFrequency(s, d, |s|)
    ensures var rest := s[1 + last..];
            FreqsAscending(rest) && HasFrequency(rest, d, |rest|) && Tf(rest, d) == Tf(s, d)
  {
    var rest := s[1 + last..];
    var p :| 0 <= p < |s| && s[p].documentIndex == d;
    assert last < p && rest[p - 1 - last] == s[p];
    TfAt(s, d, p);
    TfAt(rest, d, p - 1 - last);
  }

  /** Where a search for a document ends: at the first of the first `n` entries that is not below it. */
  ghost function LowerBound(s: seq<DocumentLengthEntry>, d: uint32, n: nat): (i: nat)
    requires n <= |s|
    ensures i <= n
  {
    if n == 0 || s[n - 1].index < d then n else LowerBound(s, d, n - 1)
  }

  ghost predicate EndsAt(s: seq<DocumentLengthEntry>, d: uint32, n: nat, i: nat)
    requires n <= |s|
  {
    i <= n && (forall l | 0 <= l < i :: s[l].index < d) && forall l | i <= l < n :: s[l].index >= d
  }

  lemma {:induction false} SearchEnds(s: seq<DocumentLengthEntry>, d: uint32, n: nat)
    requires LengthsAscending(s) && n <= |s|
    ensures EndsAt(s, d, n, LowerBound(s, d, n))
  {
    if n > 0 && s[n - 1].index >= d {
      SearchEnds(s, d, n - 1);
    }
  }

  lemma EndsOnce(s: seq<DocumentLengthEntry>, d: uint32, n: nat, i: nat)
    requires LengthsAscending(s) && n <= |s| && EndsAt(s, d, n, i)
    ensures i == LowerBound(s, d, n)
  {
    SearchEnds(s, d, n);
    NotBefore(s, d, n, i, LowerBound(s, d, n));
    NotBefore(s, d, n, LowerBound(s, d, n), i);
  }

  lemma NotBefore(s: seq<DocumentLengthEntry>, d: uint32, n: nat, i: nat, j: nat)
    requires n <= |s| && EndsAt(s, d, n, i) && EndsAt(s, d, n, j)
    ensures i <= j
  {
    assert j == n || s[j].index >= d;
  }

  /** How many documents are read before the block of document k, or before k itself behind the last block. */
  ghost function ReadBefore(n: nat, k: nat): (b: nat)
    ensures b <= k
  {
    if k < n - n % 8 then k - k % 8 else k
  }

  /** How many entries are cut off once the first `i` documents are read. */
  ghost function CutAt(ls: seq<DocumentLengthEntry>, docs: seq<uint32>, i: nat): nat
    requires i <= |docs|
    decreases i, 0
  {
    if i == 0 then 0 else 1 + ReadAt(ls, docs, i - 1)
  }

  /** The entry that is read for document k: where its search ends, in what has not been cut off. */
  ghost function ReadAt(ls: seq<DocumentLengthEntry>, docs: seq<uint32>, k: nat): nat
    requires k < |docs|
    decreases k, 1
  {
    var c, p := CutAt(ls, docs, ReadBefore(|docs|, k)), LowerBound(ls, docs[k], |ls|);
    if c < p then p else c
  }

  /** Some entry is there to be read for document k. */
  ghost predicate ReadsSome(ls: seq<DocumentLengthEntry>, docs: seq<uint32>, k: nat) {
    k < |docs| && ReadAt(ls, docs, k) < |ls|
  }

  /** And for each of the first `i` documents. */
  ghost predicate ReadableTo(ls: seq<DocumentLengthEntry>, docs: seq<uint32>, i: nat)
    requires i <= |docs|
  {
    forall k: nat {:trigger ReadsSome(ls, docs, k)} | k < i :: ReadsSome(ls, docs, k)
  }

  ghost predicate Readable(ls: seq<DocumentLengthEntry>, docs: seq<uint32>) {
    ReadableTo(ls, docs, |docs|)
  }

  ghost function LengthRead(ls: seq<DocumentLengthEntry>, docs: seq<uint32>, k: nat): uint32
    requires k < |docs|
  {
    if ReadAt(ls, docs, k) < |ls| then ls[ReadAt(ls, docs, k)].length else 0
  }

  /** The length that is read for a document. */
  ghost function Reads(ls: seq<DocumentLengthEntry>, docs: seq<uint32>): uint32 -> uint32 {
    (d: uint32) => if d in docs then var k: nat :| k < |docs| && docs[k] == d; LengthRead(ls, docs, k) else 0
  }

  lemma ReadsOf(ls: seq<DocumentLengthEntry>, docs: seq<uint32>, k: nat)
    requires Ascending(docs) && k < |docs|
    ensures Reads(ls, docs)(docs[k]) == LengthRead(ls, docs, k)
  {
  }

  /** What a search finds in the rest of a table. */
  lemma SearchBehind(ls: seq<DocumentLengthEntry>, c: nat, d: uint32)
    requires LengthsAscending(ls) && c <= |ls|
    ensures var p := LowerBound(ls, d, |ls|);
            LengthsAscending(ls[c..])
            && c + LowerBound(ls[c..], d, |ls[c..]|) == if c < p then p else c
  {
    var p, s := LowerBound(ls, d, |ls|), ls[c..];
    SearchEnds(ls, d, |ls|);
    EndsOnce(s, d, |s|, if c < p then p - c else 0);
  }

  method NarrowLengths(s: seq<DocumentLengthEntry>, n: nat, d: uint32) returns (i: nat)
    requires LengthsAscending(s) && n <= |s|
    ensures i == LowerBound(s, d, n)
  {
    var found;
    i, found := SearchLengths(s[..n], d);
    EndsOnce(s, d, n, i);
  }

  /** A search for a smaller document, confined to what lies before the place the last one ended at. */
  method NextLength(s: seq<DocumentLengthEntry>, n: nat, d: uint32, ghost e: uint32) returns (i: nat)
    requires LengthsAscending(s) && n == LowerBound(s, e, |s|) && d < e
    ensures i == LowerBound(s, d, |s|) <= n
  {
    SearchEnds(s, e, |s|);
    i := NarrowLengths(s, n, d);
    SearchEnds(s, d, n);
    EndsOnce(s, d, |s|, i);
  }

  /** The cascade over the lengths; nothing when a search ends behind the table, where Go panics. */
  method CascadeLengths(s: seq<DocumentLengthEntry>, docs: seq<uint32>)
      returns (ok: bool, dl: seq<uint32>, rest: seq<DocumentLengthEntry>)
    requires LengthsAscending(s) && |docs| == 8 && Ascending(docs)
    ensures forall k | 0 <= k < 8 :: LowerBound(s, docs[k], |s|) <= LowerBound(s, docs[7], |s|)
    ensures ok <==> LowerBound(s, docs[7], |s|) < |s|
    ensures ok ==> |dl| == 8 && forall k | 0 <= k < 8 :: dl[k] == s[LowerBound(s, docs[k], |s|)].length
    ensures ok ==> rest == s[1 + LowerBound(s, docs[7], |s|)..]
  {
    assert docs[0] < docs[1] < docs[2] < docs[3] < docs[4] < docs[5] < docs[6] < docs[7];
    dl, rest := [], s;
    var docLengthIdx8 := NarrowLengths(s, |s|, docs[7]);
    var docLengthIdx7 := NextLength(s, docLengthIdx8, docs[6], docs[7]);
    var docLengthIdx6 := NextLength(s, docLengthIdx7, docs[5], docs[6]);
    var docLengthIdx5 := NextLength(s, docLengthIdx6, docs[4], docs[5]);
    var docLengthIdx4 := NextLength(s, docLengthIdx5, docs[3], docs[4]);
    var docLengthIdx3 := NextLength(s, docLengthIdx4, docs[2], docs[3]);
    var docLengthIdx2 := NextLength(s, docLengthIdx3, docs[1], docs[2]);
    var docLengthIdx1 := NextLength(s, docLengthIdx2, docs[0], docs[1]);
    ok := docLengthIdx8 < |s|;
    if ok {
      dl := [s[docLengthIdx1].length, s[docLengthIdx2].length, s[docLengthIdx3].length, s[docLengthIdx4].length,
             s[docLengthIdx5].length, s[docLengthIdx6].length, s[docLengthIdx7].length, s[docLengthIdx8].length];
      rest := s[1 + docLengthIdx8..];
    }
  }

  lemma FoundAt(ls: seq<DocumentLengthEntry>, d: uint32)
    requires LengthsAscending(ls)
    ensures var p := LowerBound(ls, d, |ls|); HasLength(ls, d, |ls|) <==> p < |ls| && ls[p].index == d
  {
    SearchEnds(ls, d, |ls|);
    if HasLength(ls, d, |ls|) {
      var i :| 0 <= i < |ls| && ls[i].index == d;
      assert LowerBound(ls, d, |ls|) <= i;
    }
  }

  /** As long as every document has a length, each reads its own entry. */
  lemma {:induction false} OwnIsRead(ls: seq<DocumentLengthEntry>, docs: seq<uint32>, k: nat)
    requires LengthsAscending(ls) && Ascending(docs) && k < |docs|
    requires forall l | 0 <= l <= k :: HasLength(ls, docs[l], |ls|)
    ensures ReadAt(ls, docs, k) == LowerBound(ls, docs[k], |ls|) < |ls| && ls[ReadAt(ls, docs, k)].index == docs[k]
    decreases k
  {
    FoundAt(ls, docs[k]);
    var b := ReadBefore(|docs|, k);
    if b > 0 {
      OwnIsRead(ls, docs, b - 1);
      assert docs[b - 1] < docs[k];
      assert ReadAt(ls, docs, b - 1) < LowerBound(ls, docs[k], |ls|);
    }
  }

  /** Document k reads its own entry. */
  ghost predicate ReadsOwn(ls: seq<DocumentLengthEntry>, docs: seq<uint32>, k: nat) {
    ReadsSome(ls, docs, k) && ls[ReadAt(ls, docs, k)].index == docs[k]
  }

  /** Every document reads its own entry, exactly when every document has one. */
  lemma OwnAreRead(ls: seq<DocumentLengthEntry>, docs: seq<uint32>)
    requires LengthsAscending(ls) && Ascending(docs)
    ensures (forall k: nat {:trigger ReadsOwn(ls, docs, k)} | k < |docs| :: ReadsOwn(ls, docs, k))
            <==> forall k: nat | k < |docs| :: HasLength(ls, docs[k], |ls|)
  {
    if forall k: nat | k < |docs| :: HasLength(ls, docs[k], |ls|) {
      forall k: nat | k < |docs|
        ensures ReadsOwn(ls, docs, k)
      {
        OwnIsRead(ls, docs, k);
      }
    } else {
      var k: nat :| k < |docs| && !HasLength(ls, docs[k], |ls|);
      assert !ReadsOwn(ls, docs, k);
    }
  }

  /** A document without a length reads that of a later one, or there is nothing left to read. */
  lemma NeighbourIsRead(ls: seq<DocumentLengthEntry>, docs: seq<uint32>, k: nat)
    requires LengthsAscending(ls) && k < |docs| && !HasLength(ls, docs[k], |ls|)
    ensures ReadAt(ls, docs, k) < |ls| ==> ls[ReadAt(ls, docs, k)].index > docs[k]
  {
    SearchEnds(ls, docs[k], |ls|);
  }
}
