/**
 query/bm5_acc_scalar.go and query/searcher_bm25_fallback.go: BM25 over the candidates. A score is the list of the
 summands added to it, so that the fast reads and the order of summation can be compared with a plain lookup.
 */
module BM25 {
  import opened Bytes
  import opened Collecting
  import opened Headers
  import opened Bitmaps
  import opened Tables
  import opened Totals
  import opened Automata
  import opened Ranges
  import opened Clauses
  import opened Filtering
  import opened QueryContexts
  import opened FieldScoring
  import opened Lookups

  /** What is added to document `d`, whose length is read as `dl(d)`. */
  ghost function Term(weight: real, avg: uint32, fs: seq<TokenFrequencyEntry>, dl: uint32 -> uint32, d: uint32)
      : Contribution {
    Weighted(weight, avg, Tf(fs, d), dl(d))
  }

  ghost function Terms(weight: real, avg: uint32, fs: seq<TokenFrequencyEntry>, dl: uint32 -> uint32, docs: seq<uint32>)
      : uint32 -> seq<Contribution> {
    (d: uint32) => if d in docs then [Term(weight, avg, fs, dl, d)] else []
  }

  /** What is left of a frequency table once the first `i` documents are read: all of it when it is dense. */
  ghost predicate FrequenciesLeft(s: seq<TokenFrequencyEntry>, full: seq<TokenFrequencyEntry>, dense: bool,
                                  docs: seq<uint32>, i: nat) {
    && FreqsAscending(s) && Ascending(docs)
    && (dense ==> s == full && (forall j | 0 <= j < |s| :: s[j].documentIndex < |s|))
    && forall k: nat {:trigger FrequencyLeft(s, full, docs, k)} | i <= k < |docs| :: FrequencyLeft(s, full, docs, k)
  }

  ghost predicate FrequencyLeft(s: seq<TokenFrequencyEntry>, full: seq<TokenFrequencyEntry>, docs: seq<uint32>, k: nat)
    requires k < |docs|
  {
    HasFrequency(s, docs[k], |s|) && Tf(s, docs[k]) == Tf(full, docs[k])
  }

  /** And of a length table, of which every read cuts something off. */
  ghost predicate LengthsLeft(s: seq<DocumentLengthEntry>, full: seq<DocumentLengthEntry>, dense: bool,
                              docs: seq<uint32>, i: nat) {
    && LengthsAscending(full) && Ascending(docs) && i <= |docs|
    && if dense then s == full && (forall j | 0 <= j < |s| :: s[j].index < |s|) && InTable(full, docs)
       else CutAt(full, docs, i) <= |full| && s == full[CutAt(full, docs, i)..]
  }

  ghost predicate InTable(full: seq<DocumentLengthEntry>, docs: seq<uint32>) {
    forall k | 0 <= k < |docs| :: docs[k] < |full|
  }

  lemma DenseFrequency(s: seq<TokenFrequencyEntry>, d: uint32)
    requires FreqsAscending(s) && (forall j | 0 <= j < |s| :: s[j].documentIndex < |s|) && HasFrequency(s, d, |s|)
    ensures d < |s| && s[d].frequency == Tf(s, d)
  {
    DenseFrequencies(s, d);
    TfAt(s, d, d);
  }

  /** In a dense table every document reads its own entry. */
  lemma DenseLength(full: seq<DocumentLengthEntry>, docs: seq<uint32>, k: nat)
    requires LengthsLeft(full, full, true, docs, k) && k < |docs|
    ensures ReadAt(full, docs, k) == docs[k] < |full|
  {
    forall l | 0 <= l <= k
      ensures HasLength(full, docs[l], |full|)
    {
      DenseLengths(full, docs[l]);
    }
    OwnIsRead(full, docs, k);
    DenseLengths(full, ReadAt(full, docs, k));
  }

  /** The frequency of one document: indexed when dense, searched and cut off otherwise. */
  method ReadFrequency(s: seq<TokenFrequencyEntry>, dense: bool, docs: seq<uint32>, i: nat,
                       ghost full: seq<TokenFrequencyEntry>)
      returns (tf: uint32, rest: seq<TokenFrequencyEntry>)
    requires FrequenciesLeft(s, full, dense, docs, i) && i < |docs|
    ensures tf == Tf(full, docs[i]) && FrequenciesLeft(rest, full, dense, docs, i + 1)
  {
    assert FrequencyLeft(s, full, docs, i);
    if dense {
      DenseFrequency(s, docs[i]);
      return s[docs[i]].frequency, s;
    }
    var freqIdx := NarrowFrequencies(s, |s|, docs[i]);
    TfAt(s, docs[i], freqIdx);
    tf, rest := s[freqIdx].frequency, s[1 + freqIdx..];
    FrequenciesCut(s, full, docs, i, i, freqIdx);
  }

  lemma FrequenciesCut(s: seq<TokenFrequencyEntry>, full: seq<TokenFrequencyEntry>, docs: seq<uint32>, i: nat, j: nat,
                       last: nat)
    requires FrequenciesLeft(s, full, false, docs, i) && i <= j < |docs| && last < |s|
    requires s[last].documentIndex == docs[j]
    ensures FrequenciesLeft(s[1 + last..], full, false, docs, j + 1)
  {
    forall k: nat {:trigger FrequencyLeft(s[1 + last..], full, docs, k)} | j < k < |docs|
      ensures FrequencyLeft(s[1 + last..], full, docs, k)
    {
      assert FrequencyLeft(s, full, docs, k);
      FrequencyBehind(s, last, docs[k]);
    }
  }

  /** The length of one document behind the last block; nothing when there is none to read, where Go panics. */
  method ReadLength(s: seq<DocumentLengthEntry>, dense: bool, docs: seq<uint32>, i: nat,
                    ghost full: seq<DocumentLengthEntry>)
      returns (ok: bool, dl: uint32, rest: seq<DocumentLengthEntry>)
    requires LengthsLeft(s, full, dense, docs, i) && i < |docs| && ReadBefore(|docs|, i) == i
    ensures ok <==> ReadsSome(full, docs, i)
    ensures ok ==> dl == LengthRead(full, docs, i) && LengthsLeft(rest, full, dense, docs, i + 1)
  {
    if dense {
      DenseLength(full, docs, i);
      return true, s[docs[i]].length, s;
    }
    SearchBehind(full, CutAt(full, docs, i), docs[i]);
    var docLengthIdx := NarrowLengths(s, |s|, docs[i]);
    if docLengthIdx == |s| {
      return false, 0, s;
    }
    ok, dl, rest := true, s[docLengthIdx].length, s[1 + docLengthIdx..];
  }

  lemma EightLeft(s: seq<TokenFrequencyEntry>, full: seq<TokenFrequencyEntry>, docs: seq<uint32>, i: nat,
                  eight: seq<uint32>)
    requires FrequenciesLeft(s, full, false, docs, i) && i + 8 <= |docs| && eight == docs[i..i + 8]
    ensures InFrequencies(s, eight) && forall k | 0 <= k < 8 :: Tf(s, eight[k]) == Tf(full, eight[k])
  {
    forall k | 0 <= k < 8
      ensures HasFrequency(s, eight[k], |s|) && Tf(s, eight[k]) == Tf(full, eight[k])
    {
      assert eight[k] == docs[i + k];
      assert FrequencyLeft(s, full, docs, i + k);
    }
  }

  /** Eight frequencies at once. */
  method ReadFrequencies(s: seq<TokenFrequencyEntry>, dense: bool, docs: seq<uint32>, i: nat,
                         ghost full: seq<TokenFrequencyEntry>)
      returns (tf: seq<uint32>, rest: seq<TokenFrequencyEntry>)
    requires FrequenciesLeft(s, full, dense, docs, i) && i + 8 <= |docs|
    ensures |tf| == 8 && (forall k | 0 <= k < 8 :: tf[k] == Tf(full, docs[i + k]))
    ensures FrequenciesLeft(rest, full, dense, docs, i + 8)
  {
    if dense {
      tf := DenseFrequencies8(s, docs, i);
      rest := s;
    } else {
      ghost var last;
      var eight := docs[i..i + 8];
      EightLeft(s, full, docs, i, eight);
      assert forall k | 0 <= k < 8 :: eight[k] == docs[i + k];
      tf, rest, last := CascadeFrequencies(s, eight);
      FrequenciesCut(s, full, docs, i, i + 7, last);
    }
  }

  method DenseFrequencies8(s: seq<TokenFrequencyEntry>, docs: seq<uint32>, i: nat) returns (tf: seq<uint32>)
    requires FrequenciesLeft(s, s, true, docs, i) && i + 8 <= |docs|
    ensures |tf| == 8 && forall k | 0 <= k < 8 :: tf[k] == Tf(s, docs[i + k])
  {
    forall k: nat | i <= k < i + 8
      ensures docs[k] < |s| && s[docs[k]].frequency == Tf(s, docs[k])
    {
      assert FrequencyLeft(s, s, docs, k);
      DenseFrequency(s, docs[k]);
    }
    tf := [s[docs[i]].frequency, s[docs[i + 1]].frequency, s[docs[i + 2]].frequency, s[docs[i + 3]].frequency,
           s[docs[i + 4]].frequency, s[docs[i + 5]].frequency, s[docs[i + 6]].frequency, s[docs[i + 7]].frequency];
  }

  /** In a block, every search starts from what the blocks before have left. */
  lemma BlockReads(full: seq<DocumentLengthEntry>, docs: seq<uint32>, i: nat, k: nat)
    requires LengthsAscending(full) && i % 8 == 0 && i <= k < i + 8 <= |docs| && CutAt(full, docs, i) <= |full|
    ensures var c := CutAt(full, docs, i);
            ReadAt(full, docs, k) == c + LowerBound(full[c..], docs[k], |full[c..]|)
  {
    InBlock(|docs|, i, k);
    SearchBehind(full, CutAt(full, docs, i), docs[k]);
  }

  lemma InBlock(n: nat, i: nat, k: nat)
    requires i % 8 == 0 && i <= k < i + 8 <= n
    ensures ReadBefore(n, k) == i
  {
  }

  /** Eight lengths at once. */
  method ReadLengths(s: seq<DocumentLengthEntry>, dense: bool, docs: seq<uint32>, i: nat,
                     ghost full: seq<DocumentLengthEntry>)
      returns (ok: bool, dl: seq<uint32>, rest: seq<DocumentLengthEntry>)
    requires LengthsLeft(s, full, dense, docs, i) && i + 8 <= |docs| && i % 8 == 0
    ensures ok <==> forall k: nat {:trigger ReadsSome(full, docs, k)} | i <= k < i + 8 :: ReadsSome(full, docs, k)
    ensures ok ==> |dl| == 8 && (forall k | 0 <= k < 8 :: dl[k] == LengthRead(full, docs, i + k))
    ensures ok ==> LengthsLeft(rest, full, dense, docs, i + 8)
  {
    if dense {
      dl := DenseLengths8(s, docs, i);
      ok, rest := true, s;
    } else {
      ok, dl, rest := SparseLengths8(s, docs, i, full);
    }
  }

  method DenseLengths8(s: seq<DocumentLengthEntry>, docs: seq<uint32>, i: nat) returns (dl: seq<uint32>)
    requires LengthsLeft(s, s, true, docs, i) && i + 8 <= |docs|
    ensures forall k: nat {:trigger ReadsSome(s, docs, k)} | i <= k < i + 8 :: ReadsSome(s, docs, k)
    ensures |dl| == 8 && forall k | 0 <= k < 8 :: dl[k] == LengthRead(s, docs, i + k)
  {
    forall k | i <= k < i + 8
      ensures docs[k] == ReadAt(s, docs, k) < |s| && s[docs[k]].length == LengthRead(s, docs, k)
    {
      DenseLength(s, docs, k);
    }
    dl := [s[docs[i]].length, s[docs[i + 1]].length, s[docs[i + 2]].length, s[docs[i + 3]].length,
           s[docs[i + 4]].length, s[docs[i + 5]].length, s[docs[i + 6]].length, s[docs[i + 7]].length];
  }

  method SparseLengths8(s: seq<DocumentLengthEntry>, docs: seq<uint32>, i: nat, ghost full: seq<DocumentLengthEntry>)
      returns (ok: bool, dl: seq<uint32>, rest: seq<DocumentLengthEntry>)
    requires LengthsLeft(s, full, false, docs, i) && i + 8 <= |docs| && i % 8 == 0
    ensures ok <==> forall k: nat {:trigger ReadsSome(full, docs, k)} | i <= k < i + 8 :: ReadsSome(full, docs, k)
    ensures ok ==> |dl| == 8 && (forall k | 0 <= k < 8 :: dl[k] == LengthRead(full, docs, i + k))
    ensures ok ==> LengthsLeft(rest, full, false, docs, i + 8)
  {
    var eight := docs[i..i + 8];
    BlockOfEight(s, full, docs, i, eight);
    ok, dl, rest := CascadeLengths(s, eight);
    BlockReadable(s, full, docs, i, eight);
    if ok {
      EightLengths(s, full, docs, i, eight, dl);
      RestOfBlock(s, full, docs, i, eight);
    }
  }

  /** Where the searches of a block end, in the full table. */
  ghost predicate EightAt(s: seq<DocumentLengthEntry>, full: seq<DocumentLengthEntry>, docs: seq<uint32>, i: nat,
                          eight: seq<uint32>) {
    && i + 8 <= |docs| && |eight| == 8 && CutAt(full, docs, i) <= |full| && s == full[CutAt(full, docs, i)..]
    && forall k {:trigger eight[k]} | 0 <= k < 8 ::
         ReadAt(full, docs, i + k) == CutAt(full, docs, i) + LowerBound(s, eight[k], |s|)
  }

  lemma BlockOfEight(s: seq<DocumentLengthEntry>, full: seq<DocumentLengthEntry>, docs: seq<uint32>, i: nat,
                     eight: seq<uint32>)
    requires LengthsLeft(s, full, false, docs, i) && i + 8 <= |docs| && i % 8 == 0 && eight == docs[i..i + 8]
    ensures Ascending(eight) && LengthsAscending(s) && EightAt(s, full, docs, i, eight)
  {
    forall k {:trigger eight[k]} | 0 <= k < 8
      ensures ReadAt(full, docs, i + k) == CutAt(full, docs, i) + LowerBound(s, eight[k], |s|)
    {
      assert eight[k] == docs[i + k];
      BlockReads(full, docs, i, i + k);
    }
  }

  lemma EightLengths(s: seq<DocumentLengthEntry>, full: seq<DocumentLengthEntry>, docs: seq<uint32>, i: nat,
                     eight: seq<uint32>, dl: seq<uint32>)
    requires EightAt(s, full, docs, i, eight) && |dl| == 8
    requires forall k | 0 <= k < 8 :: LowerBound(s, eight[k], |s|) <= LowerBound(s, eight[7], |s|) < |s|
    requires forall k | 0 <= k < 8 :: dl[k] == s[LowerBound(s, eight[k], |s|)].length
    ensures forall k | 0 <= k < 8 :: dl[k] == LengthRead(full, docs, i + k)
  {
    forall k | 0 <= k < 8
      ensures dl[k] == LengthRead(full, docs, i + k)
    {
      assert ReadAt(full, docs, i + k) == CutAt(full, docs, i) + LowerBound(s, eight[k], |s|);
    }
  }

  lemma RestOfBlock(s: seq<DocumentLengthEntry>, full: seq<DocumentLengthEntry>, docs: seq<uint32>, i: nat,
                    eight: seq<uint32>)
    requires EightAt(s, full, docs, i, eight) && LowerBound(s, eight[7], |s|) < |s|
    ensures CutAt(full, docs, i + 8) <= |full|
    ensures s[1 + LowerBound(s, eight[7], |s|)..] == full[CutAt(full, docs, i + 8)..]
  {
    assert ReadAt(full, docs, i + 7) == CutAt(full, docs, i) + LowerBound(s, eight[7], |s|);
  }

  /** In a block there is something to read for every document once there is for the last. */
  lemma BlockReadable(s: seq<DocumentLengthEntry>, full: seq<DocumentLengthEntry>, docs: seq<uint32>, i: nat,
                      eight: seq<uint32>)
    requires EightAt(s, full, docs, i, eight)
    requires forall k | 0 <= k < 8 :: LowerBound(s, eight[k], |s|) <= LowerBound(s, eight[7], |s|)
    ensures (forall k: nat {:trigger ReadsSome(full, docs, k)} | i <= k < i + 8 :: ReadsSome(full, docs, k))
            <==> LowerBound(s, eight[7], |s|) < |s|
  {
    assert ReadsSome(full, docs, i + 7) <==> LowerBound(s, eight[7], |s|) < |s|;
    if LowerBound(s, eight[7], |s|) < |s| {
      forall k: nat | i <= k < i + 8
        ensures ReadsSome(full, docs, k)
      {
        assert ReadAt(full, docs, i + (k - i)) == CutAt(full, docs, i) + LowerBound(s, eight[k - i], |s|);
      }
    }
  }

  /** One more summand for one document. */
  lemma GrownByOne(before: seq<Score>, now: seq<Score>, f: uint32 -> seq<Contribution>, g: uint32 -> seq<Contribution>,
                   d: uint32, c: Contribution, p: nat)
    requires Ordered(now) && Grown(before, now, f) && At(now, d, p) && f(d) == []
    requires forall x :: g(x) == if x == d then [c] else f(x)
    ensures Grown(before, now[p := Score(d, now[p].trail + [c])], g)
  {
    var after := now[p := Score(d, now[p].trail + [c])];
    forall i: nat | i < |before|
      ensures GrownAt(before, after, g, i)
    {
      assert GrownAt(before, now, f, i);
      if i != p {
        assert now[i].index != d;
      }
    }
  }

  /** The first `j` documents have their summand of this token; `guess` is where the last of them was found. */
  ghost predicate Adding(before: seq<Score>, now: seq<Score>, b: Bitmap, docs: seq<uint32>, j: nat, guess: nat,
                         more: uint32 -> seq<Contribution>) {
    Over(now, b) && Guess(now, docs, j, guess) && Grown(before, now, more)
  }

  lemma TermsNext(weight: real, avg: uint32, fs: seq<TokenFrequencyEntry>, read: uint32 -> uint32,
                  docs: seq<uint32>, j: nat)
    requires Ascending(docs) && j < |docs|
    ensures Terms(weight, avg, fs, read, docs[..j])(docs[j]) == []
    ensures forall x :: Terms(weight, avg, fs, read, docs[..j + 1])(x)
                        == if x == docs[j] then [Term(weight, avg, fs, read, docs[j])]
                            else Terms(weight, avg, fs, read, docs[..j])(x)
  {
    assert docs[..j + 1] == docs[..j] + [docs[j]];
  }

  method AddTerm(ctx: QueryContext, docs: seq<uint32>, j: nat, guess: nat, weight: real, avg: uint32, tf: uint32,
                 dl: uint32, ghost before: seq<Score>, ghost fs: seq<TokenFrequencyEntry>,
                 ghost read: uint32 -> uint32)
      returns (guess': nat)
    requires Ascending(docs) && j < |docs| && docs[j] in ctx.bitmap && tf == Tf(fs, docs[j]) && dl == read(docs[j])
    requires Adding(before, ctx.scores, ctx.bitmap, docs, j, guess, Terms(weight, avg, fs, read, docs[..j]))
    modifies ctx`scores
    ensures Adding(before, ctx.scores, ctx.bitmap, docs, j + 1, guess', Terms(weight, avg, fs, read, docs[..j + 1]))
  {
    ghost var p := OverAt(ctx.scores, ctx.bitmap, docs[j]);
    GuessBelow(ctx.scores, docs, j, guess, p);
    ghost var c := Term(weight, avg, fs, read, docs[j]);
    TermsNext(weight, avg, fs, read, docs, j);
    GrownByOne(before, ctx.scores, Terms(weight, avg, fs, read, docs[..j]), Terms(weight, avg, fs, read, docs[..j + 1]),
               docs[j], c, p);
    OverUpdated(ctx.scores, ctx.bitmap, p, Score(docs[j], ctx.scores[p].trail + [c]));
    guess' := ctx.Add(guess, docs[j], Weighted(weight, avg, tf, dl), p);
  }

  lemma Inside(docs: seq<uint32>, b: Bitmap, k: nat)
    requires Elements(docs) <= b && k < |docs|
    ensures docs[k] in b
  {
    assert docs[k] in Elements(docs);
  }

  /** Eight documents, in order. */
  method AddTerms(ctx: QueryContext, docs: seq<uint32>, i: nat, guess: nat, weight: real, avg: uint32, tf: seq<uint32>,
                  dl: seq<uint32>, ghost before: seq<Score>, ghost fs: seq<TokenFrequencyEntry>,
                  ghost read: uint32 -> uint32)
      returns (guess': nat)
    requires Ascending(docs) && i + 8 <= |docs| && Elements(docs) <= ctx.bitmap
    requires |tf| == |dl| == 8
    requires forall k | 0 <= k < 8 :: tf[k] == Tf(fs, docs[i + k]) && dl[k] == read(docs[i + k])
    requires Adding(before, ctx.scores, ctx.bitmap, docs, i, guess, Terms(weight, avg, fs, read, docs[..i]))
    modifies ctx`scores
    ensures Adding(before, ctx.scores, ctx.bitmap, docs, i + 8, guess', Terms(weight, avg, fs, read, docs[..i + 8]))
  {
    guess' := guess;
    for k := 0 to 8
      invariant Adding(before, ctx.scores, ctx.bitmap, docs, i + k, guess', Terms(weight, avg, fs, read, docs[..i + k]))
    {
      Inside(docs, ctx.bitmap, i + k);
      guess' := AddTerm(ctx, docs, i + k, guess', weight, avg, tf[k], dl[k], before, fs, read);
    }
  }

  /** What the loops over one token still have to read, and that there was something to read so far. */
  ghost predicate TablesLeft(docs: seq<uint32>, i: nat, freqs: seq<TokenFrequencyEntry>, fs: seq<TokenFrequencyEntry>,
                             freqDense: bool, lengths: seq<DocumentLengthEntry>, ls: seq<DocumentLengthEntry>,
                             dlDense: bool) {
    && i <= |docs| && FrequenciesLeft(freqs, fs, freqDense, docs, i) && LengthsLeft(lengths, ls, dlDense, docs, i)
    && ReadableTo(ls, docs, i)
  }

  /** Where the loops over one token stand: everything up to document i is read and added. */
  ghost predicate Reading(before: seq<Score>, now: seq<Score>, b: Bitmap, docs: seq<uint32>, i: nat, guess: nat,
                          weight: real, avg: uint32, freqs: seq<TokenFrequencyEntry>, fs: seq<TokenFrequencyEntry>,
                          freqDense: bool, lengths: seq<DocumentLengthEntry>, ls: seq<DocumentLengthEntry>,
                          dlDense: bool) {
    && Ascending(docs) && Elements(docs) <= b
    && TablesLeft(docs, i, freqs, fs, freqDense, lengths, ls, dlDense)
    && Adding(before, now, b, docs, i, guess, Terms(weight, avg, fs, Reads(ls, docs), docs[..i]))
  }

  lemma EightReads(ls: seq<DocumentLengthEntry>, docs: seq<uint32>, i: nat, dl: seq<uint32>)
    requires Ascending(docs) && i + 8 <= |docs| && |dl| == 8
    requires forall k | 0 <= k < 8 :: dl[k] == LengthRead(ls, docs, i + k)
    ensures forall k | 0 <= k < 8 :: dl[k] == Reads(ls, docs)(docs[i + k])
  {
    forall k | 0 <= k < 8
      ensures dl[k] == Reads(ls, docs)(docs[i + k])
    {
      ReadsOf(ls, docs, i + k);
    }
  }

  lemma ReadableMore(ls: seq<DocumentLengthEntry>, docs: seq<uint32>, i: nat, j: nat)
    requires i <= j <= |docs| && ReadableTo(ls, docs, i)
    requires forall k: nat {:trigger ReadsSome(ls, docs, k)} | i <= k < j :: ReadsSome(ls, docs, k)
    ensures ReadableTo(ls, docs, j)
  {
  }

  method ReadEight(docs: seq<uint32>, i: nat, freqs: seq<TokenFrequencyEntry>, freqDense: bool,
                   lengths: seq<DocumentLengthEntry>, dlDense: bool, ghost fs: seq<TokenFrequencyEntry>,
                   ghost ls: seq<DocumentLengthEntry>)
      returns (ok: bool, tf: seq<uint32>, dl: seq<uint32>, freqs': seq<TokenFrequencyEntry>,
               lengths': seq<DocumentLengthEntry>)
    requires TablesLeft(docs, i, freqs, fs, freqDense, lengths, ls, dlDense) && i + 8 <= |docs| && i % 8 == 0
    ensures !ok ==> !Readable(ls, docs)
    ensures ok ==> TablesLeft(docs, i + 8, freqs', fs, freqDense, lengths', ls, dlDense) && |tf| == |dl| == 8
    ensures ok ==> forall k | 0 <= k < 8 :: tf[k] == Tf(fs, docs[i + k]) && dl[k] == Reads(ls, docs)(docs[i + k])
  {
    tf, freqs' := ReadFrequencies(freqs, freqDense, docs, i, fs);
    ok, dl, lengths' := ReadLengths(lengths, dlDense, docs, i, ls);
    if ok {
      EightReads(ls, docs, i, dl);
      ReadableMore(ls, docs, i, i + 8);
    }
  }

  method ReadOne(docs: seq<uint32>, i: nat, freqs: seq<TokenFrequencyEntry>, freqDense: bool,
                 lengths: seq<DocumentLengthEntry>, dlDense: bool, ghost fs: seq<TokenFrequencyEntry>,
                 ghost ls: seq<DocumentLengthEntry>)
      returns (ok: bool, tf: uint32, dl: uint32, freqs': seq<TokenFrequencyEntry>, lengths': seq<DocumentLengthEntry>)
    requires TablesLeft(docs, i, freqs, fs, freqDense, lengths, ls, dlDense) && i < |docs|
    requires ReadBefore(|docs|, i) == i
    ensures !ok ==> !Readable(ls, docs)
    ensures ok ==> TablesLeft(docs, i + 1, freqs', fs, freqDense, lengths', ls, dlDense)
    ensures ok ==> tf == Tf(fs, docs[i]) && dl == Reads(ls, docs)(docs[i])
  {
    tf, freqs' := ReadFrequency(freqs, freqDense, docs, i, fs);
    ok, dl, lengths' := ReadLength(lengths, dlDense, docs, i, ls);
    if ok {
      ReadsOf(ls, docs, i);
    }
  }

  method EightMore(ctx: QueryContext, docs: seq<uint32>, i: nat, guess: nat, weight: real, avg: uint32,
                   freqs: seq<TokenFrequencyEntry>, freqDense: bool, lengths: seq<DocumentLengthEntry>, dlDense: bool,
                   ghost before: seq<Score>, ghost fs: seq<TokenFrequencyEntry>, ghost ls: seq<DocumentLengthEntry>)
      returns (ok: bool, guess': nat, freqs': seq<TokenFrequencyEntry>, lengths': seq<DocumentLengthEntry>)
    requires Reading(before, ctx.scores, ctx.bitmap, docs, i, guess, weight, avg, freqs, fs, freqDense, lengths, ls,
                     dlDense)
    requires i + 8 <= |docs| && i % 8 == 0
    modifies ctx`scores
    ensures !ok ==> !Readable(ls, docs)
    ensures ok ==> Reading(before, ctx.scores, ctx.bitmap, docs, i + 8, guess', weight, avg, freqs', fs, freqDense,
                           lengths', ls, dlDense)
  {
    var tf, dl;
    guess' := guess;
    ok, tf, dl, freqs', lengths' := ReadEight(docs, i, freqs, freqDense, lengths, dlDense, fs, ls);
    if ok {
      guess' := AddTerms(ctx, docs, i, guess, weight, avg, tf, dl, before, fs, Reads(ls, docs));
    }
  }

  method OneMore(ctx: QueryContext, docs: seq<uint32>, i: nat, guess: nat, weight: real, avg: uint32,
                 freqs: seq<TokenFrequencyEntry>, freqDense: bool, lengths: seq<DocumentLengthEntry>, dlDense: bool,
                 ghost before: seq<Score>, ghost fs: seq<TokenFrequencyEntry>, ghost ls: seq<DocumentLengthEntry>)
      returns (ok: bool, guess': nat, freqs': seq<TokenFrequencyEntry>, lengths': seq<DocumentLengthEntry>)
    requires Reading(before, ctx.scores, ctx.bitmap, docs, i, guess, weight, avg, freqs, fs, freqDense, lengths, ls,
                     dlDense)
    requires i < |docs| && ReadBefore(|docs|, i) == i
    modifies ctx`scores
    ensures !ok ==> !Readable(ls, docs)
    ensures ok ==> Reading(before, ctx.scores, ctx.bitmap, docs, i + 1, guess', weight, avg, freqs', fs, freqDense,
                           lengths', ls, dlDense)
  {
    var tf, dl;
    guess' := guess;
    ok, tf, dl, freqs', lengths' := ReadOne(docs, i, freqs, freqDense, lengths, dlDense, fs, ls);
    if ok {
      Inside(docs, ctx.bitmap, i);
      guess' := AddTerm(ctx, docs, i, guess, weight, avg, tf, dl, before, fs, Reads(ls, docs));
    }
  }

  /** One token: eight documents at a time, then one at a time; not done when a length is missing, where Go panics. */
  method AccumulateToken(ctx: QueryContext, docs: seq<uint32>, weight: real, avg: uint32, fs: seq<TokenFrequencyEntry>,
                         freqDense: bool, ls: seq<DocumentLengthEntry>, dlDense: bool)
      returns (ok: bool)
    requires Over(ctx.scores, ctx.bitmap) && Ascending(docs) && Elements(docs) <= ctx.bitmap
    requires TablesLeft(docs, 0, fs, fs, freqDense, ls, ls, dlDense)
    modifies ctx`scores
    ensures ok <==> Readable(ls, docs)
    ensures ok ==> Over(ctx.scores, ctx.bitmap)
                   && Grown(old(ctx.scores), ctx.scores, Terms(weight, avg, fs, Reads(ls, docs), docs))
  {
    ghost var before := ctx.scores;
    NothingAdded(before, weight, avg, fs, Reads(ls, docs), docs);
    var guess, freqs, lengths;
    var blocks := |docs| / 8;
    ok, guess, freqs, lengths := AccumulateBlocks(ctx, docs, blocks, weight, avg, fs, freqDense, ls, dlDense, before);
    if ok {
      ok := AccumulateRest(ctx, docs, 8 * blocks, guess, weight, avg, freqs, freqDense, lengths, dlDense, before, fs,
                           ls);
    }
  }

  /** The first `blocks` times eight documents. */
  method AccumulateBlocks(ctx: QueryContext, docs: seq<uint32>, blocks: nat, weight: real, avg: uint32,
                          fs: seq<TokenFrequencyEntry>, freqDense: bool, ls: seq<DocumentLengthEntry>, dlDense: bool,
                          ghost before: seq<Score>)
      returns (ok: bool, guess: nat, freqs: seq<TokenFrequencyEntry>, lengths: seq<DocumentLengthEntry>)
    requires 8 * blocks <= |docs|
    requires Reading(before, ctx.scores, ctx.bitmap, docs, 0, 0, weight, avg, fs, fs, freqDense, ls, ls, dlDense)
    modifies ctx`scores
    ensures !ok ==> !Readable(ls, docs)
    ensures ok ==> Reading(before, ctx.scores, ctx.bitmap, docs, 8 * blocks, guess, weight, avg, freqs, fs, freqDense,
                           lengths, ls, dlDense)
  {
    var i := 0;
    freqs, lengths, guess, ok := fs, ls, 0, true;
    for k := 0 to blocks
      invariant i == 8 * k && i % 8 == 0
      invariant Reading(before, ctx.scores, ctx.bitmap, docs, i, guess, weight, avg, freqs, fs, freqDense, lengths, ls,
                        dlDense)
    {
      ok, guess, freqs, lengths :=
          EightMore(ctx, docs, i, guess, weight, avg, freqs, freqDense, lengths, dlDense, before, fs, ls);
      if !ok {
        return;
      }
      i := i + 8;
    }
    ok := true;
  }

  /** The documents behind the last block. */
  method AccumulateRest(ctx: QueryContext, docs: seq<uint32>, start: nat, guess0: nat, weight: real, avg: uint32,
                        freqs0: seq<TokenFrequencyEntry>, freqDense: bool, lengths0: seq<DocumentLengthEntry>,
                        dlDense: bool, ghost before: seq<Score>, ghost fs: seq<TokenFrequencyEntry>,
                        ghost ls: seq<DocumentLengthEntry>)
      returns (ok: bool)
    requires Reading(before, ctx.scores, ctx.bitmap, docs, start, guess0, weight, avg, freqs0, fs, freqDense, lengths0,
                     ls, dlDense)
    requires start == 8 * (|docs| / 8)
    modifies ctx`scores
    ensures ok <==> Readable(ls, docs)
    ensures ok ==> Over(ctx.scores, ctx.bitmap)
                   && Grown(before, ctx.scores, Terms(weight, avg, fs, Reads(ls, docs), docs))
  {
    var freqs, lengths, guess := freqs0, lengths0, guess0;
    for i := start to |docs|
      invariant Reading(before, ctx.scores, ctx.bitmap, docs, i, guess, weight, avg, freqs, fs, freqDense, lengths, ls,
                        dlDense)
    {
      ok, guess, freqs, lengths :=
          OneMore(ctx, docs, i, guess, weight, avg, freqs, freqDense, lengths, dlDense, before, fs, ls);
      if !ok {
        return;
      }
    }
    assert docs[..|docs|] == docs;
    ok := true;
  }

  lemma NothingAdded(before: seq<Score>, weight: real, avg: uint32, fs: seq<TokenFrequencyEntry>,
                     read: uint32 -> uint32, docs: seq<uint32>)
    ensures Grown(before, before, Terms(weight, avg, fs, read, docs[..0]))
  {
    assert docs[..0] == [];
  }

  /** Saturation, and how rare a token is: documents with the field, documents with the token. */
  datatype Weights = Weights(saturation: real, idf: (nat, nat) -> real)

  /** The factor in front of every summand of a token; a boost of 1 is not multiplied in. */
  function Weight(w: Weights, boost: real, documents: nat, token: Token): real {
    var idf := w.idf(documents, token.frequencyCount);
    if boost != 1.0 then idf * boost * (w.saturation + 1.0) else idf * (w.saturation + 1.0)
  }

  /** A token without weight adds nothing. */
  predicate Weightless(w: Weights, boost: real, documents: nat, token: Token) {
    Weight(w, boost, documents, token) == 0.0 || w.saturation + 1.0 == 0.0
  }

  ghost predicate TokenIn(s: Searcher, h: uint64, token: Token, ratio: Ratio) {
    h in s.tables.fields && FieldOk(s.tables, s.tables.fields[h], ratio) && TokenOk(s.tables, token)
  }

  ghost function EntriesOf(s: Searcher, token: Token): seq<TokenFrequencyEntry> {
    if InRegion(s.tables, token) then Slice(s.tables, token) else []
  }

  /** The lengths that are read for a token, the candidates being `b`. */
  ghost function LengthsFor(s: Searcher, b: Bitmap, f: Field, token: Token): uint32 -> uint32 {
    Reads(f.documentLengths, ToArray(b * s.ListOf(token)))
  }

  /** A token is skipped, or has a length to read for every candidate on its list. */
  ghost predicate TokenReadable(s: Searcher, b: Bitmap, w: Weights, boost: real, f: Field, token: Token) {
    Weightless(w, boost, |f.documentLengths|, token) || Readable(f.documentLengths, ToArray(b * s.ListOf(token)))
  }

  /** What one token of a field adds, document by document. */
  ghost function TokenTerms(s: Searcher, b: Bitmap, w: Weights, boost: real, f: Field, token: Token)
      : uint32 -> seq<Contribution> {
    (d: uint32) =>
      if Weightless(w, boost, |f.documentLengths|, token) || d !in s.ListOf(token) then []
      else [Term(Weight(w, boost, |f.documentLengths|, token), f.avgDocumentLength, EntriesOf(s, token),
                 LengthsFor(s, b, f, token), d)]
  }

  lemma PostedBelow(s: Searcher, token: Token, docs: seq<uint32>)
    requires TokenOk(s.tables, token) && Elements(docs) <= s.ListOf(token)
    ensures forall k: nat | k < |docs| ::
              HasFrequency(Slice(s.tables, token), docs[k], token.frequencyCount) && docs[k] < |s.tables.documentsIds|
  {
    var fs := Slice(s.tables, token);
    forall k: nat | k < |docs|
      ensures HasFrequency(fs, docs[k], |fs|) && docs[k] < |s.tables.documentsIds|
    {
      Inside(docs, s.ListOf(token), k);
      assert docs[k] in DocumentsOf(fs);
    }
  }

  lemma PostedFrequencies(s: Searcher, token: Token, docs: seq<uint32>, fs: seq<TokenFrequencyEntry>, n: nat)
    requires TokenOk(s.tables, token) && Ascending(docs) && Elements(docs) <= s.ListOf(token)
    requires fs == Slice(s.tables, token) && n == |s.tables.documentsIds|
    ensures FrequenciesLeft(fs, fs, |fs| == n, docs, 0)
  {
    PostedBelow(s, token, docs);
    forall k: nat | k < |docs|
      ensures FrequencyLeft(fs, fs, docs, k)
    {
    }
  }

  lemma PostedLengths(s: Searcher, f: Field, token: Token, docs: seq<uint32>, n: nat, ratio: Ratio)
    requires FieldOk(s.tables, f, ratio) && TokenOk(s.tables, token) && Ascending(docs)
    requires Elements(docs) <= s.ListOf(token) && n == |s.tables.documentsIds|
    ensures LengthsLeft(f.documentLengths, f.documentLengths, |f.documentLengths| == n, docs, 0)
  {
    PostedBelow(s, token, docs);
  }

  lemma PostedTables(s: Searcher, f: Field, token: Token, docs: seq<uint32>, fs: seq<TokenFrequencyEntry>, n: nat,
                     ratio: Ratio)
    requires FieldOk(s.tables, f, ratio) && TokenOk(s.tables, token) && Ascending(docs)
    requires Elements(docs) <= s.ListOf(token) && fs == Slice(s.tables, token) && n == |s.tables.documentsIds|
    ensures TablesLeft(docs, 0, fs, fs, |fs| == n, f.documentLengths, f.documentLengths, |f.documentLengths| == n)
  {
    PostedFrequencies(s, token, docs, fs, n);
    PostedLengths(s, f, token, docs, n, ratio);
  }

  /** The terms at the candidates: those of the resolved documents are those of the posting list. */
  lemma TermsResolved(before: seq<Score>, after: seq<Score>, b: Bitmap, list: Bitmap, docs: seq<uint32>,
                      f: uint32 -> seq<Contribution>, g: uint32 -> seq<Contribution>)
    requires Over(before, b) && Elements(docs) == b * list && Grown(before, after, f)
    requires forall d | d in b :: g(d) == (if d in list then f(d) else []) && (d !in docs ==> f(d) == [])
    ensures Grown(before, after, g)
  {
    ElementsOf(docs, b * list);
    forall i: nat | i < |before|
      ensures GrownAt(before, after, g, i)
    {
      assert GrownAt(before, after, f, i);
      OverIn(before, b, i);
    }
  }

  ghost function ListedTerms(weight: real, avg: uint32, fs: seq<TokenFrequencyEntry>, read: uint32 -> uint32,
                             list: Bitmap)
      : uint32 -> seq<Contribution> {
    (d: uint32) => if d in list then [Term(weight, avg, fs, read, d)] else []
  }

  /** The candidates on a posting list, with their summand each. */
  method AddPosted(ctx: QueryContext, list: Bitmap, docs: seq<uint32>, weight: real, avg: uint32,
                   fs: seq<TokenFrequencyEntry>, freqDense: bool, ls: seq<DocumentLengthEntry>, dlDense: bool)
      returns (ok: bool)
    requires Over(ctx.scores, ctx.bitmap) && Ascending(docs) && Elements(docs) == ctx.bitmap * list
    requires TablesLeft(docs, 0, fs, fs, freqDense, ls, ls, dlDense)
    modifies ctx`scores
    ensures ok <==> Readable(ls, docs)
    ensures ok ==> Over(ctx.scores, ctx.bitmap)
                   && Grown(old(ctx.scores), ctx.scores, ListedTerms(weight, avg, fs, Reads(ls, docs), list))
  {
    ghost var before := ctx.scores;
    ElementsOf(docs, ctx.bitmap * list);
    ok := AccumulateToken(ctx, docs, weight, avg, fs, freqDense, ls, dlDense);
    if ok {
      TermsResolved(before, ctx.scores, ctx.bitmap, list, docs, Terms(weight, avg, fs, Reads(ls, docs), docs),
                    ListedTerms(weight, avg, fs, Reads(ls, docs), list));
    }
  }

  lemma WeightedTerms(before: seq<Score>, after: seq<Score>, s: Searcher, b: Bitmap, w: Weights, boost: real, f: Field,
                      token: Token, list: Bitmap, fs: seq<TokenFrequencyEntry>, weight: real)
    requires InRegion(s.tables, token) && !Weightless(w, boost, |f.documentLengths|, token)
    requires list == s.ListOf(token) && fs == Slice(s.tables, token)
    requires weight == Weight(w, boost, |f.documentLengths|, token)
    requires Grown(before, after, ListedTerms(weight, f.avgDocumentLength, fs, LengthsFor(s, b, f, token), list))
    ensures Grown(before, after, TokenTerms(s, b, w, boost, f, token))
  {
    forall i: nat | i < |before|
      ensures GrownAt(before, after, TokenTerms(s, b, w, boost, f, token), i)
    {
      assert GrownAt(before, after, ListedTerms(weight, f.avgDocumentLength, fs, LengthsFor(s, b, f, token), list), i);
    }
  }

  /** One token that weighs something. */
  method AccumulateWeighted(s: Searcher, ctx: QueryContext, w: Weights, boost: real, f: Field, token: Token,
                            list: Bitmap, ghost ratio: Ratio)
      returns (ok: bool)
    requires FieldOk(s.tables, f, ratio) && TokenOk(s.tables, token) && |s.tables.documentsIds| < MaxDocuments
    requires Over(ctx.scores, ctx.bitmap) && !Weightless(w, boost, |f.documentLengths|, token)
    requires list == s.ListOf(token)
    modifies ctx`scores
    ensures ok <==> Readable(f.documentLengths, ToArray(ctx.bitmap * list))
    ensures ok ==> Over(ctx.scores, ctx.bitmap)
    ensures ok ==> Grown(old(ctx.scores), ctx.scores, TokenTerms(s, ctx.bitmap, w, boost, f, token))
  {
    var docs, fs, n := ToArray(ctx.bitmap * list), Slice(s.tables, token), |s.tables.documentsIds|;
    PostedTables(s, f, token, docs, fs, n, ratio);
    var weight := Weight(w, boost, |f.documentLengths|, token);
    ghost var before := ctx.scores;
    ok := AddPosted(ctx, list, docs, weight, f.avgDocumentLength, fs, |fs| == n, f.documentLengths,
                    |f.documentLengths| == n);
    if ok {
      WeightedTerms(before, ctx.scores, s, ctx.bitmap, w, boost, f, token, list, fs, weight);
    }
  }

  lemma NothingPosted(s: Searcher, scores: seq<Score>, b: Bitmap, w: Weights, boost: real, f: Field, token: Token)
    requires Weightless(w, boost, |f.documentLengths|, token) || s.ListOf(token) == {}
    ensures TokenReadable(s, b, w, boost, f, token) && Grown(scores, scores, TokenTerms(s, b, w, boost, f, token))
  {
    if s.ListOf(token) == {} {
      assert b * s.ListOf(token) == {};
      assert ToArray({}) == [];
    }
  }

  /** One token of a state. */
  method Accumulate(s: Searcher, ctx: QueryContext, w: Weights, boost: real, h: uint64, token: Token,
                    ghost ratio: Ratio)
      returns (ok: bool)
    requires TokenIn(s, h, token, ratio) && |s.tables.documentsIds| < MaxDocuments
    requires Over(ctx.scores, ctx.bitmap)
    modifies ctx`scores
    ensures ok <==> TokenReadable(s, ctx.bitmap, w, boost, s.tables.fields[h], token)
    ensures ok ==> Over(ctx.scores, ctx.bitmap)
    ensures ok ==> Grown(old(ctx.scores), ctx.scores, TokenTerms(s, ctx.bitmap, w, boost, s.tables.fields[h], token))
  {
    var f := s.tables.fields[h];
    ok := true;
    if Weightless(w, boost, |f.documentLengths|, token) {
      NothingPosted(s, ctx.scores, ctx.bitmap, w, boost, f, token);
      return;
    }
    var list := s.ListOf(token);
    if list == {} {
      NothingPosted(s, ctx.scores, ctx.bitmap, w, boost, f, token);
      return;
    }
    ok := AccumulateWeighted(s, ctx, w, boost, f, token, list, ratio);
  }

  ghost predicate StateIn(s: Searcher, state: ClauseState, ratio: Ratio) {
    state.field.Some? && state.field.value in s.tables.fields
    && forall i | 0 <= i < |state.tokens| :: TokenIn(s, state.field.value, state.tokens[i], ratio)
  }

  ghost predicate ReadableAt(s: Searcher, b: Bitmap, w: Weights, state: ClauseState, i: nat) {
    i < |state.tokens| && state.field.Some? && state.field.value in s.tables.fields
    ==> TokenReadable(s, b, w, state.boost, s.tables.fields[state.field.value], state.tokens[i])
  }

  /** There is a length to read for every candidate that a token of the state adds to. */
  ghost function StateReadable(s: Searcher, b: Bitmap, w: Weights): ClauseState -> bool {
    (state: ClauseState) => forall i: nat {:trigger ReadableAt(s, b, w, state, i)} | i < |state.tokens| ::
        ReadableAt(s, b, w, state, i)
  }

  ghost function TokenTermsAt(s: Searcher, b: Bitmap, w: Weights, state: ClauseState, d: uint32)
      : nat -> seq<Contribution> {
    (i: nat) =>
      if i < |state.tokens| && state.field.Some? && state.field.value in s.tables.fields then
        TokenTerms(s, b, w, state.boost, s.tables.fields[state.field.value], state.tokens[i])(d)
      else []
  }

  ghost function FirstTerms(s: Searcher, b: Bitmap, w: Weights, state: ClauseState, n: nat)
      : uint32 -> seq<Contribution> {
    (d: uint32) => Collect(n, TokenTermsAt(s, b, w, state, d))
  }

  /** What one state adds: token after token. */
  ghost function StateTerms(s: Searcher, b: Bitmap, w: Weights, state: ClauseState): uint32 -> seq<Contribution> {
    FirstTerms(s, b, w, state, |state.tokens|)
  }

  lemma StateNext(s: Searcher, b: Bitmap, w: Weights, state: ClauseState, i: nat)
    requires state.field.Some? && state.field.value in s.tables.fields && i < |state.tokens|
    ensures forall d :: FirstTerms(s, b, w, state, i + 1)(d)
              == FirstTerms(s, b, w, state, i)(d)
                  + TokenTerms(s, b, w, state.boost, s.tables.fields[state.field.value], state.tokens[i])(d)
  {
  }

  /** Where the loop over the tokens of a state stands. */
  ghost predicate Scored(before: seq<Score>, now: seq<Score>, s: Searcher, b: Bitmap, w: Weights, state: ClauseState,
                         i: nat) {
    && Over(now, b) && Grown(before, now, FirstTerms(s, b, w, state, i))
    && forall k: nat {:trigger ReadableAt(s, b, w, state, k)} | k < i :: ReadableAt(s, b, w, state, k)
  }

  lemma ScoredNone(before: seq<Score>, s: Searcher, b: Bitmap, w: Weights, state: ClauseState)
    requires Over(before, b)
    ensures Scored(before, before, s, b, w, state, 0)
  {
  }

  lemma ScoredAll(before: seq<Score>, now: seq<Score>, s: Searcher, b: Bitmap, w: Weights, state: ClauseState)
    requires Scored(before, now, s, b, w, state, |state.tokens|)
    ensures StateReadable(s, b, w)(state) && Over(now, b) && Grown(before, now, StateTerms(s, b, w, state))
  {
  }

  lemma NotReadable(s: Searcher, b: Bitmap, w: Weights, state: ClauseState, i: nat)
    requires i < |state.tokens| && !ReadableAt(s, b, w, state, i)
    ensures !StateReadable(s, b, w)(state)
  {
  }

  method NextToken(s: Searcher, ctx: QueryContext, state: ClauseState, w: Weights, i: nat, ghost ratio: Ratio,
                   ghost before: seq<Score>)
      returns (ok: bool)
    requires StateIn(s, state, ratio) && |s.tables.documentsIds| < MaxDocuments && i < |state.tokens|
    requires Scored(before, ctx.scores, s, ctx.bitmap, w, state, i)
    modifies ctx`scores
    ensures ok <==> ReadableAt(s, ctx.bitmap, w, state, i)
    ensures ok ==> Scored(before, ctx.scores, s, ctx.bitmap, w, state, i + 1)
  {
    ghost var now, f := ctx.scores, s.tables.fields[state.field.value];
    ok := Accumulate(s, ctx, w, state.boost, state.field.value, state.tokens[i], ratio);
    if ok {
      StateNext(s, ctx.bitmap, w, state, i);
      GrownTwice(before, now, ctx.scores, FirstTerms(s, ctx.bitmap, w, state, i),
                 TokenTerms(s, ctx.bitmap, w, state.boost, f, state.tokens[i]),
                 FirstTerms(s, ctx.bitmap, w, state, i + 1));
    }
  }

  /**
   `ScalarAccumulateBM25`: what every token adds to every document, in order. It comes to no end exactly when some
   candidate on the list of a token that weighs something has no length left to read, where Go panics.
   */
  method ScalarAccumulateBM25(s: Searcher, ctx: QueryContext, state: ClauseState, w: Weights, ghost ratio: Ratio)
      returns (ok: bool)
    requires StateIn(s, state, ratio) && |s.tables.documentsIds| < MaxDocuments && Over(ctx.scores, ctx.bitmap)
    modifies ctx`scores
    ensures ok <==> StateReadable(s, ctx.bitmap, w)(state)
    ensures ok ==> Over(ctx.scores, ctx.bitmap)
                   && Grown(old(ctx.scores), ctx.scores, StateTerms(s, ctx.bitmap, w, state))
  {
    ghost var before := ctx.scores;
    ScoredNone(before, s, ctx.bitmap, w, state);
    for i := 0 to |state.tokens|
      invariant Scored(before, ctx.scores, s, ctx.bitmap, w, state, i)
    {
      ok := NextToken(s, ctx, state, w, i, ratio, before);
      if !ok {
        NotReadable(s, ctx.bitmap, w, state, i);
        return;
      }
    }
    ScoredAll(before, ctx.scores, s, ctx.bitmap, w, state);
    ok := true;
  }

  /** Every candidate on the list of a token has a length in its field. */
  ghost predicate Covered(s: Searcher, b: Bitmap) {
    forall h, i {:trigger s.tables.fields[h].tokens[i]} | h in s.tables.fields
        && 0 <= i < |s.tables.fields[h].tokens| ::
      forall d | d in s.ListOf(s.tables.fields[h].tokens[i]) && d in b ::
        HasLength(s.tables.fields[h].documentLengths, d, |s.tables.fields[h].documentLengths|)
  }

  ghost predicate Among(ts: seq<Token>, us: seq<Token>) {
    forall t | t in ts :: t in us
  }

  lemma AmongSnoc(ts: seq<Token>, us: seq<Token>, i: nat)
    requires Among(ts, us) && i < |us|
    ensures Among(ts + [us[i]], us) && Among(ts + [], us)
  {
  }

  lemma {:induction false} MatchingAmong(k: nat, keyword: bytes, ts: seq<Token>, n: nat)
    requires n <= |ts|
    ensures Among(Matching(k, keyword, ts, n), ts)
  {
    if n > 0 {
      MatchingAmong(k, keyword, ts, n - 1);
      AmongSnoc(Matching(k, keyword, ts, n - 1), ts, n - 1);
    }
  }

  lemma KeywordTokensAmong(s: Searcher, ts: seq<Token>, kw: Keyword)
    ensures Among(s.KeywordTokens(ts, kw), ts)
  {
    if !Exact(ts, kw.value) && s.Fuzzy(kw) {
      MatchingAmong(s.K(kw), kw.value, ts, |ts|);
    }
  }

  lemma ResolvedAmong(ts: seq<Token>, r: Range)
    requires ts != []
    ensures Among(Resolved(ts, r), ts)
  {
    forall t | t in Resolved(ts, r)
      ensures t in ts
    {
      KeptMembers(ts, Between(Low(ts, r), High(ts, r), r.mode), |ts|, t);
    }
  }

  /** The tokens of a state come from the table of its field. */
  ghost function FromField(s: Searcher): ClauseState -> bool {
    (x: ClauseState) => x.field.Some? && x.field.value in s.tables.fields
        && Among(x.tokens, s.tables.fields[x.field.value].tokens)
  }

  lemma KeywordFromField(s: Searcher, kw: Keyword, order: seq<uint64>)
    requires forall i | 0 <= i < |order| :: order[i] in s.tables.fields
    ensures EachOf(s.KeywordStates(kw, order, false), FromField(s))
  {
    CollectEach(|order|, s.KeywordAt(kw, order), FromField(s));
    forall i: nat | i < |order|
      ensures EachOf(s.KeywordAt(kw, order)(i), FromField(s))
    {
      KeywordTokensAmong(s, s.tables.fields[order[i]].tokens, kw);
    }
  }

  lemma KeywordsFromField(s: Searcher, c: Clause, orders: seq<seq<uint64>>)
    requires s.Orders(c, orders)
    ensures EachOf(Collect(|c.keywords|, s.KeywordsAt(c, orders, false)), FromField(s))
  {
    CollectEach(|c.keywords|, s.KeywordsAt(c, orders, false), FromField(s));
    forall i: nat | i < |c.keywords|
      ensures EachOf(s.KeywordsAt(c, orders, false)(i), FromField(s))
    {
      KeywordFromField(s, c.keywords[i], orders[i]);
    }
  }

  lemma ScopedFromField(s: Searcher, boost: real, h: uint64, tokens: seq<Token>)
    requires tokens != [] ==> h in s.tables.fields && Among(tokens, s.tables.fields[h].tokens)
    ensures EachOf(s.ScopedStates(boost, h, tokens, false), FromField(s))
  {
  }

  lemma FieldKeywordsFromField(s: Searcher, c: Clause)
    ensures EachOf(Collect(|c.fieldKeywords|, s.FieldKeywordsAt(c, false)), FromField(s))
  {
    CollectEach(|c.fieldKeywords|, s.FieldKeywordsAt(c, false), FromField(s));
    forall i: nat | i < |c.fieldKeywords|
      ensures EachOf(s.FieldKeywordsAt(c, false)(i), FromField(s))
    {
      var e := c.fieldKeywords[i];
      if e.field in s.tables.fields {
        KeywordTokensAmong(s, s.tables.fields[e.field].tokens, e.keyword);
      }
      ScopedFromField(s, e.keyword.boost, e.field, s.ScopedTokens(e.field, e.keyword));
    }
  }

  lemma FieldRangesFromField(s: Searcher, c: Clause)
    ensures EachOf(Collect(|c.fieldRanges|, s.FieldRangesAt(c, false)), FromField(s))
  {
    CollectEach(|c.fieldRanges|, s.FieldRangesAt(c, false), FromField(s));
    forall i: nat | i < |c.fieldRanges|
      ensures EachOf(s.FieldRangesAt(c, false)(i), FromField(s))
    {
      var e := c.fieldRanges[i];
      if e.field in s.tables.fields && s.tables.fields[e.field].tokens != [] {
        ResolvedAmong(s.tables.fields[e.field].tokens, e.range);
      }
      ScopedFromField(s, e.boost, e.field, s.RangedTokens(e.field, e.range));
    }
  }

  lemma StatesFromField(s: Searcher, c: Clause, orders: seq<seq<uint64>>)
    requires s.Orders(c, orders)
    ensures EachOf(s.States(c, orders, false), FromField(s))
  {
    KeywordsFromField(s, c, orders);
    FieldKeywordsFromField(s, c);
    FieldRangesFromField(s, c);
    var x, y, z := Collect(|c.keywords|, s.KeywordsAt(c, orders, false)),
        Collect(|c.fieldKeywords|, s.FieldKeywordsAt(c, false)),
                   Collect(|c.fieldRanges|, s.FieldRangesAt(c, false));
    EachJoined(x, y, FromField(s));
    EachJoined(x + y, z, FromField(s));
  }

  lemma StateFromField(s: Searcher, state: ClauseState, ratio: Ratio)
    requires FromField(s)(state) && WellFormed(s.tables, ratio)
    ensures StateIn(s, state, ratio)
  {
    var h := state.field.value;
    var ts := s.tables.fields[h].tokens;
    assert FieldOk(s.tables, s.tables.fields[h], ratio);
    forall i | 0 <= i < |state.tokens|
      ensures TokenIn(s, h, state.tokens[i], ratio)
    {
      assert state.tokens[i] in ts;
      var j :| 0 <= j < |ts| && ts[j] == state.tokens[i];
    }
  }

  ghost function StateTermsAt(s: Searcher, b: Bitmap, w: Weights, states: seq<ClauseState>, d: uint32)
      : nat -> seq<Contribution> {
    (k: nat) => if k < |states| then StateTerms(s, b, w, states[k])(d) else []
  }

  /** What the first `n` states of a clause add to a document: state after state. */
  ghost function ClauseTerms(s: Searcher, b: Bitmap, w: Weights, states: seq<ClauseState>, n: nat)
      : uint32 -> seq<Contribution> {
    (d: uint32) => Collect(n, StateTermsAt(s, b, w, states, d))
  }

  ghost predicate StatesIn(s: Searcher, states: seq<ClauseState>, ratio: Ratio) {
    |s.tables.documentsIds| < MaxDocuments
    && forall k {:trigger StateIn(s, states[k], ratio)} | 0 <= k < |states| :: StateIn(s, states[k], ratio)
  }

  lemma AllStatesIn(s: Searcher, c: Clause, orders: seq<seq<uint64>>, ratio: Ratio)
    requires s.Orders(c, orders) && WellFormed(s.tables, ratio)
    ensures StatesIn(s, s.States(c, orders, false), ratio)
  {
    StatesFromField(s, c, orders);
    var states := s.States(c, orders, false);
    forall k | 0 <= k < |states|
      ensures StateIn(s, states[k], ratio)
    {
      StateFromField(s, states[k], ratio);
    }
  }

  method ScoreClause(s: Searcher, ctx: QueryContext, c: Clause, w: Weights, ghost ratio: Ratio)
      returns (ok: bool, ghost states: seq<ClauseState>, ghost orders: seq<seq<uint64>>)
    requires WellFormed(s.tables, ratio) && s.TablesReady() && s.Ready(c) && Over(ctx.scores, ctx.bitmap)
    modifies ctx`scores
    ensures s.Orders(c, orders) && states == s.States(c, orders, false)
    ensures ok <==> EachOf(states, StateReadable(s, ctx.bitmap, w))
    ensures ok ==> Over(ctx.scores, ctx.bitmap)
    ensures ok ==> Grown(old(ctx.scores), ctx.scores, ClauseTerms(s, ctx.bitmap, w, states, |states|))
  {
    var met;
    met, orders := s.Iterate(c, false);
    states := met;
    AllStatesIn(s, c, orders, ratio);
    ok := ScoreStates(s, ctx, met, w, ratio);
  }

  /** Where the loop over the states of a clause stands. */
  ghost predicate ScoredStates(before: seq<Score>, now: seq<Score>, s: Searcher, b: Bitmap, w: Weights,
                               states: seq<ClauseState>, k: nat)
    requires k <= |states|
  {
    && Over(now, b) && Grown(before, now, ClauseTerms(s, b, w, states, k))
    && EachOf(states[..k], StateReadable(s, b, w))
  }

  method NextState(s: Searcher, ctx: QueryContext, states: seq<ClauseState>, w: Weights, k: nat, ghost ratio: Ratio,
                   ghost before: seq<Score>)
      returns (ok: bool)
    requires StatesIn(s, states, ratio) && k < |states|
    requires ScoredStates(before, ctx.scores, s, ctx.bitmap, w, states, k)
    modifies ctx`scores
    ensures ok <==> StateReadable(s, ctx.bitmap, w)(states[k])
    ensures ok ==> ScoredStates(before, ctx.scores, s, ctx.bitmap, w, states, k + 1)
  {
    ghost var now := ctx.scores;
    assert StateIn(s, states[k], ratio);
    ok := ScalarAccumulateBM25(s, ctx, states[k], w, ratio);
    if ok {
      ClauseNext(before, now, ctx.scores, s, ctx.bitmap, w, states, k);
      EachNext(states, k, StateReadable(s, ctx.bitmap, w));
    }
  }

  lemma EachNext<X(!new)>(xs: seq<X>, k: nat, p: X -> bool)
    requires k < |xs| && EachOf(xs[..k], p) && p(xs[k])
    ensures EachOf(xs[..k + 1], p)
  {
  }

  method ScoreStates(s: Searcher, ctx: QueryContext, states: seq<ClauseState>, w: Weights, ghost ratio: Ratio)
      returns (ok: bool)
    requires StatesIn(s, states, ratio) && Over(ctx.scores, ctx.bitmap)
    modifies ctx`scores
    ensures ok <==> EachOf(states, StateReadable(s, ctx.bitmap, w))
    ensures ok ==> Over(ctx.scores, ctx.bitmap)
    ensures ok ==> Grown(old(ctx.scores), ctx.scores, ClauseTerms(s, ctx.bitmap, w, states, |states|))
  {
    ghost var before := ctx.scores;
    for k := 0 to |states|
      invariant ScoredStates(before, ctx.scores, s, ctx.bitmap, w, states, k)
    {
      ok := NextState(s, ctx, states, w, k, ratio, before);
      if !ok {
        return;
      }
    }
    assert states[..|states|] == states;
    ok := true;
  }

  lemma ClauseNext(before: seq<Score>, now: seq<Score>, after: seq<Score>, s: Searcher, b: Bitmap, w: Weights,
                   states: seq<ClauseState>, k: nat)
    requires k < |states| && Grown(before, now, ClauseTerms(s, b, w, states, k))
    requires Grown(now, after, StateTerms(s, b, w, states[k]))
    ensures Grown(before, after, ClauseTerms(s, b, w, states, k + 1))
  {
    GrownTwice(before, now, after, ClauseTerms(s, b, w, states, k), StateTerms(s, b, w, states[k]),
               ClauseTerms(s, b, w, states, k + 1));
  }

  const DefaultSaturation := 1.2

  function WeightsOf(saturation: real, idf: (nat, nat) -> real): Weights {
    Weights(if saturation != 0.0 then saturation else DefaultSaturation, idf)
  }

  /** There is some order of the fields for every keyword. */
  lemma {:induction false} SomeOrders(s: Searcher, c: Clause, n: nat) returns (orders: seq<seq<uint64>>)
    requires n <= |c.keywords|
    ensures |orders| == n && forall i | 0 <= i < n :: Enumerates(orders[i], s.tables.fields.Keys)
    decreases n
  {
    if n == 0 {
      orders := [];
    } else {
      orders := SomeOrders(s, c, n - 1);
      var order := SomeEnumeration(s.tables.fields.Keys);
      orders := orders + [order];
    }
  }

  lemma {:induction false} SomeEnumeration<K(!new)>(keys: set<K>) returns (order: seq<K>)
    ensures Enumerates(order, keys)
    decreases |keys|
  {
    if keys == {} {
      order := [];
    } else {
      var k :| k in keys;
      var front := SomeEnumeration(keys - {k});
      EnumeratesSnoc(front, keys - {k}, k);
      assert keys - {k} + {k} == keys;
      order := front + [k];
    }
  }

  /**
   `BM25Score`: every candidate has the summands of the musts and then those of the shoulds; nothing else is scored. It
   comes to no end exactly when some candidate has no length left to read.
   */
  method BM25Score(s: Searcher, ctx: QueryContext, q: Query, saturation: real, idf: (nat, nat) -> real,
                   ghost ratio: Ratio)
      returns (ok: bool, ghost musts: seq<seq<uint64>>, ghost shoulds: seq<seq<uint64>>)
    requires WellFormed(s.tables, ratio) && s.TablesReady() && s.Ready(q.musts) && s.Ready(q.shoulds)
    modifies ctx`scores
    ensures s.Orders(q.musts, musts) && s.Orders(q.shoulds, shoulds)
    ensures var w := WeightsOf(saturation, idf);
            ok <==> EachOf(s.States(q.musts, musts, false), StateReadable(s, ctx.bitmap, w))
                    && EachOf(s.States(q.shoulds, shoulds, false), StateReadable(s, ctx.bitmap, w))
    ensures ok ==> Over(ctx.scores, ctx.bitmap)
    ensures var w, b, x, y := WeightsOf(saturation, idf), ctx.bitmap, s.States(q.musts, musts, false),
            s.States(q.shoulds, shoulds, false);
            ok ==> forall i | 0 <= i < |ctx.scores| ::
              ctx.scores[i].trail == ClauseTerms(s, b, w, x, |x|)(ctx.scores[i].index)
                  + ClauseTerms(s, b, w, y, |y|)(ctx.scores[i].index)
  {
    var w := WeightsOf(saturation, idf);
    ctx.Reset();
    ghost var x, y, start := [], [], ctx.scores;
    ok, x, musts := ScoreClause(s, ctx, q.musts, w, ratio);
    if ok {
      ghost var middle := ctx.scores;
      ok, y, shoulds := ScoreClause(s, ctx, q.shoulds, w, ratio);
      if ok {
        FromNothing(start, middle, ctx.scores, ClauseTerms(s, ctx.bitmap, w, x, |x|),
                    ClauseTerms(s, ctx.bitmap, w, y, |y|));
      }
    } else {
      shoulds := SomeOrders(s, q.shoulds, |q.shoulds.keywords|);
    }
  }

  lemma FromNothing(start: seq<Score>, middle: seq<Score>, end: seq<Score>, f: uint32 -> seq<Contribution>,
                    g: uint32 -> seq<Contribution>)
    requires Grown(start, middle, f) && Grown(middle, end, g) && forall i | 0 <= i < |start| :: start[i].trail == []
    ensures forall i | 0 <= i < |end| :: end[i].trail == f(end[i].index) + g(end[i].index)
  {
    forall i: nat | i < |end|
      ensures end[i].trail == f(end[i].index) + g(end[i].index)
    {
      assert GrownAt(start, middle, f, i) && GrownAt(middle, end, g, i);
    }
  }

  /** Candidates that all have lengths. */
  ghost predicate AllMeasured(ls: seq<DocumentLengthEntry>, c: Bitmap) {
    LengthsAscending(ls) && forall x | x in c :: HasLength(ls, x, |ls|)
  }

  lemma OwnReadable(ls: seq<DocumentLengthEntry>, c: Bitmap)
    requires AllMeasured(ls, c)
    ensures Readable(ls, ToArray(c))
    ensures forall k: nat {:trigger ReadsOwn(ls, ToArray(c), k)} | k < |ToArray(c)| :: ReadsOwn(ls, ToArray(c), k)
  {
    var docs := ToArray(c);
    forall k: nat | k < |docs|
      ensures HasLength(ls, docs[k], |ls|)
    {
      assert docs[k] in Elements(docs);
    }
    OwnAreRead(ls, docs);
    forall k: nat | k < |docs|
      ensures ReadsSome(ls, docs, k)
    {
      assert ReadsOwn(ls, docs, k);
    }
  }

  /** They are read their own ones. */
  lemma OwnLength(ls: seq<DocumentLengthEntry>, c: Bitmap, d: uint32)
    requires AllMeasured(ls, c) && d in c
    ensures Reads(ls, ToArray(c))(d) == Dl(ls, d)
  {
    OwnReadable(ls, c);
    var k := PlaceOf(ToArray(c), d);
    OwnLengthAt(ls, ToArray(c), k);
  }

  lemma PlaceOf(docs: seq<uint32>, d: uint32) returns (k: nat)
    requires d in Elements(docs)
    ensures k < |docs| && docs[k] == d
  {
    k :| k < |docs| && docs[k] == d;
  }

  lemma OwnLengthAt(ls: seq<DocumentLengthEntry>, docs: seq<uint32>, k: nat)
    requires LengthsAscending(ls) && Ascending(docs) && k < |docs| && ReadsOwn(ls, docs, k)
    ensures Reads(ls, docs)(docs[k]) == Dl(ls, docs[k])
  {
    ReadsOf(ls, docs, k);
    DlAt(ls, docs[k], ReadAt(ls, docs, k));
  }

  /** What a plain lookup of every document in the full tables adds. */
  ghost function PlainTerms(s: Searcher, w: Weights, boost: real, f: Field, token: Token): uint32 -> seq<Contribution> {
    (d: uint32) =>
      if Weightless(w, boost, |f.documentLengths|, token) || d !in s.ListOf(token) then []
      else [Weighted(Weight(w, boost, |f.documentLengths|, token), f.avgDocumentLength, Tf(EntriesOf(s, token), d),
                     Dl(f.documentLengths, d))]
  }

  /** Where candidates have lengths, nothing is missing, and every token adds what plain lookups say. */
  lemma CoveredIsPlain(s: Searcher, b: Bitmap, w: Weights, boost: real, h: uint64, i: nat, ratio: Ratio)
    requires WellFormed(s.tables, ratio) && Covered(s, b) && h in s.tables.fields && i < |s.tables.fields[h].tokens|
    ensures var f := s.tables.fields[h];
            && TokenReadable(s, b, w, boost, f, f.tokens[i])
            && forall d | d in b :: TokenTerms(s, b, w, boost, f, f.tokens[i])(d)
                                    == PlainTerms(s, w, boost, f, f.tokens[i])(d)
  {
    var f := s.tables.fields[h];
    assert FieldOk(s.tables, f, ratio);
    OwnReadable(f.documentLengths, b * s.ListOf(f.tokens[i]));
    forall d | d in b && d in s.ListOf(f.tokens[i])
      ensures LengthsFor(s, b, f, f.tokens[i])(d) == Dl(f.documentLengths, d)
    {
      OwnLength(f.documentLengths, b * s.ListOf(f.tokens[i]), d);
    }
  }
}
