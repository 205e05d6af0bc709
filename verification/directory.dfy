/** writer.go, `Merge`, over files: the steps of the writer, and what is in the directory after each. */
module Directories {
  import opened Bytes
  import opened Headers
  import opened Totals
  import opened Tables
  import opened Documents
  import opened Format
  import opened Segments
  import opened WriterSteps
  import opened WriterInvariants
  import opened WriterMerge

  /** The writer, and the bytes of every file. */
  datatype Directory = Directory(s: State<Document>, files: map<nat, bytes>)

  /** A file is written by merging the two that the pair has loaded. */
  ghost predicate Writes(files: map<nat, bytes>, j: Job<Document>, out: nat, files': map<nat, bytes>, ratio: Ratio) {
    j.a in files && j.b in files && out in files' && Fits(|files'[out]|) && files' == files[out := files'[out]]
    && MergesTo(files[j.a], files[j.b], files'[out], ratio)
  }

  /** One step of the writer on the files; a file that is cut off and one left by a crash may hold anything. */
  ghost predicate Next(w: Directory, t: Step<Document>, w': Directory, ratio: Ratio) {
    Can(w.s, t) && w'.s == Apply(w.s, t)
    && match t
       case Produce(i, docs) =>
         if CutOff(w.s, i) then w'.files.Keys == w.files.Keys + {w.s.counter + 1}
         else Writes(w.files, w.s.jobs[i], w.s.counter + 1, w'.files, ratio)
       case Fail(i, how) => w'.files == if how.MergeFails? then w.files - {w.s.counter + 1} else w.files
       case RemoveA(i) => w'.files == w.files - {w.s.jobs[i].a}
       case RemoveB(i) => w'.files == w.files - {w.s.jobs[i].b}
       case Fault(i) => true
       case _ => w'.files == w.files
  }

  ghost predicate Runs(w: Directory, steps: seq<Step<Document>>, w': Directory, ratio: Ratio)
    decreases |steps|
  {
    if steps == [] then w' == w
    else
      exists u {:trigger Next(w, steps[0], u, ratio)} ::
        Next(w, steps[0], u, ratio) && Runs(u, steps[1..], w', ratio)
  }

  /** Whether a file holds an index of given documents. */
  ghost function Indexing(ratio: Ratio): (bytes, seq<Document>) -> bool {
    (data: bytes, docs: seq<Document>) => Segment(data, docs, ratio)
  }

  ghost predicate FileOk<D>(files: map<nat, bytes>, segments: map<nat, seq<D>>, n: nat,
                            holds: (bytes, seq<D>) -> bool) {
    n in files && n in segments && holds(files[n], segments[n])
  }

  ghost predicate AllOk<D(!new)>(files: map<nat, bytes>, segments: map<nat, seq<D>>, holds: (bytes, seq<D>) -> bool) {
    && files.Keys == segments.Keys
    && forall n {:trigger FileOk(files, segments, n, holds)} | n in files :: FileOk(files, segments, n, holds)
  }

  /** Every file holds an index of the documents that the writer takes to be in it. */
  ghost predicate Backed(w: Directory, ratio: Ratio) {
    AllOk(w.files, w.s.segments, Indexing(ratio))
  }

  /** The documents of the directory, as often as they are there. */
  ghost function Held(all: multiset<Document>): Document -> nat {
    (d: Document) => all[d]
  }

  lemma FileRemoved<D(!new)>(files: map<nat, bytes>, segments: map<nat, seq<D>>, name: nat,
                             holds: (bytes, seq<D>) -> bool)
    requires AllOk(files, segments, holds)
    ensures AllOk(files - {name}, segments - {name}, holds)
  {
    forall n | n in files - {name}
      ensures FileOk(files - {name}, segments - {name}, n, holds)
    {
      assert FileOk(files, segments, n, holds);
    }
  }

  lemma FileWritten<D(!new)>(files: map<nat, bytes>, segments: map<nat, seq<D>>, name: nat, data: bytes, docs: seq<D>,
                             holds: (bytes, seq<D>) -> bool)
    requires AllOk(files, segments, holds) && holds(data, docs)
    ensures AllOk(files[name := data], segments[name := docs], holds)
  {
    var files', segments' := files[name := data], segments[name := docs];
    forall n | n in files'
      ensures FileOk(files', segments', n, holds)
    {
      assert n != name ==> FileOk(files, segments, n, holds);
    }
  }

  lemma FileHolds(w: Directory, n: nat, ratio: Ratio)
    requires Backed(w, ratio) && n in w.s.segments
    ensures n in w.files && Segment(w.files[n], w.s.segments[n], ratio)
  {
    assert FileOk(w.files, w.s.segments, n, Indexing(ratio));
  }

  lemma Fewer(m: multiset<Document>, all: multiset<Document>)
    requires m <= all
    ensures |m| <= |all|
  {
    assert all == m + (all - m);
  }

  /** No pair has more documents than there are. */
  lemma PairWithin(s: State<Document>, all: multiset<Document>, i: nat)
    requires Counted(s, Held(all)) && i < |s.jobs|
    ensures |s.jobs[i].da| + |s.jobs[i].db| <= |all|
  {
    var j := s.jobs[i];
    forall d
      ensures Times(j.da, d) + Times(j.db, d) <= all[d]
    {
      SumAtLeast(s.jobs, Base(d), |s.jobs|, i);
    }
    Fewer(multiset(j.da) + multiset(j.db), all);
  }

  /** What a pair that is about to merge has loaded. */
  ghost predicate Ready(s: State<Document>, i: nat) {
    && i < |s.jobs| && !CutOff(s, i) && |s.jobs[i].da| + |s.jobs[i].db| < MaxDocuments
    && Holds(s.segments, s.jobs[i].a, s.jobs[i].da) && Holds(s.segments, s.jobs[i].b, s.jobs[i].db)
  }

  lemma PairReady(s: State<Document>, all: multiset<Document>, i: nat)
    requires Inv(s, Held(all)) && |all| < MaxDocuments && InRound(s, i) && s.jobs[i].phase.Loaded?
    ensures Ready(s, i)
  {
    NextIsFree(s, Held(all), i);
    Started(s, Held(all), i);
    PairWithin(s, all, i);
  }

  lemma OutputHolds(x: bytes, y: bytes, z: bytes, ratio: Ratio, xs: seq<Document>, ys: seq<Document>)
    requires MergesTo(x, y, z, ratio) && Fits(|z|) && |xs| + |ys| < MaxDocuments
    requires Segment(x, xs, ratio) && Segment(y, ys, ratio)
    ensures Indexing(ratio)(z, xs + ys)
  {
  }

  lemma OutputWritten(w: Directory, i: nat, out: nat, files': map<nat, bytes>, ratio: Ratio)
    requires Ready(w.s, i) && Backed(w, ratio) && Writes(w.files, w.s.jobs[i], out, files', ratio)
    ensures AllOk(files', w.s.segments[out := w.s.jobs[i].da + w.s.jobs[i].db], Indexing(ratio))
  {
    var j := w.s.jobs[i];
    FileHolds(w, j.a, ratio);
    FileHolds(w, j.b, ratio);
    OutputHolds(w.files[j.a], w.files[j.b], files'[out], ratio, j.da, j.db);
    FileWritten(w.files, w.s.segments, out, files'[out], j.da + j.db, Indexing(ratio));
  }

  lemma ProduceBacks(w: Directory, i: nat, docs: seq<Document>, w': Directory, ratio: Ratio)
    requires Ready(w.s, i) && Backed(w, ratio) && Next(w, Produce(i, docs), w', ratio)
    ensures Backed(w', ratio)
  {
    OutputWritten(w, i, w.s.counter + 1, w'.files, ratio);
  }

  lemma FilesFollow(w: Directory, t: Step<Document>, w': Directory, ratio: Ratio)
    requires Backed(w, ratio) && Next(w, t, w', ratio) && !t.Fault? && (t.Produce? ==> Ready(w.s, t.i))
    ensures Backed(w', ratio)
  {
    match t
    case Produce(i, docs) => ProduceBacks(w, i, docs, w', ratio);
    case Fail(i, how) => FileRemoved(w.files, w.s.segments, w.s.counter + 1, Indexing(ratio));
    case RemoveA(i) => FileRemoved(w.files, w.s.segments, w.s.jobs[i].a, Indexing(ratio));
    case RemoveB(i) => FileRemoved(w.files, w.s.segments, w.s.jobs[i].b, Indexing(ratio));
    case _ =>
  }

  lemma NoFault(s: State<Document>, all: multiset<Document>, t: Step<Document>)
    requires Inv(s, Held(all)) && |all| < MaxDocuments && Can(s, t)
    ensures !t.Fault? && (t.Produce? ==> Ready(s, t.i))
  {
    if t.Fault? {
      NextIsFree(s, Held(all), t.i);
    }
    if t.Produce? {
      PairReady(s, all, t.i);
    }
  }

  /** From names that are free, every step leaves every file an index of its documents. */
  lemma StepBacks(w: Directory, all: multiset<Document>, t: Step<Document>, w': Directory, ratio: Ratio)
    requires Inv(w.s, Held(all)) && |all| < MaxDocuments && Backed(w, ratio) && Next(w, t, w', ratio)
    ensures Backed(w', ratio)
  {
    NoFault(w.s, all, t);
    FilesFollow(w, t, w', ratio);
  }

  /** And so does every run, whatever fails. */
  lemma {:induction false} RunBacks(w: Directory, all: multiset<Document>, steps: seq<Step<Document>>, w': Directory,
                                    ratio: Ratio)
    requires Inv(w.s, Held(all)) && Safe(w.s) && |all| < MaxDocuments && Backed(w, ratio)
    requires Runs(w, steps, w', ratio)
    ensures Backed(w', ratio) && WriterSteps.Runs(w.s, steps, w'.s)
    decreases |steps|
  {
    if steps != [] {
      var u :| Next(w, steps[0], u, ratio) && Runs(u, steps[1..], w', ratio);
      StepBacks(w, all, steps[0], u, ratio);
      StepSafe(w.s, Held(all), steps[0]);
      RunBacks(u, all, steps[1..], w', ratio);
    }
  }

  /** The file holds an index of all the documents there are, each as often as it is there, in some order. */
  ghost predicate HoldsAll(data: bytes, all: multiset<Document>, ratio: Ratio) {
    exists docs :: multiset(docs) == all && Segment(data, docs, ratio)
  }

  /**
   The parallel merge from end to end: from a directory of segments in which no name is in danger, a run without
   failures that has stopped left a single file, and that holds an index of all the documents.
   */
  lemma MergesIntoOne(w: Directory, all: multiset<Document>, steps: seq<Step<Document>>, w': Directory, ratio: Ratio)
    requires Inv(w.s, Held(all)) && w.s.main.Idle? && NamesFree(w.s.segments, w.s.counter) && Backed(w, ratio)
    requires |all| < MaxDocuments && Runs(w, steps, w', ratio) && (forall t :: !Can(w'.s, t))
    requires forall k | 0 <= k < |steps| :: !steps[k].Fail?
    ensures |w'.files| == 1 && forall n | n in w'.files :: HoldsAll(w'.files[n], all, ratio)
  {
    RunBacks(w, all, steps, w', ratio);
    EndsInOne(w.s, Held(all), steps, w'.s);
    LastFile(w', all, ratio);
  }

  /** And whatever fails, the files that are left when it has stopped are indexes of all the documents between them. */
  lemma FilesAtTheEnd(w: Directory, all: multiset<Document>, steps: seq<Step<Document>>, w': Directory, ratio: Ratio)
    requires Inv(w.s, Held(all)) && w.s.main.Idle? && NamesFree(w.s.segments, w.s.counter) && Backed(w, ratio)
    requires |all| < MaxDocuments && Runs(w, steps, w', ratio) && (forall t :: !Can(w'.s, t))
    ensures Backed(w', ratio) && forall d :: Total(w'.s.segments, CountOf(d)) == all[d]
  {
    RunBacks(w, all, steps, w', ratio);
    RunEnds(w.s, Held(all), steps, w'.s);
  }

  lemma LastFile(w: Directory, all: multiset<Document>, ratio: Ratio)
    requires Backed(w, ratio) && |w.s.segments| == 1
    requires forall n, d | n in w.s.segments :: Times(w.s.segments[n], d) == Held(all)(d)
    ensures |w.files| == 1 && forall n | n in w.files :: HoldsAll(w.files[n], all, ratio)
  {
    WriterInvariants.Keys(w.files);
    WriterInvariants.Keys(w.s.segments);
    forall n | n in w.files
      ensures HoldsAll(w.files[n], all, ratio)
    {
      FileHolds(w, n, ratio);
      SameCounts(w.s.segments[n], all);
    }
  }

  lemma SameCounts(docs: seq<Document>, all: multiset<Document>)
    requires forall d :: Times(docs, d) == Held(all)(d)
    ensures multiset(docs) == all
  {
    forall d
      ensures multiset(docs)[d] == all[d]
    {
      assert Times(docs, d) == Held(all)(d);
    }
  }
}
