/** writer.go, `Merge`: what every step of every goroutine keeps. */
module WriterInvariants {
  import opened Totals
  import opened WriterSteps

  ghost function SumJobs<D>(jobs: seq<Job<D>>, f: Job<D> -> nat, n: nat): nat
    requires n <= |jobs|
  {
    if n == 0 then 0 else SumJobs(jobs, f, n - 1) + f(jobs[n - 1])
  }

  lemma {:induction false} SumUpdate<D>(jobs: seq<Job<D>>, f: Job<D> -> nat, n: nat, i: nat, j: Job<D>)
    requires n <= |jobs| && i < |jobs|
    ensures SumJobs(jobs[i := j], f, n) + (if i < n then f(jobs[i]) else 0) == SumJobs(jobs, f, n) + if i < n then f(j)
            else 0
  {
    if n > 0 {
      SumUpdate(jobs, f, n - 1, i, j);
    }
  }

  lemma {:induction false} SumAtLeast<D>(jobs: seq<Job<D>>, f: Job<D> -> nat, n: nat, i: nat)
    requires i < n <= |jobs|
    ensures f(jobs[i]) <= SumJobs(jobs, f, n)
  {
    if i < n - 1 {
      SumAtLeast(jobs, f, n - 1, i);
    }
  }

  ghost function Times<D>(xs: seq<D>, d: D): nat {
    multiset(xs)[d]
  }

  ghost function CountOf<D>(d: D): seq<D> -> nat {
    (xs: seq<D>) => Times(xs, d)
  }

  /** Documents of a job, as they were listed. */
  ghost function Base<D>(d: D): Job<D> -> nat {
    (j: Job<D>) => Times(j.da, d) + Times(j.db, d)
  }

  /**
   Documents of a job that are in the directory now: twice while the merged segment and its sources are both there.
   */
  ghost function Live<D>(d: D): Job<D> -> nat {
    (j: Job<D>) =>
      if j.phase.Produced? then Times(j.da + j.db, d) + Times(j.da, d) + Times(j.db, d)
      else if j.phase.HalfRemoved? then Times(j.da + j.db, d) + Times(j.db, d)
      else if j.phase.Merged? then Times(j.da + j.db, d)
      else Times(j.da, d) + Times(j.db, d)
  }

  /** Segments of a job that are in the directory now. */
  ghost function Files<D>(): Job<D> -> nat {
    (j: Job<D>) =>
      if j.phase.Produced? then 3 else if j.phase.HalfRemoved? then 2 else if j.phase.Merged? then 1
          else if j.pair then 2 else 1
  }

  ghost function Busy<D>(): Job<D> -> nat {
    (j: Job<D>) => if Active(j) then 1 else 0
  }

  ghost function Broken<D>(): Job<D> -> nat {
    (j: Job<D>) => if j.phase.Failed? then 1 else 0
  }

  ghost function Pairs<D>(): Job<D> -> nat {
    (j: Job<D>) => if j.pair then 1 else 0
  }

  /** Pairs that have not drawn a name for their output yet. */
  ghost function Undrawn<D>(): Job<D> -> nat {
    (j: Job<D>) => if j.pair && (j.phase.Waiting? || j.phase.Running? || j.phase.Loaded?) then 1 else 0
  }

  ghost predicate HasOut<D>(j: Job<D>) {
    j.phase.Produced? || j.phase.HalfRemoved? || j.phase.Merged?
  }

  /** The names a job may touch. */
  ghost function Names<D>(j: Job<D>): set<nat> {
    {j.a, j.b} + if HasOut(j) then {j.out} else {}
  }

  /** Those of its segments that are in the directory. */
  ghost function LiveNames<D>(j: Job<D>): set<nat> {
    match j.phase
    case Produced => {j.a, j.b, j.out}
    case HalfRemoved => {j.b, j.out}
    case Merged => {j.out}
    case _ => {j.a, j.b}
  }

  ghost predicate Holds<D(!new)>(segments: map<nat, seq<D>>, name: nat, docs: seq<D>) {
    name in segments && segments[name] == docs
  }

  /** What of a job is in the directory. */
  ghost predicate JobOk<D(!new)>(segments: map<nat, seq<D>>, j: Job<D>) {
    && (j.pair ==> j.a != j.b)
    && (!j.pair ==> j.db == [] && j.b == j.a && (j.phase.Waiting? || j.phase.Running? || j.phase.Skipped?))
    && (j.pair ==> !j.phase.Skipped?)
    && match j.phase
       case Produced => Holds(segments, j.a, j.da) && Holds(segments, j.b, j.db) && Holds(segments, j.out, j.da + j.db)
                        && j.out != j.a && j.out != j.b
       case HalfRemoved => Holds(segments, j.b, j.db) && Holds(segments, j.out, j.da + j.db) && j.out != j.b
       case Merged => Holds(segments, j.out, j.da + j.db)
       case _ => Holds(segments, j.a, j.da) && (j.pair ==> Holds(segments, j.b, j.db))
  }

  ghost predicate Apart<D>(jobs: seq<Job<D>>, i: nat, j: nat)
    requires i < |jobs| && j < |jobs|
  {
    Names(jobs[i]) !! Names(jobs[j])
  }

  ghost predicate NamesApart<D>(jobs: seq<Job<D>>) {
    forall i: nat, j: nat {:trigger Apart(jobs, i, j)} | i < j < |jobs| :: Apart(jobs, i, j)
  }

  /** No name lies among the `n` that are drawn next. */
  ghost predicate Clear(names: set<nat>, counter: nat, n: nat) {
    forall x | x in names :: !(counter < x <= counter + n)
  }

  ghost predicate OutDrawn<D>(j: Job<D>, counter: nat) {
    HasOut(j) ==> j.out <= counter
  }

  ghost predicate OwnedBy<D>(jobs: seq<Job<D>>, n: nat, i: nat) {
    i < |jobs| && n in LiveNames(jobs[i])
  }

  ghost predicate HasOwner<D>(jobs: seq<Job<D>>, n: nat) {
    exists i :: OwnedBy(jobs, n, i)
  }

  /** Every segment belongs to a job. */
  ghost predicate Owned<D>(segments: map<nat, seq<D>>, jobs: seq<Job<D>>) {
    forall n {:trigger HasOwner(jobs, n)} | n in segments :: HasOwner(jobs, n)
  }

  /** How many names can still be drawn. */
  ghost function Ahead<D>(jobs: seq<Job<D>>): nat {
    SumJobs(jobs, Undrawn(), |jobs|)
  }

  /** Job i is as the directory has it, and none of its names is about to be drawn. */
  ghost predicate JobIn<D(!new)>(s: State<D>, i: nat, ahead: nat)
    requires i < |s.jobs|
  {
    && (s.jobs[i].phase.Waiting? <==> i >= s.next) && (s.jobs[i].pair <==> 2 * i + 1 < s.start)
    && JobOk(s.segments, s.jobs[i]) && OutDrawn(s.jobs[i], s.counter) && Clear(Names(s.jobs[i]), s.counter, ahead)
  }

  ghost predicate JobsIn<D(!new)>(s: State<D>, ahead: nat) {
    forall i: nat {:trigger JobIn(s, i, ahead)} | i < |s.jobs| :: JobIn(s, i, ahead)
  }

  /**
   The structure of a round: dispatched up to `next`, every job in order, no name shared, no segment without a job.
   */
  ghost predicate Shaped<D(!new)>(s: State<D>) {
    s.next <= |s.jobs| == (s.start + 1) / 2 && JobsIn(s, Ahead(s.jobs)) && NamesApart(s.jobs)
        && Owned(s.segments, s.jobs)
  }

  /** The numbers of a round add up. */
  ghost predicate Counted<D(!new)>(s: State<D>, base: D -> nat) {
    var n := |s.jobs|;
    && s.tokens + SumJobs(s.jobs, Busy(), n) == s.workers
    && s.errors + s.collected == SumJobs(s.jobs, Broken(), n)
    && SumJobs(s.jobs, Pairs(), n) == s.start / 2
    && |s.segments| == SumJobs(s.jobs, Files(), n)
    && (forall d :: SumJobs(s.jobs, Base(d), n) == base(d))
    && (forall d :: Total(s.segments, CountOf(d)) == SumJobs(s.jobs, Live(d), n))
  }

  /** Holds in every state of every run: worker tokens, error counts, file counts and documents all add up. */
  ghost predicate Inv<D(!new)>(s: State<D>, base: D -> nat) {
    && s.workers >= 1 && !s.main.Crashed? && s.cut == {}
    && (if s.main.Round? then Shaped(s) && Counted(s, base)
        else s.tokens == s.workers && forall d :: Total(s.segments, CountOf(d)) == base(d))
    && (s.main == Finished(true) ==> |s.segments| == 1)
  }

  /** The names of a round are free when it is listed. */
  ghost predicate RoundFree<D>(segments: map<nat, seq<D>>, counter: nat) {
    Clear(segments.Keys, counter, |segments| / 2)
  }

  /** How the sums change with one job. */
  lemma Sums<D(!new)>(jobs: seq<Job<D>>, i: nat, j: Job<D>)
    requires i < |jobs|
    ensures var n, jobs', was := |jobs|, jobs[i := j], jobs[i];
            && SumJobs(jobs', Busy(), n) + Busy<D>()(was) == SumJobs(jobs, Busy(), n) + Busy<D>()(j)
            && SumJobs(jobs', Broken(), n) + Broken<D>()(was) == SumJobs(jobs, Broken(), n) + Broken<D>()(j)
            && SumJobs(jobs', Pairs(), n) + Pairs<D>()(was) == SumJobs(jobs, Pairs(), n) + Pairs<D>()(j)
            && SumJobs(jobs', Files(), n) + Files<D>()(was) == SumJobs(jobs, Files(), n) + Files<D>()(j)
            && (forall d :: SumJobs(jobs', Base(d), n) + Base(d)(was) == SumJobs(jobs, Base(d), n) + Base(d)(j))
            && (forall d :: SumJobs(jobs', Live(d), n) + Live(d)(was) == SumJobs(jobs, Live(d), n) + Live(d)(j))
  {
    SumUpdate(jobs, Busy(), |jobs|, i, j);
    SumUpdate(jobs, Broken(), |jobs|, i, j);
    SumUpdate(jobs, Pairs(), |jobs|, i, j);
    SumUpdate(jobs, Files(), |jobs|, i, j);
    forall d
      ensures SumJobs(jobs[i := j], Base(d), |jobs|) + Base(d)(jobs[i]) == SumJobs(jobs, Base(d), |jobs|) + Base(d)(j)
    {
      SumUpdate(jobs, Base(d), |jobs|, i, j);
    }
    forall d
      ensures SumJobs(jobs[i := j], Live(d), |jobs|) + Live(d)(jobs[i]) == SumJobs(jobs, Live(d), |jobs|) + Live(d)(j)
    {
      SumUpdate(jobs, Live(d), |jobs|, i, j);
    }
  }

  /** One job moves on with its sources; the numbers follow. */
  lemma CountsKept<D(!new)>(s: State<D>, s': State<D>, base: D -> nat, i: nat, j: Job<D>)
    requires Counted(s, base) && i < |s.jobs| && s'.jobs == s.jobs[i := j] && s'.start == s.start
    requires s'.workers == s.workers
    requires j.pair == s.jobs[i].pair && j.da == s.jobs[i].da && j.db == s.jobs[i].db && s'.collected == s.collected
    requires s'.tokens + Busy<D>()(j) == s.tokens + Busy<D>()(s.jobs[i])
    requires s'.errors + Broken<D>()(s.jobs[i]) == s.errors + Broken<D>()(j)
    requires |s'.segments| + Files<D>()(s.jobs[i]) == |s.segments| + Files<D>()(j)
    requires forall d ::
             Total(s'.segments, CountOf(d)) + Live(d)(s.jobs[i]) == Total(s.segments, CountOf(d)) + Live(d)(j)
    ensures Counted(s', base)
  {
    Sums(s.jobs, i, j);
  }

  lemma JobsApart<D>(jobs: seq<Job<D>>, i: nat, k: nat)
    requires NamesApart(jobs) && i < |jobs| && k < |jobs| && i != k
    ensures Names(jobs[i]) !! Names(jobs[k])
  {
    assert i < k ==> Apart(jobs, i, k);
    assert k < i ==> Apart(jobs, k, i);
  }

  /** The directory changed under one name only. */
  ghost predicate Differs<D(!new)>(segments: map<nat, seq<D>>, segments': map<nat, seq<D>>, key: nat) {
    forall n | n != key :: (n in segments' <==> n in segments) && (n in segments ==> segments'[n] == segments[n])
  }

  lemma OtherJob<D(!new)>(segments: map<nat, seq<D>>, segments': map<nat, seq<D>>, key: nat, j: Job<D>)
    requires JobOk(segments, j) && Differs(segments, segments', key) && key !in Names(j)
    ensures JobOk(segments', j)
  {
  }

  /** What the shape says of one job. */
  lemma ShapedAt<D(!new)>(s: State<D>, i: nat)
    requires Shaped(s) && i < |s.jobs|
    ensures JobIn(s, i, Ahead(s.jobs))
  {
  }

  /** The names that a job may come to touch by one step: its own, and the next one if it draws. */
  ghost predicate Touches<D(!new)>(s: State<D>, s': State<D>, i: nat, j: Job<D>, key: nat)
    requires i < |s.jobs|
  {
    && (forall n | n in Names(j) :: n in Names(s.jobs[i]) || (n == s.counter + 1 && s'.counter == n))
    && (key in Names(s.jobs[i]) || (key == s.counter + 1 && s'.counter == key))
    && s.counter <= s'.counter <= s.counter + 1
    && s'.counter + Undrawn<D>()(j) <= s.counter + Undrawn<D>()(s.jobs[i])
  }

  /** After a draw there are fewer names ahead. */
  lemma UndrawnKept<D(!new)>(s: State<D>, s': State<D>, i: nat, j: Job<D>, key: nat)
    requires i < |s.jobs| && s'.jobs == s.jobs[i := j] && Touches(s, s', i, j, key)
    ensures s'.counter + Ahead(s'.jobs) <= s.counter + Ahead(s.jobs)
    ensures s'.counter > s.counter ==> Ahead(s.jobs) > 0
  {
    SumUpdate(s.jobs, Undrawn(), |s.jobs|, i, j);
    SumAtLeast(s.jobs, Undrawn(), |s.jobs|, i);
  }

  lemma ClearKept(names: set<nat>, names': set<nat>, counter: nat, n: nat, counter': nat, n': nat)
    requires Clear(names, counter, n) && counter <= counter' && counter' + n' <= counter + n
    requires forall x | x in names' :: x in names || x <= counter'
    ensures Clear(names', counter', n')
  {
  }

  lemma OwnedKept<D(!new)>(s: State<D>, s': State<D>, i: nat, j: Job<D>, key: nat)
    requires Owned(s.segments, s.jobs) && i < |s.jobs| && s'.jobs == s.jobs[i := j]
    requires Differs(s.segments, s'.segments, key)
    requires forall n | n in s'.segments && (n in LiveNames(s.jobs[i]) || n == key) :: n in LiveNames(j)
    ensures Owned(s'.segments, s'.jobs)
  {
    forall n | n in s'.segments
      ensures HasOwner(s'.jobs, n)
    {
      if n == key || n in LiveNames(s.jobs[i]) {
        assert OwnedBy(s'.jobs, n, i);
      } else {
        assert HasOwner(s.jobs, n);
        var k :| OwnedBy(s.jobs, n, k);
        assert OwnedBy(s'.jobs, n, k);
      }
    }
  }

  /** No other job has the key, nor any name that is new to this one. */
  lemma KeyApart<D(!new)>(s: State<D>, s': State<D>, i: nat, j: Job<D>, key: nat, k: nat)
    requires Shaped(s) && i < |s.jobs| && s'.jobs == s.jobs[i := j] && Touches(s, s', i, j, key) && k < |s.jobs|
    requires k != i
    ensures key !in Names(s.jobs[k]) && Names(j) !! Names(s.jobs[k])
  {
    JobsApart(s.jobs, i, k);
    UndrawnKept(s, s', i, j, key);
    ShapedAt(s, k);
  }

  lemma ApartKept<D(!new)>(s: State<D>, s': State<D>, i: nat, j: Job<D>, key: nat)
    requires Shaped(s) && i < |s.jobs| && s'.jobs == s.jobs[i := j] && Touches(s, s', i, j, key)
    ensures NamesApart(s'.jobs)
  {
    forall k: nat, l: nat | k < l < |s'.jobs|
      ensures Apart(s'.jobs, k, l)
    {
      if k == i {
        KeyApart(s, s', i, j, key, l);
      } else if l == i {
        KeyApart(s, s', i, j, key, k);
      } else {
        JobsApart(s.jobs, k, l);
      }
    }
  }

  lemma JobKept<D(!new)>(s: State<D>, s': State<D>, i: nat, j: Job<D>, key: nat, k: nat)
    requires Shaped(s) && i < |s.jobs| && s'.jobs == s.jobs[i := j] && Touches(s, s', i, j, key) && k < |s.jobs|
    requires JobOk(s'.segments, j) && OutDrawn(j, s'.counter) && Differs(s.segments, s'.segments, key)
    ensures JobOk(s'.segments, s'.jobs[k]) && OutDrawn(s'.jobs[k], s'.counter)
    ensures Clear(Names(s'.jobs[k]), s'.counter, Ahead(s'.jobs))
  {
    ShapedAt(s, k);
    UndrawnKept(s, s', i, j, key);
    if k != i {
      KeyApart(s, s', i, j, key, k);
      OtherJob(s.segments, s'.segments, key, s.jobs[k]);
    }
    ClearKept(Names(s.jobs[k]), Names(s'.jobs[k]), s.counter, Ahead(s.jobs), s'.counter, Ahead(s'.jobs));
  }

  /** One job moves on: the others are as they were, and so is the shape. */
  lemma ShapeKept<D(!new)>(s: State<D>, s': State<D>, i: nat, j: Job<D>, key: nat)
    requires Shaped(s) && i < |s.jobs| && s'.jobs == s.jobs[i := j] && s'.next <= |s.jobs| && s'.start == s.start
    requires (s'.next == s.next || (s'.next == s.next + 1 && i == s.next)) && (j.phase.Waiting? <==> i >= s'.next)
    requires j.pair == s.jobs[i].pair && JobOk(s'.segments, j) && OutDrawn(j, s'.counter)
    requires Touches(s, s', i, j, key) && Differs(s.segments, s'.segments, key)
    requires forall n | n in s'.segments && (n in LiveNames(s.jobs[i]) || n == key) :: n in LiveNames(j)
    ensures Shaped(s')
  {
    forall k: nat | k < |s'.jobs|
      ensures JobIn(s', k, Ahead(s'.jobs))
    {
      ShapedAt(s, k);
      JobKept(s, s', i, j, key, k);
    }
    ApartKept(s, s', i, j, key);
    OwnedKept(s, s', i, j, key);
  }

  lemma Joined<D>(xs: seq<D>, ys: seq<D>, d: D)
    ensures Times(xs + ys, d) == Times(xs, d) + Times(ys, d)
  {
  }

  lemma FileAdded<D(!new)>(segments: map<nat, seq<D>>, out: nat, docs: seq<D>)
    requires out !in segments
    ensures |segments[out := docs]| == |segments| + 1
    ensures forall d :: Total(segments[out := docs], CountOf(d)) == Total(segments, CountOf(d)) + Times(docs, d)
  {
    assert segments[out := docs].Keys == segments.Keys + {out};
    Keys(segments);
    Keys(segments[out := docs]);
    forall d
      ensures Total(segments[out := docs], CountOf(d)) == Total(segments, CountOf(d)) + Times(docs, d)
    {
      TotalUpdate(segments, CountOf(d), out, docs);
    }
  }

  lemma FileRemoved<D(!new)>(segments: map<nat, seq<D>>, name: nat)
    requires name in segments
    ensures |segments - {name}| == |segments| - 1
    ensures forall d :: Total(segments - {name}, CountOf(d)) == Total(segments, CountOf(d)) - Times(segments[name], d)
  {
    assert (segments - {name}).Keys == segments.Keys - {name};
    Keys(segments);
    Keys(segments - {name});
    forall d
      ensures Total(segments - {name}, CountOf(d)) == Total(segments, CountOf(d)) - Times(segments[name], d)
    {
      TotalWithout(segments, CountOf(d), name);
    }
  }

  lemma Keys<K, V>(m: map<K, V>)
    ensures |m| == |m.Keys|
  {
  }

  lemma Started<D(!new)>(s: State<D>, base: D -> nat, i: nat)
    requires Inv(s, base) && InRound(s, i)
    ensures Shaped(s) && Counted(s, base) && JobIn(s, i, Ahead(s.jobs))
  {
    ShapedAt(s, i);
  }

  lemma NextNotNamed<D(!new)>(s: State<D>, i: nat, k: nat)
    requires Shaped(s) && i < |s.jobs| && Undrawn<D>()(s.jobs[i]) == 1 && k < |s.jobs|
    ensures s.counter + 1 !in Names(s.jobs[k]) && s.counter + 1 !in LiveNames(s.jobs[k])
  {
    ShapedAt(s, k);
    SumAtLeast(s.jobs, Undrawn(), |s.jobs|, i);
  }

  /** While a pair has not drawn, the next name is nobody's: it is not in the directory, and not mapped. */
  lemma NextIsFree<D(!new)>(s: State<D>, base: D -> nat, i: nat)
    requires Inv(s, base) && InRound(s, i) && s.jobs[i].phase.Loaded?
    ensures s.counter + 1 !in s.segments && Readers(s, s.counter + 1) == {} && s.counter + 1 !in Names(s.jobs[i])
    ensures !CutOff(s, i)
  {
    ShapedAt(s, i);
    forall k: nat | k < |s.jobs|
      ensures s.counter + 1 !in Names(s.jobs[k]) && !OwnedBy(s.jobs, s.counter + 1, k)
    {
      NextNotNamed(s, i, k);
    }
    assert !HasOwner(s.jobs, s.counter + 1);
  }

  lemma SkipKeeps<D(!new)>(s: State<D>, base: D -> nat, i: nat)
    requires Inv(s, base) && Can(s, Skip(i))
    ensures Inv(Apply(s, Skip(i)), base)
  {
    var s', j := Apply(s, Skip(i)), s.jobs[i].(phase := Skipped);
    Started(s, base, i);
    ShapeKept(s, s', i, j, s.jobs[i].a);
    CountsKept(s, s', base, i, j);
  }

  lemma LoadKeeps<D(!new)>(s: State<D>, base: D -> nat, i: nat)
    requires Inv(s, base) && Can(s, Load(i))
    ensures Inv(Apply(s, Load(i)), base)
  {
    var s', j := Apply(s, Load(i)), s.jobs[i].(phase := Loaded);
    Started(s, base, i);
    assert s'.jobs == s.jobs[i := j];
    ShapeKept(s, s', i, j, s.jobs[i].a);
    CountsKept(s, s', base, i, j);
  }

  lemma FailMoves<D(!new)>(s: State<D>, s': State<D>, base: D -> nat, i: nat, drawn: nat)
    requires Inv(s, base) && InRound(s, i) && s.jobs[i].pair && (s.jobs[i].phase.Running? || s.jobs[i].phase.Loaded?)
    requires drawn <= 1
    requires s' == s.(jobs := s.jobs[i := s.jobs[i].(phase := Failed)], errors := s.errors + 1, tokens := s.tokens + 1,
                      counter := s.counter + drawn)
    ensures Inv(s', base)
  {
    var j := s.jobs[i].(phase := Failed);
    Started(s, base, i);
    ShapeKept(s, s', i, j, s.jobs[i].a);
    CountsKept(s, s', base, i, j);
  }

  /** A pair that fails leaves the directory as it is: the output it may have created is removed again. */
  lemma FailLeaves<D(!new)>(s: State<D>, i: nat, how: Failure)
    requires Can(s, Fail(i, how))
    requires how.MergeFails? ==> s.counter + 1 !in s.segments && Readers(s, s.counter + 1) == {}
    ensures Apply(s, Fail(i, how)).segments == s.segments && Apply(s, Fail(i, how)).cut == s.cut
  {
  }

  lemma FailKeeps<D(!new)>(s: State<D>, base: D -> nat, i: nat, how: Failure)
    requires Inv(s, base) && Can(s, Fail(i, how))
    ensures Inv(Apply(s, Fail(i, how)), base)
  {
    if how.MergeFails? {
      NextIsFree(s, base, i);
    }
    FailLeaves(s, i, how);
    FailMoves(s, Apply(s, Fail(i, how)), base, i, if how.LoadFails? then 0 else 1);
  }

  lemma ProduceKeeps<D(!new)>(s: State<D>, base: D -> nat, i: nat, docs: seq<D>)
    requires Inv(s, base) && Can(s, Produce(i, docs))
    ensures Inv(Apply(s, Produce(i, docs)), base)
  {
    var s', out := Apply(s, Produce(i, docs)), s.counter + 1;
    var j := s.jobs[i].(phase := Produced, out := out);
    Started(s, base, i);
    NextIsFree(s, base, i);
    ShapeKept(s, s', i, j, out);
    FileAdded(s.segments, out, j.da + j.db);
    CountsKept(s, s', base, i, j);
  }

  lemma RemoveAKeeps<D(!new)>(s: State<D>, base: D -> nat, i: nat)
    requires Inv(s, base) && Can(s, RemoveA(i))
    ensures Inv(Apply(s, RemoveA(i)), base)
  {
    var s', j := Apply(s, RemoveA(i)), s.jobs[i].(phase := HalfRemoved);
    Started(s, base, i);
    ShapeKept(s, s', i, j, j.a);
    FileRemoved(s.segments, j.a);
    CountsKept(s, s', base, i, j);
  }

  lemma RemoveBKeeps<D(!new)>(s: State<D>, base: D -> nat, i: nat)
    requires Inv(s, base) && Can(s, RemoveB(i))
    ensures Inv(Apply(s, RemoveB(i)), base)
  {
    var s', j := Apply(s, RemoveB(i)), s.jobs[i].(phase := Merged);
    Started(s, base, i);
    ShapeKept(s, s', i, j, j.b);
    FileRemoved(s.segments, j.b);
    CountsKept(s, s', base, i, j);
  }

  lemma DispatchKeeps<D(!new)>(s: State<D>, base: D -> nat)
    requires Inv(s, base) && Can(s, Dispatch)
    ensures Inv(Apply(s, Dispatch), base)
  {
    var s', i := Apply(s, Dispatch), s.next;
    var j := s.jobs[i].(phase := Running);
    Started(s, base, i);
    ShapeKept(s, s', i, j, j.a);
    CountsKept(s, s', base, i, j);
  }

  lemma CollectKeeps<D(!new)>(s: State<D>, base: D -> nat)
    requires Inv(s, base) && Can(s, Collect)
    ensures Inv(Apply(s, Collect), base)
  {
    var s' := Apply(s, Collect);
    forall i: nat | i < |s'.jobs|
      ensures JobIn(s', i, Ahead(s'.jobs))
    {
      ShapedAt(s, i);
    }
  }

  lemma {:induction false} NothingBusy<D>(jobs: seq<Job<D>>, n: nat)
    requires n <= |jobs| && forall i | 0 <= i < n :: Done(jobs[i])
    ensures SumJobs(jobs, Busy(), n) == 0 && SumJobs(jobs, Undrawn(), n) == 0
  {
    if n > 0 {
      NothingBusy(jobs, n - 1);
    }
  }

  lemma EndKeeps<D(!new)>(s: State<D>, base: D -> nat)
    requires Inv(s, base) && Can(s, EndRound)
    ensures Inv(Apply(s, EndRound), base)
  {
    NothingBusy(s.jobs, |s.jobs|);
    forall d
      ensures Total(s.segments, CountOf(d)) == base(d)
    {
      LiveIsBase(s.jobs, |s.jobs|, d);
    }
  }

  /**
   When every job is done, each document is in the directory as often as it was listed: merged, or left where it was.
   */
  lemma {:induction false} LiveIsBase<D>(jobs: seq<Job<D>>, n: nat, d: D)
    requires n <= |jobs| && forall i | 0 <= i < n :: Done(jobs[i])
    ensures SumJobs(jobs, Live(d), n) == SumJobs(jobs, Base(d), n)
  {
    if n > 0 {
      LiveIsBase(jobs, n - 1, d);
      Joined(jobs[n - 1].da, jobs[n - 1].db, d);
    }
  }

  ghost function Upto(order: seq<nat>, k: nat): nat {
    if 2 * k <= |order| then 2 * k else |order|
  }

  lemma {:induction false} ChunkFiles<D>(segments: map<nat, seq<D>>, order: seq<nat>, k: nat)
    requires (forall i | 0 <= i < |order| :: order[i] in segments) && k <= (|order| + 1) / 2
    ensures var jobs := Jobs(segments, order);
            && SumJobs(jobs, Files(), k) == Upto(order, k) && SumJobs(jobs, Pairs(), k) == Upto(order, k) / 2
            && SumJobs(jobs, Busy(), k) == 0 && SumJobs(jobs, Broken(), k) == 0
            && SumJobs(jobs, Undrawn(), k) == Upto(order, k) / 2
  {
    if k > 0 {
      ChunkFiles(segments, order, k - 1);
    }
  }

  lemma ChunkNext<D>(segments: map<nat, seq<D>>, order: seq<nat>, job: Job<D>, k: nat, d: D)
    requires (forall i | 0 <= i < |order| :: order[i] in segments) && k < (|order| + 1) / 2
    requires job == JobAt(segments, order, k)
    ensures Base(d)(job) == Live(d)(job)
    ensures SumAlong(order, Upto(order, k), segments, CountOf(d)) + Base(d)(job)
            == SumAlong(order, Upto(order, k + 1), segments, CountOf(d))
  {
    if 2 * k + 1 < |order| {
      assert SumAlong(order, 2 * k + 1, segments, CountOf(d))
          == SumAlong(order, 2 * k, segments, CountOf(d)) + Times(segments[order[2 * k]], d);
    }
  }

  lemma {:induction false} ChunkDocuments<D>(segments: map<nat, seq<D>>, order: seq<nat>, jobs: seq<Job<D>>, k: nat,
                                             d: D)
    requires (forall i | 0 <= i < |order| :: order[i] in segments) && k <= (|order| + 1) / 2 == |jobs|
    requires forall i | 0 <= i < |jobs| :: jobs[i] == JobAt(segments, order, i)
    ensures SumJobs(jobs, Base(d), k) == SumJobs(jobs, Live(d), k)
            == SumAlong(order, Upto(order, k), segments, CountOf(d))
  {
    if k > 0 {
      ChunkDocuments(segments, order, jobs, k - 1, d);
      ChunkNext(segments, order, jobs[k - 1], k - 1, d);
    }
  }

  lemma ChunkOwned<D(!new)>(segments: map<nat, seq<D>>, order: seq<nat>)
    requires Enumerates(order, segments.Keys)
    ensures Owned(segments, Jobs(segments, order))
  {
    var jobs := Jobs(segments, order);
    forall n | n in segments
      ensures HasOwner(jobs, n)
    {
      var k :| 0 <= k < |order| && order[k] == n;
      assert OwnedBy(jobs, n, k / 2);
    }
  }

  lemma ChunkApart<D(!new)>(segments: map<nat, seq<D>>, order: seq<nat>)
    requires Enumerates(order, segments.Keys)
    ensures NamesApart(Jobs(segments, order))
  {
    var jobs := Jobs(segments, order);
    forall i: nat, j: nat | i < j < |jobs|
      ensures Apart(jobs, i, j)
    {
    }
  }

  lemma ChunkJob<D(!new)>(segments: map<nat, seq<D>>, order: seq<nat>, i: nat)
    requires Enumerates(order, segments.Keys) && i < (|order| + 1) / 2
    ensures var j := Jobs(segments, order)[i];
            JobOk(segments, j) && j.phase.Waiting? && (j.pair <==> 2 * i + 1 < |order|) && Names(j) <= segments.Keys
  {
  }

  lemma ChunkShaped<D(!new)>(s: State<D>, s': State<D>, order: seq<nat>)
    requires Enumerates(order, s.segments.Keys) && Clear(s.segments.Keys, s.counter, |order| / 2)
    requires s'.jobs == Jobs(s.segments, order) && s'.next == 0 && s'.start == |order| && s'.segments == s.segments
    requires s'.counter == s.counter
    ensures Shaped(s')
  {
    ChunkFiles(s.segments, order, |s'.jobs|);
    ChunkOwned(s.segments, order);
    ChunkApart(s.segments, order);
    forall i: nat | i < |s'.jobs|
      ensures JobIn(s', i, Ahead(s'.jobs))
    {
      ChunkJob(s.segments, order, i);
    }
  }

  lemma ChunkCounted<D(!new)>(s: State<D>, order: seq<nat>, base: D -> nat)
    requires Enumerates(order, s.segments.Keys) && forall d :: Total(s.segments, CountOf(d)) == base(d)
    ensures var jobs, n := Jobs(s.segments, order), (|order| + 1) / 2;
            && SumJobs(jobs, Busy(), n) == 0 && SumJobs(jobs, Broken(), n) == 0
            && SumJobs(jobs, Pairs(), n) == |order| / 2
            && |s.segments| == |order| == SumJobs(jobs, Files(), n)
            && (forall d :: SumJobs(jobs, Base(d), n) == base(d) == SumJobs(jobs, Live(d), n))
  {
    var n := (|order| + 1) / 2;
    ChunkFiles(s.segments, order, n);
    EnumerationLength(order, s.segments.Keys);
    Keys(s.segments);
    forall d
      ensures SumJobs(Jobs(s.segments, order), Base(d), n) == base(d) == SumJobs(Jobs(s.segments, order), Live(d), n)
    {
      ChunkDocuments(s.segments, order, Jobs(s.segments, order), n, d);
      SumAlongTotal(order, s.segments, CountOf(d));
    }
  }

  lemma ListKeeps<D(!new)>(s: State<D>, base: D -> nat, order: seq<nat>)
    requires Inv(s, base) && Can(s, List(order)) && RoundFree(s.segments, s.counter)
    ensures Inv(Apply(s, List(order)), base)
  {
    ChunkCounted(s, order, base);
    if |order| != 1 {
      ChunkShaped(s, Apply(s, List(order)), order);
    }
  }

  /** Every step of every goroutine keeps the invariant, as long as rounds start with their names free. */
  lemma StepKeeps<D(!new)>(s: State<D>, base: D -> nat, t: Step<D>)
    requires Inv(s, base) && Can(s, t) && (t.List? ==> RoundFree(s.segments, s.counter))
    ensures Inv(Apply(s, t), base)
  {
    match t
    case List(order) => ListKeeps(s, base, order);
    case Dispatch => DispatchKeeps(s, base);
    case Skip(i) => SkipKeeps(s, base, i);
    case Load(i) => LoadKeeps(s, base, i);
    case Fail(i, how) => FailKeeps(s, base, i, how);
    case Produce(i, docs) => ProduceKeeps(s, base, i, docs);
    case Fault(i) => NextIsFree(s, base, i);
    case RemoveA(i) => RemoveAKeeps(s, base, i);
    case RemoveB(i) => RemoveBKeeps(s, base, i);
    case Collect => CollectKeeps(s, base);
    case EndRound => EndKeeps(s, base);
  }
}
