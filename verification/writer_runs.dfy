/** writer.go, `Merge`: what holds of whole runs, and for which directories. */
module WriterMerge {
  import opened Totals
  import opened WriterSteps
  import opened WriterInvariants

  /**
   How many names are drawn before the last of `n` segments is sure to be merged: it stays alone while the number is
   odd.
   */
  ghost function Reach(n: nat): nat {
    if n < 2 then 0 else if n % 2 == 0 then n / 2 else n / 2 + Reach(n / 2 + 1)
  }

  ghost predicate Largest<D>(segments: map<nat, seq<D>>, name: nat) {
    name in segments && forall n | n in segments :: n <= name
  }

  /**
   A name that will be drawn while its segment may still be there: any name of the first round, and for the last of an
   odd number of segments any name up to the round that merges it.
   */
  ghost predicate Endangered<D>(segments: map<nat, seq<D>>, counter: nat, name: nat) {
    && name in segments && counter < name
    && (name <= counter + |segments| / 2
        || (|segments| % 2 == 1 && Largest(segments, name) && name <= counter + Reach(|segments|)))
  }

  ghost predicate NamesFree<D>(segments: map<nat, seq<D>>, counter: nat) {
    forall n {:trigger Endangered(segments, counter, n)} | n in segments :: !Endangered(segments, counter, n)
  }

  lemma FreeRound<D>(segments: map<nat, seq<D>>, counter: nat)
    requires NamesFree(segments, counter)
    ensures RoundFree(segments, counter)
  {
    forall n | n in segments.Keys
      ensures !(counter < n <= counter + |segments| / 2)
    {
      assert !Endangered(segments, counter, n);
    }
  }

  /** The segment left over in a round of an odd number stays clear of all names that are drawn before it is merged. */
  ghost predicate LeftoverFree<D>(s: State<D>) {
    s.start % 2 == 1 && s.jobs != []
    ==> Clear({s.jobs[|s.jobs| - 1].a}, s.counter, Ahead(s.jobs) + Reach(s.start / 2 + 1))
  }

  /** No name that will be drawn is taken when it is drawn. */
  ghost predicate Safe<D>(s: State<D>) {
    match s.main
    case Idle => NamesFree(s.segments, s.counter)
    case Round => LeftoverFree(s) && s.start != 1
    case _ => true
  }

  lemma LastIsLargest<D>(segments: map<nat, seq<D>>, order: seq<nat>)
    requires Listed(order, segments) && order != []
    ensures Largest(segments, order[|order| - 1])
  {
    forall x | x in segments
      ensures x <= order[|order| - 1]
    {
      var k :| 0 <= k < |order| && order[k] == x;
    }
  }

  lemma LastJob<D>(segments: map<nat, seq<D>>, order: seq<nat>)
    requires (forall i | 0 <= i < |order| :: order[i] in segments) && |order| % 2 == 1
    ensures var jobs, left := Jobs(segments, order), order[|order| - 1];
            && |jobs| == |order| / 2 + 1 && jobs[|jobs| - 1].a == left && jobs[|jobs| - 1].da == segments[left]
  {
  }

  lemma ListSafe<D(!new)>(s: State<D>, base: D -> nat, order: seq<nat>)
    requires NamesFree(s.segments, s.counter) && Can(s, List(order))
    ensures Safe(Apply(s, List(order)))
  {
    if |order| > 1 && |order| % 2 == 1 {
      LastIsSafe(s.segments, s.counter, order);
      LastJob(s.segments, order);
      ChunkFiles(s.segments, order, (|order| + 1) / 2);
    }
  }

  lemma LastIsSafe<D>(segments: map<nat, seq<D>>, counter: nat, order: seq<nat>)
    requires NamesFree(segments, counter) && Listed(order, segments) && |order| > 1 && |order| % 2 == 1
    ensures Clear({order[|order| - 1]}, counter, |order| / 2 + Reach(|order| / 2 + 1))
  {
    EnumerationLength(order, segments.Keys);
    Keys(segments);
    LastIsLargest(segments, order);
    assert !Endangered(segments, counter, order[|order| - 1]);
  }

  /** Within a round the names ahead only become fewer. */
  lemma RoundSafe<D(!new)>(s: State<D>, s': State<D>, i: nat, j: Job<D>)
    requires LeftoverFree(s) && s.start != 1 && s'.start == s.start && i < |s.jobs| && s'.jobs == s.jobs[i := j]
    requires j.a == s.jobs[i].a
    requires s.counter <= s'.counter && s'.counter + Undrawn<D>()(j) <= s.counter + Undrawn<D>()(s.jobs[i])
    ensures LeftoverFree(s')
  {
    SumUpdate(s.jobs, Undrawn(), |s.jobs|, i, j);
  }

  /** After a round without failures every segment is new, but for one left over. */
  lemma KeysAfterRound<D(!new)>(s: State<D>, base: D -> nat, n: nat)
    requires Inv(s, base) && Can(s, EndRound) && s.collected == 0 && n in s.segments
    ensures n <= s.counter || (s.start % 2 == 1 && n == s.jobs[|s.jobs| - 1].a)
  {
    assert HasOwner(s.jobs, n);
    var k :| OwnedBy(s.jobs, n, k);
    ShapedAt(s, k);
    SumAtLeast(s.jobs, Broken(), |s.jobs|, k);
  }

  lemma EndSafe<D(!new)>(s: State<D>, base: D -> nat)
    requires Inv(s, base) && Safe(s) && Can(s, EndRound) && s.collected == 0
    ensures NamesFree(s.segments, s.counter)
  {
    RoundHalves(s, base);
    NothingBusy(s.jobs, |s.jobs|);
    forall n | n in s.segments
      ensures !Endangered(s.segments, s.counter, n)
    {
      KeysAfterRound(s, base, n);
      ReachAtLeast(|s.segments|);
    }
  }

  lemma ReachAtLeast(n: nat)
    ensures n >= 2 ==> Reach(n) >= n / 2
  {
  }

  lemma DispatchSafe<D(!new)>(s: State<D>, base: D -> nat)
    requires Inv(s, base) && Safe(s) && Can(s, Dispatch)
    ensures Safe(Apply(s, Dispatch))
  {
    ShapedAt(s, s.next);
    RoundSafe(s, Apply(s, Dispatch), s.next, s.jobs[s.next].(phase := Running));
  }

  lemma ProduceSafe<D(!new)>(s: State<D>, base: D -> nat, i: nat, docs: seq<D>)
    requires Inv(s, base) && Safe(s) && Can(s, Produce(i, docs))
    ensures Safe(Apply(s, Produce(i, docs)))
  {
    ShapedAt(s, i);
    RoundSafe(s, Apply(s, Produce(i, docs)), i, s.jobs[i].(phase := Produced, out := s.counter + 1));
  }

  lemma SafeKept<D(!new)>(s: State<D>, base: D -> nat, t: Step<D>)
    requires Inv(s, base) && Safe(s) && Can(s, t)
    ensures Safe(Apply(s, t))
  {
    match t
    case List(order) => ListSafe(s, base, order);
    case Dispatch => DispatchSafe(s, base);
    case Skip(i) => RoundSafe(s, Apply(s, t), i, s.jobs[i].(phase := Skipped));
    case Load(i) => RoundSafe(s, Apply(s, t), i, Apply(s, t).jobs[i]);
    case Fail(i, how) => RoundSafe(s, Apply(s, t), i, s.jobs[i].(phase := Failed));
    case Produce(i, docs) => ProduceSafe(s, base, i, docs);
    case Fault(i) =>
    case RemoveA(i) => RoundSafe(s, Apply(s, t), i, s.jobs[i].(phase := HalfRemoved));
    case RemoveB(i) => RoundSafe(s, Apply(s, t), i, s.jobs[i].(phase := Merged));
    case Collect =>
    case EndRound =>
      if s.collected == 0 {
        EndSafe(s, base);
      }
  }

  /** One step from a safe state. */
  lemma StepSafe<D(!new)>(s: State<D>, base: D -> nat, t: Step<D>)
    requires Inv(s, base) && Safe(s) && Can(s, t)
    ensures Inv(Apply(s, t), base) && Safe(Apply(s, t))
  {
    if t.List? {
      FreeRound(s.segments, s.counter);
    }
    StepKeeps(s, base, t);
    SafeKept(s, base, t);
  }

  lemma {:induction false} RunKeeps<D(!new)>(s: State<D>, base: D -> nat, steps: seq<Step<D>>, s': State<D>)
    requires Inv(s, base) && Safe(s) && Runs(s, steps, s')
    ensures Inv(s', base) && Safe(s')
    decreases |steps|
  {
    if steps != [] {
      StepSafe(s, base, steps[0]);
      RunKeeps(Apply(s, steps[0]), base, steps[1..], s');
    }
  }

  lemma {:induction false} DoneFiles<D>(jobs: seq<Job<D>>, n: nat)
    requires n <= |jobs| && (forall i | 0 <= i < n :: Done(jobs[i]))
    requires forall i | 0 <= i < n :: jobs[i].phase.Skipped? ==> !jobs[i].pair
    ensures n <= SumJobs(jobs, Files(), n)
    ensures SumJobs(jobs, Files(), n) <= n + SumJobs(jobs, Broken(), n)
  {
    if n > 0 {
      DoneFiles(jobs, n - 1);
    }
  }

  /** A round without errors leaves half the segments, rounded up. */
  lemma RoundHalves<D(!new)>(s: State<D>, base: D -> nat)
    requires Inv(s, base) && Can(s, EndRound)
    ensures (s.start + 1) / 2 <= |s.segments|
    ensures s.collected == 0 ==> |s.segments| == (s.start + 1) / 2
  {
    forall i | 0 <= i < |s.jobs|
      ensures s.jobs[i].phase.Skipped? ==> !s.jobs[i].pair
    {
      ShapedAt(s, i);
    }
    DoneFiles(s.jobs, |s.jobs|);
  }

  ghost predicate InSomeSegment<D>(segments: map<nat, seq<D>>, d: D) {
    exists n :: n in segments && d in segments[n]
  }

  lemma {:induction false} CountedSomewhere<D>(segments: map<nat, seq<D>>, d: D)
    requires Total(segments, CountOf(d)) > 0
    ensures InSomeSegment(segments, d)
    decreases |segments|
  {
    var k :| k in segments
        && Total(segments, CountOf(d)) == CountOf(d)(segments[k]) + Total(segments - {k}, CountOf(d));
    if CountOf(d)(segments[k]) > 0 {
      assert d in multiset(segments[k]);
    } else {
      CountedSomewhere(segments - {k}, d);
    }
  }

  lemma {:induction false} LiveAtLeast<D>(jobs: seq<Job<D>>, n: nat, d: D)
    requires n <= |jobs|
    ensures SumJobs(jobs, Base(d), n) <= SumJobs(jobs, Live(d), n)
  {
    if n > 0 {
      LiveAtLeast(jobs, n - 1, d);
      Joined(jobs[n - 1].da, jobs[n - 1].db, d);
    }
  }

  /** In no state of a run is a document there less often than at the start. */
  lemma NotFewer<D(!new)>(s: State<D>, base: D -> nat, d: D)
    requires Inv(s, base)
    ensures Total(s.segments, CountOf(d)) >= base(d)
  {
    if s.main.Round? {
      LiveAtLeast(s.jobs, |s.jobs|, d);
    }
  }

  /** In every state of every run, failures included, each document is in some live segment. */
  lemma NeverLost<D(!new)>(s: State<D>, base: D -> nat, steps: seq<Step<D>>, s': State<D>, d: D)
    requires Inv(s, base) && Safe(s) && Runs(s, steps, s') && base(d) > 0
    ensures InSomeSegment(s'.segments, d)
  {
    RunKeeps(s, base, steps, s');
    NotFewer(s', base, d);
    CountedSomewhere(s'.segments, d);
  }

  /**
   Where no round is under way, the directory holds exactly the documents it started with: after a failed round too.
   */
  lemma Conserved<D(!new)>(s: State<D>, base: D -> nat, steps: seq<Step<D>>, s': State<D>, d: D)
    requires Inv(s, base) && Safe(s) && Runs(s, steps, s') && !s'.main.Round?
    ensures Total(s'.segments, CountOf(d)) == base(d)
  {
    RunKeeps(s, base, steps, s');
  }

  lemma {:induction false} SomeBusy<D>(jobs: seq<Job<D>>, n: nat) returns (i: nat)
    requires n <= |jobs| && SumJobs(jobs, Busy(), n) > 0
    ensures i < n && Active(jobs[i])
  {
    if Active(jobs[n - 1]) {
      i := n - 1;
    } else {
      i := SomeBusy(jobs, n - 1);
    }
  }

  lemma {:induction false} FailuresArePairs<D>(jobs: seq<Job<D>>, n: nat, i: nat)
    requires n <= |jobs| && forall k | 0 <= k < n :: jobs[k].phase.Failed? ==> jobs[k].pair
    requires i < |jobs| && jobs[i].pair && !jobs[i].phase.Failed?
    ensures SumJobs(jobs, Broken(), n) + (if i < n then 1 else 0) <= SumJobs(jobs, Pairs(), n)
  {
    if n > 0 {
      FailuresArePairs(jobs, n - 1, i);
    }
  }

  /** The error channel always has room: a worker that fails never waits, though nobody reads before all are started. */
  lemma SendNeverBlocks<D(!new)>(s: State<D>, base: D -> nat, i: nat, how: Failure)
    requires Inv(s, base) && InRound(s, i) && s.jobs[i].pair
    requires if how.LoadFails? then s.jobs[i].phase.Running? else s.jobs[i].phase.Loaded?
    ensures Can(s, Fail(i, how))
  {
    forall k | 0 <= k < |s.jobs|
      ensures s.jobs[k].phase.Failed? ==> s.jobs[k].pair
    {
      ShapedAt(s, k);
    }
    FailuresArePairs(s.jobs, |s.jobs|, i);
  }

  /** A step that goes on with the round. */
  ghost predicate Forward<D>(t: Step<D>) {
    !t.List? && !t.Fail? && !t.Fault?
  }

  lemma ActiveMoves<D(!new)>(s: State<D>, base: D -> nat, i: nat) returns (t: Step<D>)
    requires Inv(s, base) && InRound(s, i) && Active(s.jobs[i])
    ensures Can(s, t) && Forward(t) && !t.Collect? && !t.EndRound?
  {
    ShapedAt(s, i);
    match s.jobs[i].phase
    case Running => t := if s.jobs[i].pair then Load(i) else Skip(i);
    case Loaded =>
      t := Produce(i, s.jobs[i].da + s.jobs[i].db);
    case Produced => t := RemoveA(i);
    case HalfRemoved => t := RemoveB(i);
  }

  /** Within a round someone can always move, without anything going wrong. */
  lemma RoundMoves<D(!new)>(s: State<D>, base: D -> nat) returns (t: Step<D>)
    requires Inv(s, base) && s.main.Round?
    ensures Can(s, t) && Forward(t)
  {
    if SumJobs(s.jobs, Busy(), |s.jobs|) > 0 {
      var i := SomeBusy(s.jobs, |s.jobs|);
      t := ActiveMoves(s, base, i);
    } else if s.next < |s.jobs| {
      t := Dispatch;
    } else if s.errors > 0 {
      t := Collect;
    } else {
      AllDone(s, base);
      t := EndRound;
    }
  }

  lemma AllDone<D(!new)>(s: State<D>, base: D -> nat)
    requires Inv(s, base) && s.main.Round? && s.next == |s.jobs| && SumJobs(s.jobs, Busy(), |s.jobs|) == 0
    ensures forall i | 0 <= i < |s.jobs| :: Done(s.jobs[i])
  {
    forall i | 0 <= i < |s.jobs|
      ensures Done(s.jobs[i])
    {
      SumAtLeast(s.jobs, Busy(), |s.jobs|, i);
      ShapedAt(s, i);
    }
  }

  lemma LargestExists(keys: set<nat>) returns (k: nat)
    requires keys != {}
    ensures k in keys && forall n | n in keys :: n <= k
  {
    var x :| x in keys;
    if keys - {x} == {} {
      k := x;
    } else {
      var y := LargestExists(keys - {x});
      k := if x < y then y else x;
    }
    forall n | n in keys
      ensures n <= k
    {
      assert n == x || n in keys - {x};
    }
  }

  lemma ListingExists(keys: set<nat>) returns (order: seq<nat>)
    ensures Enumerates(order, keys) && forall i, j | 0 <= i < j < |order| :: order[i] < order[j]
  {
    if keys == {} {
      order := [];
    } else {
      var k := LargestExists(keys);
      var front := ListingExists(keys - {k});
      EnumeratesSnoc(front, keys - {k}, k);
      assert keys - {k} + {k} == keys;
      order := front + [k];
    }
  }

  /** No deadlock: until the merge has returned, someone can move. */
  lemma SomeoneMoves<D(!new)>(s: State<D>, base: D -> nat)
    requires Inv(s, base) && !s.main.Finished?
    ensures exists t :: Can(s, t)
  {
    if s.main.Idle? {
      var order := ListingExists(s.segments.Keys);
      assert Can(s, List(order));
    } else {
      var t := RoundMoves(s, base);
    }
  }

  /** Steps a job has left, a step for its error counted in. */
  ghost function Left<D>(): Job<D> -> nat {
    (j: Job<D>) => match j.phase
                   case Waiting => 6
                   case Running => 5
                   case Loaded => 4
                   case Produced => 2
                   case HalfRemoved => 1
                   case _ => 0
  }

  /** How many steps a merge of `n` segments can take. */
  ghost function Longest(n: nat): nat {
    if n < 2 then 1 else 2 + 6 * ((n + 1) / 2) + Longest((n + 1) / 2)
  }

  /** How many steps can still come. */
  ghost function Weight<D>(s: State<D>): nat {
    match s.main
    case Idle => Longest(|s.segments|)
    case Round => SumJobs(s.jobs, Left(), |s.jobs|) + s.errors + 1 + Longest((s.start + 1) / 2)
    case _ => 0
  }

  /** A round starts from more than one segment. */
  ghost predicate Fruitful<D>(s: State<D>) {
    |s.segments| >= 1 && (s.main.Round? ==> s.start >= 2)
  }

  lemma {:induction false} AllWaiting<D>(jobs: seq<Job<D>>, n: nat)
    requires n <= |jobs| && forall i | 0 <= i < n :: jobs[i].phase.Waiting?
    ensures SumJobs(jobs, Left(), n) == 6 * n
  {
    if n > 0 {
      AllWaiting(jobs, n - 1);
    }
  }

  lemma {:induction false} SomeFile<D>(jobs: seq<Job<D>>, n: nat)
    requires 0 < n <= |jobs|
    ensures SumJobs(jobs, Files(), n) >= 1
  {
  }

  lemma FruitfulKept<D(!new)>(s: State<D>, base: D -> nat, t: Step<D>)
    requires Inv(s, base) && Safe(s) && Can(s, t) && Fruitful(s)
    ensures Fruitful(Apply(s, t))
  {
    StepSafe(s, base, t);
    var s' := Apply(s, t);
    if t.List? {
      EnumerationLength(t.order, s.segments.Keys);
      Keys(s.segments);
    }
    if s'.main.Round? {
      SomeFile(s'.jobs, |s'.jobs|);
    }
  }

  lemma ListDecreases<D(!new)>(s: State<D>, order: seq<nat>)
    requires Can(s, List(order)) && |s.segments| >= 1
    ensures Weight(Apply(s, List(order))) < Weight(s)
  {
    EnumerationLength(order, s.segments.Keys);
    Keys(s.segments);
    if |order| != 1 {
      AllWaiting(Jobs(s.segments, order), (|order| + 1) / 2);
    }
  }

  lemma JobDecreases<D(!new)>(s: State<D>, s': State<D>, i: nat)
    requires s.main.Round? && i < |s.jobs| && s'.main.Round? && s'.start == s.start && |s'.jobs| == |s.jobs|
    requires s'.jobs == s.jobs[i := s'.jobs[i]] && Left<D>()(s'.jobs[i]) + s'.errors < Left<D>()(s.jobs[i]) + s.errors
    ensures Weight(s') < Weight(s)
  {
    SumUpdate(s.jobs, Left(), |s.jobs|, i, s'.jobs[i]);
  }

  lemma SourceStepDecreases<D(!new)>(s: State<D>, t: Step<D>)
    requires Can(s, t) && (t.Skip? || t.Load? || t.Fail? || t.Produce?)
    ensures Weight(Apply(s, t)) < Weight(s)
  {
    JobDecreases(s, Apply(s, t), t.i);
  }

  lemma RemoveDecreases<D(!new)>(s: State<D>, t: Step<D>)
    requires Can(s, t) && (t.RemoveA? || t.RemoveB?)
    ensures Weight(Apply(s, t)) < Weight(s)
  {
    JobDecreases(s, Apply(s, t), t.i);
  }

  lemma DispatchDecreases<D(!new)>(s: State<D>, base: D -> nat)
    requires Inv(s, base) && Can(s, Dispatch)
    ensures Weight(Apply(s, Dispatch)) < Weight(s)
  {
    ShapedAt(s, s.next);
    JobDecreases(s, Apply(s, Dispatch), s.next);
  }

  /** Every step brings the merge closer to its end, whatever fails. */
  lemma StepDecreases<D(!new)>(s: State<D>, base: D -> nat, t: Step<D>)
    requires Inv(s, base) && Can(s, t) && Fruitful(s)
    ensures Weight(Apply(s, t)) < Weight(s)
  {
    match t
    case List(order) => ListDecreases(s, order);
    case Dispatch => DispatchDecreases(s, base);
    case Fault(i) =>
    case RemoveA(i) => RemoveDecreases(s, t);
    case RemoveB(i) => RemoveDecreases(s, t);
    case Collect =>
    case EndRound => RoundHalves(s, base);
    case _ => SourceStepDecreases(s, t);
  }

  /** From one segment or more a run is never longer than `Longest` says. */
  lemma {:induction false} RunsAreShort<D(!new)>(s: State<D>, base: D -> nat, steps: seq<Step<D>>, s': State<D>)
    requires Inv(s, base) && Safe(s) && Fruitful(s) && Runs(s, steps, s')
    ensures |steps| + Weight(s') <= Weight(s)
    decreases |steps|
  {
    if steps != [] {
      StepSafe(s, base, steps[0]);
      FruitfulKept(s, base, steps[0]);
      StepDecreases(s, base, steps[0]);
      RunsAreShort(Apply(s, steps[0]), base, steps[1..], s');
    }
  }

  /** An empty directory is never done: listing it and ending the round leads back to where it was. */
  lemma EmptyLoops<D(!new)>(s: State<D>)
    requires s.main.Idle? && s.segments == map[]
    ensures Can(s, List([])) && Can(Apply(s, List([])), EndRound)
    ensures Apply(Apply(s, List([])), EndRound).main.Idle? && Apply(Apply(s, List([])), EndRound).segments == map[]
    ensures forall t | Can(s, t) :: !Apply(s, t).main.Finished?
  {
    forall t | Can(s, t)
      ensures !Apply(s, t).main.Finished?
    {
      if t.List? {
        EnumerationLength(t.order, s.segments.Keys);
        assert s.segments.Keys == {};
      }
    }
  }

  /** Runs of any length, over and over the empty directory. */
  lemma EmptyRuns<D(!new)>(s: State<D>, n: nat) returns (steps: seq<Step<D>>, s': State<D>)
    requires s.main.Idle? && s.segments == map[]
    ensures Runs(s, steps, s') && |steps| == 2 * n
    decreases n
  {
    if n == 0 {
      steps, s' := [], s;
    } else {
      EmptyLoops(s);
      var u := Apply(s, List([]));
      var v := Apply(u, EndRound);
      var rest;
      rest, s' := EmptyRuns(v, n - 1);
      RunsOne(u, EndRound);
      RunsThen(u, [EndRound], v, rest, s');
      RunsOne(s, List([]));
      RunsThen(s, [List([])], u, [EndRound] + rest, s');
      steps := [List([])] + ([EndRound] + rest);
    }
  }

  ghost predicate Bounded<D(!new)>(s: State<D>, n: nat) {
    forall steps, s' :: Runs(s, steps, s') ==> |steps| <= n
  }

  /** The runs of a merge are bounded exactly when the directory is not empty. */
  lemma EndsUnlessEmpty<D(!new)>(s: State<D>, base: D -> nat)
    requires Inv(s, base) && Safe(s) && s.main.Idle?
    ensures (exists n :: Bounded(s, n)) <==> s.segments != map[]
  {
    if s.segments != map[] {
      forall steps, s' | Runs(s, steps, s')
        ensures |steps| <= Weight(s)
      {
        RunsAreShort(s, base, steps, s');
      }
      assert Bounded(s, Weight(s));
    } else {
      forall n: nat
        ensures !Bounded(s, n)
      {
        var steps, s' := EmptyRuns(s, n + 1);
      }
    }
  }

  ghost predicate Clean<D>(s: State<D>) {
    s.main != Finished(false) && (s.main.Round? ==> s.errors == s.collected == 0)
  }

  lemma CleanKept<D(!new)>(s: State<D>, t: Step<D>)
    requires Clean(s) && Can(s, t) && !t.Fail?
    ensures Clean(Apply(s, t))
  {
  }

  /**
   From one segment or more and without failures, a run that has stopped left one segment, with every document in it as
   often as at the start.
   */
  lemma {:induction false} EndsInOne<D(!new)>(s: State<D>, base: D -> nat, steps: seq<Step<D>>, s': State<D>)
    requires Inv(s, base) && Safe(s) && Clean(s) && Runs(s, steps, s') && (forall t :: !Can(s', t))
    requires forall k | 0 <= k < |steps| :: !steps[k].Fail?
    ensures |s'.segments| == 1 && forall n, d | n in s'.segments :: Times(s'.segments[n], d) == base(d)
    decreases |steps|
  {
    if steps == [] {
      if !s.main.Finished? {
        SomeoneMoves(s, base);
      }
      forall n, d | n in s.segments
        ensures Times(s.segments[n], d) == base(d)
      {
        OnlyOne(s.segments, n, d);
      }
    } else {
      StepSafe(s, base, steps[0]);
      CleanKept(s, steps[0]);
      EndsInOne(Apply(s, steps[0]), base, steps[1..], s');
    }
  }

  lemma OnlyOne<D(!new)>(segments: map<nat, seq<D>>, n: nat, d: D)
    requires |segments| == 1 && n in segments
    ensures Total(segments, CountOf(d)) == Times(segments[n], d)
  {
    FileRemoved(segments, n);
    TotalWithout(segments, CountOf(d), n);
    assert segments - {n} == map[];
  }

  /**
   A run that cannot go on has ended, with the documents it started with, and with one segment unless errors are
   reported.
   */
  lemma RunEnds<D(!new)>(s: State<D>, base: D -> nat, steps: seq<Step<D>>, s': State<D>)
    requires Inv(s, base) && Safe(s) && Runs(s, steps, s') && forall t :: !Can(s', t)
    ensures s'.main.Finished? && (s'.main.ok ==> |s'.segments| == 1)
    ensures forall d :: Total(s'.segments, CountOf(d)) == base(d)
  {
    RunKeeps(s, base, steps, s');
    if !s'.main.Finished? {
      SomeoneMoves(s', base);
    }
  }

  /** Job i is about to create its output, and the name is taken. */
  ghost predicate TakesName<D>(s: State<D>, i: nat) {
    InRound(s, i) && s.jobs[i].phase.Loaded? && s.counter + 1 in s.segments
  }

  /** Where a listed round stands when its first `m` pairs have failed to create their outputs. */
  ghost function FailedFirst<D>(s: State<D>, m: nat): State<D>
    requires m <= |s.jobs|
  {
    s.(jobs := seq(|s.jobs|, k requires 0 <= k < |s.jobs| => if k < m then s.jobs[k].(phase := Failed) else s.jobs[k]),
       next := m, errors := m, counter := s.counter + m)
  }

  /** A listed round, before anything of it has happened. */
  ghost predicate Fresh<D(!new)>(s: State<D>) {
    && s.main.Round? && s.next == 0 && s.errors == 0 && s.tokens >= 1 && |s.jobs| == (s.start + 1) / 2
    && forall k | 0 <= k < |s.jobs| ::
         s.jobs[k].phase.Waiting? && (s.jobs[k].pair <==> 2 * k + 1 < s.start)
         && Holds(s.segments, s.jobs[k].a, s.jobs[k].da)
         && (s.jobs[k].pair ==> Holds(s.segments, s.jobs[k].b, s.jobs[k].db))
  }

  /** Pair m, started and loaded. */
  ghost function LoadedNext<D>(s: State<D>, m: nat): State<D>
    requires m < |s.jobs| && s.tokens >= 1
  {
    var u := FailedFirst(s, m);
    u.(jobs := u.jobs[m := u.jobs[m].(phase := Loaded)], next := m + 1, tokens := u.tokens - 1)
  }

  lemma LoadsNext<D(!new)>(s: State<D>, m: nat)
    requires Fresh(s) && 2 * m + 1 < s.start
    ensures Runs(FailedFirst(s, m), [Dispatch, Load(m)], LoadedNext(s, m))
  {
    var u := FailedFirst(s, m);
    assert u.jobs[m] == s.jobs[m];
    assert Can(u, Dispatch);
    var v := Apply(u, Dispatch);
    assert v.jobs[m] == s.jobs[m].(phase := Running) && Can(v, Load(m));
    assert Apply(v, Load(m)).jobs == LoadedNext(s, m).jobs;
    RunsOne(u, Dispatch);
    RunsOne(v, Load(m));
    RunsThen(u, [Dispatch], v, [Load(m)], LoadedNext(s, m));
  }

  lemma FailsNext<D(!new)>(s: State<D>, m: nat)
    requires Fresh(s) && 2 * m + 1 < s.start
    ensures Runs(FailedFirst(s, m), [Dispatch, Load(m)] + [Fail(m, CreateFails)], FailedFirst(s, m + 1))
  {
    LoadsNext(s, m);
    var v := LoadedNext(s, m);
    assert v.jobs[m] == s.jobs[m].(phase := Loaded) && Can(v, Fail(m, CreateFails));
    assert Apply(v, Fail(m, CreateFails)).jobs == FailedFirst(s, m + 1).jobs;
    assert Apply(v, Fail(m, CreateFails)) == FailedFirst(s, m + 1);
    RunsOne(v, Fail(m, CreateFails));
    RunsThen(FailedFirst(s, m), [Dispatch, Load(m)], v, [Fail(m, CreateFails)], FailedFirst(s, m + 1));
  }

  /** The first `m` pairs fail one after the other, each after it has drawn a name. */
  lemma FirstFail<D(!new)>(s: State<D>, m: nat) returns (steps: seq<Step<D>>)
    requires Fresh(s) && 2 * m <= s.start
    ensures Runs(s, steps, FailedFirst(s, m))
    decreases m
  {
    if m == 0 {
      assert FailedFirst(s, 0).jobs == s.jobs;
      steps := [];
    } else {
      var front := FirstFail(s, m - 1);
      FailsNext(s, m - 1);
      RunsThen(s, front, FailedFirst(s, m - 1), [Dispatch, Load(m - 1)] + [Fail(m - 1, CreateFails)],
               FailedFirst(s, m));
      steps := front + ([Dispatch, Load(m - 1)] + [Fail(m - 1, CreateFails)]);
    }
  }

  lemma ListedFresh<D(!new)>(s: State<D>, base: D -> nat, order: seq<nat>)
    requires Inv(s, base) && s.main.Idle? && Listed(order, s.segments) && |order| >= 2
    ensures Can(s, List(order)) && Fresh(Apply(s, List(order)))
  {
    forall k: nat | k < (|order| + 1) / 2
      ensures JobOk(s.segments, Jobs(s.segments, order)[k])
    {
      ChunkJob(s.segments, order, k);
    }
  }

  /** A state of a run in which job i takes the name, the directory being as it was and no other pair being loaded. */
  ghost predicate Collides<D(!new)>(s: State<D>, base: D -> nat, i: nat, name: nat, docs: seq<D>) {
    && TakesName(s, i) && s.counter + 1 == name && s.segments[name] == docs
    && (forall d :: Total(s.segments, CountOf(d)) == base(d))
    && (forall k | 0 <= k < |s.jobs| && k != i :: !s.jobs[k].phase.Loaded?)
    && s.jobs[i].pair && s.jobs[i].a != s.jobs[i].b
    && Holds(s.segments, s.jobs[i].a, s.jobs[i].da) && Holds(s.segments, s.jobs[i].b, s.jobs[i].db)
  }

  lemma LoadsAfterFailures<D(!new)>(s: State<D>, m: nat) returns (steps: seq<Step<D>>)
    requires Fresh(s) && 2 * m + 1 < s.start
    ensures Runs(s, steps, LoadedNext(s, m))
  {
    var front := FirstFail(s, m);
    LoadsNext(s, m);
    RunsThen(s, front, FailedFirst(s, m), [Dispatch, Load(m)], LoadedNext(s, m));
    steps := front + [Dispatch, Load(m)];
  }

  lemma LoadedCollides<D(!new)>(s: State<D>, base: D -> nat, m: nat, name: nat)
    requires Fresh(s) && 2 * m + 1 < s.start && s.jobs[m].a != s.jobs[m].b && name == s.counter + m + 1
    requires name in s.segments
    requires forall d :: Total(s.segments, CountOf(d)) == base(d)
    ensures Collides(LoadedNext(s, m), base, m, name, s.segments[name])
  {
    var u := LoadedNext(s, m);
    assert u.jobs[m] == s.jobs[m].(phase := Loaded);
  }

  /** A name of the first round: all pairs before it fail, and the next one takes it. */
  lemma CollidesAtOnce<D(!new)>(s: State<D>, base: D -> nat, name: nat)
      returns (steps: seq<Step<D>>, s': State<D>, i: nat)
    requires Inv(s, base) && s.main.Idle? && name in s.segments && s.counter < name <= s.counter + |s.segments| / 2
    ensures Runs(s, steps, s') && Collides(s', base, i, name, s.segments[name])
  {
    var order := ListingExists(s.segments.Keys);
    EnumerationLength(order, s.segments.Keys);
    Keys(s.segments);
    ListedFresh(s, base, order);
    var u := Apply(s, List(order));
    i := name - s.counter - 1;
    ChunkJob(s.segments, order, i);
    LoadedCollides(u, base, i, name);
    s' := LoadedNext(u, i);
    var rest := LoadsAfterFailures(u, i);
    RunsOne(s, List(order));
    RunsThen(s, [List(order)], u, rest, s');
    steps := [List(order)] + rest;
  }

  /** A round that goes well, `left` over: no name is skipped, and nothing has failed. */
  ghost predicate Going<D(!new)>(s: State<D>, base: D -> nat, limit: nat, left: nat, docs: seq<D>) {
    && Inv(s, base) && s.main.Round? && s.errors == s.collected == 0 && s.start % 2 == 1 && s.start >= 3
    && s.counter + Ahead(s.jobs) == limit && s.jobs[|s.jobs| - 1].a == left && s.jobs[|s.jobs| - 1].da == docs
  }

  /** What such a round leaves: half the segments and the one left over, every other name being drawn by now. */
  ghost predicate Gone<D(!new)>(s: State<D>, base: D -> nat, limit: nat, left: nat, docs: seq<D>, n: nat) {
    && Inv(s, base) && s.main.Idle? && s.counter == limit && |s.segments| == n
    && Holds(s.segments, left, docs) && forall x | x in s.segments :: x <= limit || x == left
  }

  lemma GoesOn<D(!new)>(s: State<D>, base: D -> nat, limit: nat, left: nat, docs: seq<D>, t: Step<D>)
    requires Going(s, base, limit, left, docs) && Can(s, t) && Forward(t) && !t.EndRound?
    ensures Going(Apply(s, t), base, limit, left, docs) && Apply(s, t).start == s.start
  {
    StepKeeps(s, base, t);
    JobGoesOn(s, base, t);
  }

  /** Steps forward draw a name for every pair that counts as drawn, and leave sources alone. */
  lemma JobGoesOn<D(!new)>(s: State<D>, base: D -> nat, t: Step<D>)
    requires Inv(s, base) && s.main.Round? && Can(s, t) && Forward(t) && !t.EndRound?
    ensures var s' := Apply(s, t);
            && s'.main.Round? && s'.start == s.start && |s'.jobs| == |s.jobs|
            && s'.counter + Ahead(s'.jobs) == s.counter + Ahead(s.jobs)
            && (forall k | 0 <= k < |s.jobs| :: s'.jobs[k].a == s.jobs[k].a && s'.jobs[k].da == s.jobs[k].da)
  {
    if !t.Collect? {
      var i := if t.Dispatch? then s.next else t.i;
      ShapedAt(s, i);
      JobForward(s, t, i);
      SumUpdate(s.jobs, Undrawn(), |s.jobs|, i, Apply(s, t).jobs[i]);
    }
  }

  /** The job that moves stays the same but for its phase and output. */
  lemma JobForward<D(!new)>(s: State<D>, t: Step<D>, i: nat)
    requires s.main.Round? && Can(s, t) && Forward(t) && !t.EndRound? && !t.Collect?
    requires i == if t.Dispatch? then s.next else t.i
    requires s.jobs[i].phase.Waiting? <==> i >= s.next
    requires JobOk(s.segments, s.jobs[i])
    ensures var s' := Apply(s, t);
            && s'.main.Round? && s'.start == s.start && s'.jobs == s.jobs[i := s'.jobs[i]]
            && s'.jobs[i].a == s.jobs[i].a && s'.jobs[i].da == s.jobs[i].da
            && s'.counter + Undrawn<D>()(s'.jobs[i]) == s.counter + Undrawn<D>()(s.jobs[i])
  {
  }

  lemma GoesToEnd<D(!new)>(s: State<D>, base: D -> nat, limit: nat, left: nat, docs: seq<D>)
    requires Going(s, base, limit, left, docs) && Can(s, EndRound)
    ensures Gone(Apply(s, EndRound), base, limit, left, docs, s.start / 2 + 1)
  {
    StepKeeps(s, base, EndRound);
    RoundHalves(s, base);
    NothingBusy(s.jobs, |s.jobs|);
    ShapedAt(s, |s.jobs| - 1);
    forall x | x in s.segments
      ensures x <= limit || x == left
    {
      KeysAfterRound(s, base, x);
    }
  }

  /** A round can always be brought to its end without failures. */
  lemma RoundGoesWell<D(!new)>(s: State<D>, base: D -> nat, limit: nat, left: nat, docs: seq<D>)
      returns (steps: seq<Step<D>>, s': State<D>)
    requires Going(s, base, limit, left, docs) && Fruitful(s)
    ensures Runs(s, steps, s') && Gone(s', base, limit, left, docs, s.start / 2 + 1)
    decreases Weight(s)
  {
    var t := RoundMoves(s, base);
    var u := Apply(s, t);
    RunsOne(s, t);
    if t.EndRound? {
      GoesToEnd(s, base, limit, left, docs);
      steps, s' := [t], u;
    } else {
      GoesOn(s, base, limit, left, docs, t);
      StepDecreases(s, base, t);
      FilesLeft(u, base);
      var rest;
      rest, s' := RoundGoesWell(u, base, limit, left, docs);
      RunsThen(s, [t], u, rest, s');
      steps := [t] + rest;
    }
  }

  lemma FilesLeft<D(!new)>(s: State<D>, base: D -> nat)
    requires Inv(s, base) && s.main.Round? && s.start >= 2
    ensures Fruitful(s)
  {
    SomeFile(s.jobs, |s.jobs|);
  }

  lemma ListedAhead<D(!new)>(s: State<D>, base: D -> nat, order: seq<nat>)
    requires Inv(s, base) && s.main.Idle? && Listed(order, s.segments) && |order| >= 3
    ensures var u := Apply(s, List(order));
            && u.main.Round? && u.start == |order| && u.errors == u.collected == 0 && u.jobs == Jobs(s.segments, order)
            && u.counter + Ahead(u.jobs) == s.counter + |order| / 2
  {
    ChunkFiles(s.segments, order, (|order| + 1) / 2);
  }

  lemma ListedGoing<D(!new)>(s: State<D>, base: D -> nat, order: seq<nat>)
    requires Inv(s, base) && s.main.Idle? && RoundFree(s.segments, s.counter) && Listed(order, s.segments)
    requires |order| >= 3 && |order| % 2 == 1
    ensures var left := order[|order| - 1];
            Going(Apply(s, List(order)), base, s.counter + |order| / 2, left, s.segments[left])
  {
    ListKeeps(s, base, order);
    ListedAhead(s, base, order);
    LastJob(s.segments, order);
  }

  lemma StaysInReach(n: nat, counter: nat, name: nat)
    requires n >= 3 && n % 2 == 1 && name <= counter + Reach(n)
    ensures var m := n / 2 + 1;
            if m % 2 == 0 then name <= counter + n / 2 + m / 2 else name <= counter + n / 2 + Reach(m)
  {
  }

  /** The one left over is in danger as before. */
  lemma StillEndangered<D(!new)>(s: State<D>, u: State<D>, base: D -> nat, name: nat)
    requires Endangered(s.segments, s.counter, name) && name > s.counter + |s.segments| / 2 && |s.segments| % 2 == 1
    requires |s.segments| >= 3
    requires Gone(u, base, s.counter + |s.segments| / 2, name, s.segments[name], |s.segments| / 2 + 1)
    ensures Endangered(u.segments, u.counter, name) && u.segments[name] == s.segments[name]
    ensures |u.segments| < |s.segments|
    ensures forall x | x in u.segments :: x <= u.counter || x == name
  {
    assert Largest(u.segments, name);
    StaysInReach(|s.segments|, s.counter, name);
  }

  lemma OddAndLast<D>(segments: map<nat, seq<D>>, counter: nat, order: seq<nat>, name: nat)
    requires Listed(order, segments) && Clear(segments.Keys, counter, |segments| / 2)
    requires Endangered(segments, counter, name)
    ensures |order| == |segments| && |order| % 2 == 1 && |order| >= 3 && order[|order| - 1] == name
    ensures name > counter + |order| / 2
  {
    EnumerationLength(order, segments.Keys);
    Keys(segments);
    LastIsLargest(segments, order);
  }

  /** An odd number of segments whose round goes well. */
  lemma LeftInDanger<D(!new)>(s: State<D>, base: D -> nat, name: nat) returns (steps: seq<Step<D>>, u: State<D>)
    requires Inv(s, base) && s.main.Idle? && RoundFree(s.segments, s.counter) && Endangered(s.segments, s.counter, name)
    ensures Runs(s, steps, u) && Inv(u, base) && u.main.Idle? && |u.segments| < |s.segments|
    ensures Endangered(u.segments, u.counter, name) && u.segments[name] == s.segments[name]
    ensures forall x | x in u.segments :: x <= u.counter || x == name
  {
    var order := ListingExists(s.segments.Keys);
    OddAndLast(s.segments, s.counter, order, name);
    ListedGoing(s, base, order);
    var v := Apply(s, List(order));
    FilesLeft(v, base);
    var rest;
    rest, u := RoundGoesWell(v, base, s.counter + |order| / 2, name, s.segments[name]);
    StillEndangered(s, u, base, name);
    RunsOne(s, List(order));
    RunsThen(s, [List(order)], v, rest, u);
    steps := [List(order)] + rest;
  }

  /** Where a name is in danger, some name can be hit. */
  lemma DangerHits<D(!new)>(s: State<D>, base: D -> nat, name: nat)
      returns (steps: seq<Step<D>>, s': State<D>, i: nat, hit: nat)
    requires Inv(s, base) && s.main.Idle? && Endangered(s.segments, s.counter, name)
    ensures hit in s.segments && hit > s.counter && Runs(s, steps, s') && Collides(s', base, i, hit, s.segments[hit])
    decreases |s.segments|
  {
    if !RoundFree(s.segments, s.counter) {
      hit :| hit in s.segments.Keys && s.counter < hit <= s.counter + |s.segments| / 2;
      steps, s', i := CollidesAtOnce(s, base, hit);
    } else {
      var front, u := LeftInDanger(s, base, name);
      var rest;
      rest, s', i, hit := DangerHits(u, base, name);
      RunsThen(s, front, u, rest, s');
      steps := front + rest;
    }
  }

  ghost predicate TakesSome<D>(s: State<D>) {
    exists i: nat :: TakesName(s, i)
  }

  ghost predicate NeverTakes<D(!new)>(s: State<D>) {
    forall steps, s' :: Runs(s, steps, s') ==> !TakesSome(s')
  }

  lemma TakesNone<D(!new)>(s: State<D>, base: D -> nat)
    requires Inv(s, base)
    ensures !TakesSome(s)
  {
    forall i: nat | InRound(s, i) && s.jobs[i].phase.Loaded?
      ensures s.counter + 1 !in s.segments
    {
      NextIsFree(s, base, i);
    }
  }

  lemma SomeEndangered<D>(segments: map<nat, seq<D>>, counter: nat) returns (name: nat)
    requires !NamesFree(segments, counter)
    ensures Endangered(segments, counter, name)
  {
    name :| name in segments && Endangered(segments, counter, name);
  }

  /** No run ever takes a name that is taken, exactly when no name is in danger at the start. */
  lemma NamesExact<D(!new)>(s: State<D>, base: D -> nat)
    requires Inv(s, base) && s.main.Idle?
    ensures NeverTakes(s) <==> NamesFree(s.segments, s.counter)
  {
    if NamesFree(s.segments, s.counter) {
      forall steps, s' | Runs(s, steps, s')
        ensures !TakesSome(s')
      {
        RunKeeps(s, base, steps, s');
        TakesNone(s', base);
      }
    } else {
      var name := SomeEndangered(s.segments, s.counter);
      var steps, s', i, hit := DangerHits(s, base, name);
      assert TakesName(s', i);
    }
  }

  /** Some document is there less often than at the start. */
  ghost predicate Lost<D(!new)>(s: State<D>, base: D -> nat) {
    exists d :: Total(s.segments, CountOf(d)) < base(d)
  }

  ghost predicate NeverLoses<D(!new)>(s: State<D>, base: D -> nat) {
    forall steps, s' :: Runs(s, steps, s') ==> !Lost(s', base)
  }

  lemma NothingLost<D(!new)>(s: State<D>, base: D -> nat)
    requires Inv(s, base)
    ensures !Lost(s, base)
  {
    forall d
      ensures Total(s.segments, CountOf(d)) >= base(d)
    {
      NotFewer(s, base, d);
    }
  }

  lemma Overwritten<D(!new)>(segments: map<nat, seq<D>>, out: nat, docs: seq<D>, d: D)
    ensures var lost := if out in segments then Times(segments[out], d) else 0;
            Total(segments[out := docs], CountOf(d)) + lost == Total(segments, CountOf(d)) + Times(docs, d)
  {
    TotalUpdate(segments, CountOf(d), out, docs);
    if out in segments {
      FileRemoved(segments, out);
    }
  }

  /** What a pair does once it has drawn a name and created its output: merge, fail in the middle, or end everything. */
  ghost predicate Creates<D>(t: Step<D>, i: nat) {
    t == Fault(i) || t == Fail(i, MergeFails) || (t.Produce? && t.i == i)
  }

  lemma FaultLoses<D(!new)>(s: State<D>, base: D -> nat, i: nat, name: nat, docs: seq<D>)
    requires Collides(s, base, i, name, docs) && Can(s, Fault(i))
    ensures forall d :: Total(Apply(s, Fault(i)).segments, CountOf(d)) + Times(docs, d) == base(d)
  {
    forall d
      ensures Total(Apply(s, Fault(i)).segments, CountOf(d)) + Times(docs, d) == base(d)
    {
      Overwritten(s.segments, name, [], d);
    }
  }

  /** The two removals that follow a merge. */
  lemma Removals<D(!new)>(s: State<D>, i: nat) returns (s': State<D>)
    requires InRound(s, i) && s.jobs[i].phase.Produced?
    ensures Runs(s, [RemoveA(i), RemoveB(i)], s') && s'.segments == s.segments - {s.jobs[i].a} - {s.jobs[i].b}
    ensures s' == s.(jobs := s'.jobs, segments := s'.segments, tokens := s'.tokens)
    ensures |s'.jobs| == |s.jobs| && Done(s'.jobs[i])
  {
    var u := Apply(s, RemoveA(i));
    s' := Apply(u, RemoveB(i));
    RunsOne(s, RemoveA(i));
    RunsOne(u, RemoveB(i));
    RunsThen(s, [RemoveA(i)], u, [RemoveB(i)], s');
  }

  /** Whatever was written over one of two segments, removing both leaves neither. */
  lemma BothGone<D(!new)>(segments: map<nat, seq<D>>, name: nat, docs: seq<D>, j: Job<D>, d: D)
    requires (name == j.a || name == j.b) && j.a != j.b && Holds(segments, j.a, j.da) && Holds(segments, j.b, j.db)
    ensures Total(segments[name := docs] - {j.a} - {j.b}, CountOf(d)) + Times(j.da + j.db, d)
            == Total(segments, CountOf(d))
  {
    assert segments[name := docs] - {j.a} - {j.b} == segments - {j.a} - {j.b};
    BothRemoved(segments, j, d);
  }

  lemma BothRemoved<D(!new)>(segments: map<nat, seq<D>>, j: Job<D>, d: D)
    requires j.a != j.b && Holds(segments, j.a, j.da) && Holds(segments, j.b, j.db)
    ensures Total(segments - {j.a} - {j.b}, CountOf(d)) + Times(j.da + j.db, d) == Total(segments, CountOf(d))
  {
    Joined(j.da, j.db, d);
    FileRemoved(segments, j.a);
    FileRemoved(segments - {j.a}, j.b);
  }

  lemma Written<D(!new)>(s: State<D>, i: nat, read: seq<D>)
    requires Can(s, Produce(i, read))
    ensures var u := Apply(s, Produce(i, read));
            && u.segments == s.segments[s.counter + 1 := read] && InRound(u, i) && u.jobs[i].phase.Produced?
            && u.jobs[i].a == s.jobs[i].a && u.jobs[i].b == s.jobs[i].b && u.errors == s.errors
            && u.collected == s.collected && u.next == s.next && |u.jobs| == |s.jobs|
  {
  }

  lemma ProduceLoses<D(!new)>(s: State<D>, i: nat, read: seq<D>) returns (s': State<D>)
    requires Can(s, Produce(i, read)) && (s.counter + 1 == s.jobs[i].a || s.counter + 1 == s.jobs[i].b)
    requires s.jobs[i].a != s.jobs[i].b
    requires Holds(s.segments, s.jobs[i].a, s.jobs[i].da) && Holds(s.segments, s.jobs[i].b, s.jobs[i].db)
    ensures Runs(Apply(s, Produce(i, read)), [RemoveA(i), RemoveB(i)], s') && i < |s'.jobs| && Done(s'.jobs[i])
    ensures forall d ::
            Total(s'.segments, CountOf(d)) + Times(s.jobs[i].da + s.jobs[i].db, d) == Total(s.segments, CountOf(d))
  {
    Written(s, i, read);
    s' := Removals(Apply(s, Produce(i, read)), i);
    forall d
      ensures Total(s'.segments, CountOf(d)) + Times(s.jobs[i].da + s.jobs[i].db, d) == Total(s.segments, CountOf(d))
    {
      BothGone(s.segments, s.counter + 1, read, s.jobs[i], d);
    }
  }

  /**
   A pair that takes the name of one of its own sources cuts it off under its own reading. It can end the process, fail,
   or go on with whatever it then reads; and each way the source is gone, with the other one if it goes on.
   */
  lemma OwnSourceLost<D(!new)>(s: State<D>, base: D -> nat, i: nat, name: nat, docs: seq<D>, t: Step<D>)
      returns (steps: seq<Step<D>>, s': State<D>)
    requires Collides(s, base, i, name, docs) && (name == s.jobs[i].a || name == s.jobs[i].b)
    requires Can(s, t) && Creates(t, i)
    ensures Runs(s, [t] + steps, s') && (s'.main.Crashed? || (i < |s'.jobs| && Done(s'.jobs[i])))
    ensures forall d :: Total(s'.segments, CountOf(d)) + Times(docs, d) <= base(d)
    ensures t.Produce? ==> forall d ::
                Total(s'.segments, CountOf(d)) + Times(s.jobs[i].da + s.jobs[i].db, d) == base(d)
  {
    RunsOne(s, t);
    if t.Produce? {
      s' := ProduceLoses(s, i, t.docs);
      steps := [RemoveA(i), RemoveB(i)];
      RunsStep(s, t, steps, s');
      forall d
        ensures Times(docs, d) <= Times(s.jobs[i].da + s.jobs[i].db, d)
      {
        Joined(s.jobs[i].da, s.jobs[i].db, d);
      }
    } else {
      s', steps := Apply(s, t), [];
      assert [t] + steps == [t];
      if t.Fault? {
        FaultLoses(s, base, i, name, docs);
      } else {
        FileRemoved(s.segments, name);
      }
    }
  }

  /** All three are possible, and anything may be read. */
  lemma OwnSourceCut<D(!new)>(s: State<D>, i: nat, read: seq<D>)
    requires TakesName(s, i) && (s.counter + 1 == s.jobs[i].a || s.counter + 1 == s.jobs[i].b)
    ensures Can(s, Fault(i)) && Can(s, Produce(i, read))
  {
    assert i in Readers(s, s.counter + 1);
  }

  /**
   A pair that takes another name replaces what is there; when its sources are gone, so are the documents that were.
   */
  lemma OtherSegmentLost<D(!new)>(s: State<D>, base: D -> nat, i: nat, name: nat, docs: seq<D>)
      returns (steps: seq<Step<D>>, s': State<D>)
    requires Collides(s, base, i, name, docs) && name != s.jobs[i].a && name != s.jobs[i].b
    ensures Runs(s, steps, s') && forall d :: Total(s'.segments, CountOf(d)) + Times(docs, d) == base(d)
  {
    var t := Produce(i, s.jobs[i].da + s.jobs[i].db);
    s' := ProduceReplaces(s, i, name);
    RunsStep(s, t, [RemoveA(i), RemoveB(i)], s');
    steps := [t] + [RemoveA(i), RemoveB(i)];
  }

  lemma ProduceReplaces<D(!new)>(s: State<D>, i: nat, name: nat) returns (s': State<D>)
    requires TakesName(s, i) && s.counter + 1 == name && name != s.jobs[i].a && name != s.jobs[i].b
    requires s.jobs[i].a != s.jobs[i].b
    requires Holds(s.segments, s.jobs[i].a, s.jobs[i].da) && Holds(s.segments, s.jobs[i].b, s.jobs[i].db)
    ensures Can(s, Produce(i, s.jobs[i].da + s.jobs[i].db))
    ensures Runs(Apply(s, Produce(i, s.jobs[i].da + s.jobs[i].db)), [RemoveA(i), RemoveB(i)], s')
    ensures forall d :: Total(s'.segments, CountOf(d)) + Times(s.segments[name], d) == Total(s.segments, CountOf(d))
  {
    var docs := s.jobs[i].da + s.jobs[i].db;
    Written(s, i, docs);
    s' := Removals(Apply(s, Produce(i, docs)), i);
    forall d
      ensures Total(s'.segments, CountOf(d)) + Times(s.segments[name], d) == Total(s.segments, CountOf(d))
    {
      Replaced(s.segments, name, s.jobs[i], d);
    }
  }

  lemma Replaced<D(!new)>(segments: map<nat, seq<D>>, name: nat, j: Job<D>, d: D)
    requires name in segments && name != j.a && name != j.b && j.a != j.b && Holds(segments, j.a, j.da)
    requires Holds(segments, j.b, j.db)
    ensures Total(segments[name := j.da + j.db] - {j.a} - {j.b}, CountOf(d)) + Times(segments[name], d)
            == Total(segments, CountOf(d))
  {
    Overwritten(segments, name, j.da + j.db, d);
    BothRemoved(segments[name := j.da + j.db], j, d);
  }

  /** Where a segment with documents can be hit, documents can be lost. */
  lemma CollisionLoses<D(!new)>(s: State<D>, base: D -> nat, i: nat, name: nat, docs: seq<D>)
      returns (steps: seq<Step<D>>, s': State<D>)
    requires Collides(s, base, i, name, docs) && docs != []
    ensures Runs(s, steps, s') && Lost(s', base)
  {
    if name == s.jobs[i].a || name == s.jobs[i].b {
      OwnSourceCut(s, i, []);
      steps, s' := OwnSourceLost(s, base, i, name, docs, Fault(i));
      steps := [Fault(i)] + steps;
    } else {
      steps, s' := OtherSegmentLost(s, base, i, name, docs);
    }
    assert docs[0] in multiset(docs);
    assert Total(s'.segments, CountOf(docs[0])) < base(docs[0]);
  }

  lemma DangerLoses<D(!new)>(s: State<D>, base: D -> nat, name: nat) returns (steps: seq<Step<D>>, s': State<D>)
    requires Inv(s, base) && s.main.Idle? && Endangered(s.segments, s.counter, name)
    requires forall n | n in s.segments :: s.segments[n] != []
    ensures Runs(s, steps, s') && Lost(s', base)
  {
    var front, u, i, hit := DangerHits(s, base, name);
    var rest;
    rest, s' := CollisionLoses(u, base, i, hit, s.segments[hit]);
    RunsThen(s, front, u, rest, s');
    steps := front + rest;
  }

  /** Of segments that hold documents, no run loses any exactly when no name is in danger at the start. */
  lemma NothingLostExactly<D(!new)>(s: State<D>, base: D -> nat)
    requires Inv(s, base) && s.main.Idle? && forall n | n in s.segments :: s.segments[n] != []
    ensures NeverLoses(s, base) <==> NamesFree(s.segments, s.counter)
  {
    if NamesFree(s.segments, s.counter) {
      forall steps, s' | Runs(s, steps, s')
        ensures !Lost(s', base)
      {
        RunKeeps(s, base, steps, s');
        NothingLost(s', base);
      }
    } else {
      var name := SomeEndangered(s.segments, s.counter);
      var steps, s' := DangerLoses(s, base, name);
    }
  }

  /** Where a writer that starts counting anew has its own first two segments loaded, about to merge them. */
  lemma NewWriterLoads<D(!new)>(x: D, y: D, s: State<D>) returns (steps: seq<Step<D>>, w: State<D>)
    requires s.segments == map[1 := [x], 2 := [y]] && s.counter == 0 && s.main.Idle? && s.tokens >= 1
    ensures Runs(s, steps, w) && w.segments == s.segments && TakesName(w, 0) && w.counter == 0
    ensures w.jobs == [Job(1, 2, true, [x], [y], Loaded, 0)] && w.next == 1 && w.errors == w.collected == 0
  {
    assert Listed([1, 2], s.segments);
    var u := Apply(s, List([1, 2]));
    assert u.jobs == [Job(1, 2, true, [x], [y], Waiting, 0)];
    var v := Apply(u, Dispatch);
    w := Apply(v, Load(0));
    RunsOne(v, Load(0));
    RunsStep(u, Dispatch, [Load(0)], w);
    RunsStep(s, List([1, 2]), [Dispatch] + [Load(0)], w);
    steps := [List([1, 2])] + ([Dispatch] + [Load(0)]);
  }

  /** The pair goes on with what it reads and removes both its sources, its output being one of them. */
  lemma NewWriterEmpties<D(!new)>(x: D, y: D, w: State<D>, read: seq<D>) returns (steps: seq<Step<D>>, s': State<D>)
    requires w.segments == map[1 := [x], 2 := [y]] && TakesName(w, 0) && w.counter == 0
    requires w.jobs == [Job(1, 2, true, [x], [y], Loaded, 0)] && w.next == 1 && w.errors == w.collected == 0
    ensures Runs(w, steps, s') && s'.main.Idle? && s'.segments == map[]
  {
    OwnSourceCut(w, 0, read);
    var t := Produce(0, read);
    var v := Removals(Apply(w, t), 0);
    RunsStep(w, t, [RemoveA(0), RemoveB(0)], v);
    assert v.segments == map[];
    s' := Apply(v, EndRound);
    RunsOne(v, EndRound);
    RunsThen(w, [t] + [RemoveA(0), RemoveB(0)], v, [EndRound], s');
    steps := [t] + [RemoveA(0), RemoveB(0)] + [EndRound];
  }

  lemma NewWriterCrashes<D(!new)>(x: D, y: D, w: State<D>) returns (steps: seq<Step<D>>, s': State<D>)
    requires w.segments == map[1 := [x], 2 := [y]] && TakesName(w, 0) && w.counter == 0
    requires w.jobs == [Job(1, 2, true, [x], [y], Loaded, 0)]
    ensures Runs(w, steps, s') && s'.main.Crashed? && s'.segments == map[1 := [], 2 := [y]]
  {
    OwnSourceCut(w, 0, []);
    RunsOne(w, Fault(0));
    steps, s' := [Fault(0)], Apply(w, Fault(0));
  }

  /**
   A writer that starts counting anew in a directory with its own first two segments: the first pair destroys its first
   source and ends the process, or destroys both and leaves an empty directory, which is listed for ever.
   */
  lemma NewWriter<D(!new)>(x: D, y: D, s: State<D>)
    requires s.segments == map[1 := [x], 2 := [y]] && s.counter == 0 && s.main.Idle? && s.tokens >= 1
    ensures exists steps, s' :: Runs(s, steps, s') && s'.main.Crashed? && s'.segments == map[1 := [], 2 := [y]]
    ensures exists steps, s' :: Runs(s, steps, s') && s'.main.Idle? && s'.segments == map[]
  {
    var front, w := NewWriterLoads(x, y, s);
    var crash, u := NewWriterCrashes(x, y, w);
    RunsThen(s, front, w, crash, u);
    var rest, v := NewWriterEmpties(x, y, w, []);
    RunsThen(s, front, w, rest, v);
  }
}
