/**
 writer.go, `Merge`: rounds of concurrent pairwise merges, as a step system. A directory maps segment names to the
 documents they hold; every step is one thing a goroutine or the main loop does, and they interleave freely.
 */
module WriterSteps {
  import opened Totals

  datatype Phase = Waiting | Running | Loaded | Produced | HalfRemoved | Merged | Failed | Skipped

  /** One chunk of the directory listing: two segments to merge, or one left over. */
  datatype Job<D> = Job(a: nat, b: nat, pair: bool, da: seq<D>, db: seq<D>, phase: Phase, out: nat)

  datatype Main = Idle | Round | Finished(ok: bool) | Crashed

  /**
   A pair fails while it loads its segments, while it creates its output, or behind that, when it removes it again.
   */
  datatype Failure = LoadFails | CreateFails | MergeFails

  datatype State<D> = State(
    segments: map<nat, seq<D>>,
    counter: nat,
    workers: nat,
    tokens: nat,
    main: Main,
    start: nat,
    jobs: seq<Job<D>>,
    next: nat,
    errors: nat,
    collected: nat,
    cut: set<nat>)

  datatype Step<D> = List(order: seq<nat>) | Dispatch | Skip(i: nat) | Load(i: nat) | Fail(i: nat, how: Failure)
    | Produce(i: nat, docs: seq<D>) | Fault(i: nat) | RemoveA(i: nat) | RemoveB(i: nat) | Collect | EndRound

  /** `slices.Chunk(dirEntries, 2)`. */
  function JobAt<D>(segments: map<nat, seq<D>>, order: seq<nat>, i: nat): Job<D>
    requires 2 * i < |order| && forall k | 0 <= k < |order| :: order[k] in segments
  {
    var a := order[2 * i];
    if 2 * i + 1 < |order| then
      var b := order[2 * i + 1];
      Job(a, b, true, segments[a], segments[b], Waiting, 0)
    else Job(a, a, false, segments[a], [], Waiting, 0)
  }

  function Jobs<D>(segments: map<nat, seq<D>>, order: seq<nat>): seq<Job<D>>
    requires forall k | 0 <= k < |order| :: order[k] in segments
  {
    seq((|order| + 1) / 2, i requires 0 <= i < (|order| + 1) / 2 => JobAt(segments, order, i))
  }

  /** The error channel holds half the entries and one more. */
  function Capacity<D>(s: State<D>): nat {
    s.start / 2 + 1
  }

  predicate Done<D>(j: Job<D>) {
    j.phase.Merged? || j.phase.Failed? || j.phase.Skipped?
  }

  predicate Active<D>(j: Job<D>) {
    j.phase.Running? || j.phase.Loaded? || j.phase.Produced? || j.phase.HalfRemoved?
  }

  predicate InRound<D>(s: State<D>, i: nat) {
    s.main.Round? && i < |s.jobs|
  }

  /** The pairs that still read their sources and have the segment mapped. */
  ghost function Readers<D>(s: State<D>, name: nat): set<nat> {
    set k: nat | k < |s.jobs| && s.jobs[k].phase.Loaded? && (name == s.jobs[k].a || name == s.jobs[k].b)
  }

  /** One of the sources of pair i has been cut off under its mapping, or will be when the pair creates its output. */
  ghost predicate CutOff<D>(s: State<D>, i: nat) {
    i in s.cut || i in Readers(s, s.counter + 1)
  }

  /** The directory is listed in the order of the names. */
  ghost predicate Listed<D>(order: seq<nat>, segments: map<nat, seq<D>>) {
    Enumerates(order, segments.Keys) && forall i, j | 0 <= i < j < |order| :: order[i] < order[j]
  }

  ghost predicate Can<D>(s: State<D>, t: Step<D>) {
    match t
    case List(order) => s.main.Idle? && Listed(order, s.segments)
    case Dispatch => s.main.Round? && s.next < |s.jobs| && s.tokens > 0
    case Skip(i) => InRound(s, i) && s.jobs[i].phase.Running? && !s.jobs[i].pair
    case Load(i) => InRound(s, i) && s.jobs[i].phase.Running? && s.jobs[i].pair && s.jobs[i].a in s.segments
         && s.jobs[i].b in s.segments
    case Fail(i, how) =>
      InRound(s, i) && s.jobs[i].pair && s.errors < Capacity(s)
      && (if how.LoadFails? then s.jobs[i].phase.Running? else s.jobs[i].phase.Loaded?)
    case Produce(i, docs) =>
      InRound(s, i) && s.jobs[i].phase.Loaded? && (docs == s.jobs[i].da + s.jobs[i].db || CutOff(s, i))
    case Fault(i) => InRound(s, i) && s.jobs[i].phase.Loaded? && CutOff(s, i)
    case RemoveA(i) => InRound(s, i) && s.jobs[i].phase.Produced?
    case RemoveB(i) => InRound(s, i) && s.jobs[i].phase.HalfRemoved?
    case Collect => s.main.Round? && s.next == |s.jobs| && s.errors > 0
    case EndRound => s.main.Round? && s.next == |s.jobs| && s.errors == 0 && forall i | 0 <= i < |s.jobs| ::
         Done(s.jobs[i])
  }

  /**
   A pair reads its sources as they are when it loads them. Creating a file that is mapped cuts it off; reading on ends
   the process behind the last page of the new file, and yields whatever has been written there before it.
   */
  ghost function Apply<D>(s: State<D>, t: Step<D>): State<D>
    requires Can(s, t)
  {
    match t
    case List(order) =>
      if |order| == 1 then s.(main := Finished(true))
      else s.(main := Round, start := |order|, jobs := Jobs(s.segments, order), next := 0, errors := 0, collected := 0,
               cut := {})
    case Dispatch => s.(jobs := s.jobs[s.next := s.jobs[s.next].(phase := Running)], next := s.next + 1,
                        tokens := s.tokens - 1)
    case Skip(i) => s.(jobs := s.jobs[i := s.jobs[i].(phase := Skipped)], tokens := s.tokens + 1)
    case Load(i) =>
      s.(jobs := s.jobs[i := s.jobs[i].(phase := Loaded, da := s.segments[s.jobs[i].a], db := s.segments[s.jobs[i].b])])
    case Fail(i, how) =>
      s.(jobs := s.jobs[i := s.jobs[i].(phase := Failed)], errors := s.errors + 1, tokens := s.tokens + 1,
         counter := if how.LoadFails? then s.counter else s.counter + 1,
         segments := if how.MergeFails? then s.segments - {s.counter + 1} else s.segments,
         cut := if how.MergeFails? then s.cut + Readers(s, s.counter + 1) else s.cut)
    case Produce(i, docs) =>
      var out := s.counter + 1;
      s.(jobs := s.jobs[i := s.jobs[i].(phase := Produced, out := out)], counter := out,
         segments := s.segments[out := docs], cut := s.cut + Readers(s, out))
    case Fault(i) => s.(main := Crashed, counter := s.counter + 1, segments := s.segments[s.counter + 1 := []])
    case RemoveA(i) => s.(jobs := s.jobs[i := s.jobs[i].(phase := HalfRemoved)], segments := s.segments - {s.jobs[i].a})
    case RemoveB(i) =>
      s.(jobs := s.jobs[i := s.jobs[i].(phase := Merged)], segments := s.segments - {s.jobs[i].b},
         tokens := s.tokens + 1)
    case Collect => s.(errors := s.errors - 1, collected := s.collected + 1)
    case EndRound => s.(main := if s.collected == 0 then Idle else Finished(false))
  }

  /** A run: steps that can be taken one after the other. */
  ghost predicate Runs<D(!new)>(s: State<D>, steps: seq<Step<D>>, s': State<D>)
    decreases |steps|
  {
    if steps == [] then s' == s else Can(s, steps[0]) && Runs(Apply(s, steps[0]), steps[1..], s')
  }

  lemma {:induction false} RunsThen<D(!new)>(s: State<D>, xs: seq<Step<D>>, t: State<D>, ys: seq<Step<D>>, u: State<D>)
    requires Runs(s, xs, t) && Runs(t, ys, u)
    ensures Runs(s, xs + ys, u)
    decreases |xs|
  {
    if xs == [] {
      assert xs + ys == ys;
    } else {
      RunsThen(Apply(s, xs[0]), xs[1..], t, ys, u);
      assert (xs + ys)[0] == xs[0] && (xs + ys)[1..] == xs[1..] + ys;
    }
  }

  lemma RunsOne<D(!new)>(s: State<D>, t: Step<D>)
    requires Can(s, t)
    ensures Runs(s, [t], Apply(s, t))
  {
    assert [t][1..] == [];
    assert Runs(Apply(s, t), [], Apply(s, t));
  }

  lemma RunsStep<D(!new)>(s: State<D>, t: Step<D>, rest: seq<Step<D>>, u: State<D>)
    requires Can(s, t) && Runs(Apply(s, t), rest, u)
    ensures Runs(s, [t] + rest, u)
  {
    assert ([t] + rest)[1..] == rest;
  }
}
