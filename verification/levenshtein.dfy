/** levenshtein/levenshtein.go: a budgeted automaton over two boolean layers that decides `distance <= k`. */
module LevenshteinMatcher {
  import opened Bytes
  import opened EditDistance

  const MaxLevenshteinLength := 60

  /** `at` bytes of the second string are consumed and `budget` edits are left. */
  datatype State = State(at: nat, budget: nat)

  /** Position of a state in a layer, `at * stride + budget` in the buffer. */
  function Slot(k: nat, s: State): nat {
    s.at * (k + 1) + s.budget
  }

  function Grid(t: bytes, k: nat): set<State> {
    set i, d | 0 <= i <= |t| && 0 <= d <= k :: State(i, d)
  }

  /** One byte `c` of the first string takes `o` to `s`: drop it, substitute it, or insert bytes and then match it. */
  predicate Goes(c: byte, t: bytes, o: State, s: State) {
    || (o.budget == s.budget + 1 && (s.at == o.at || s.at == o.at + 1))
    || (o.at < s.at <= |t| && c == t[s.at - 1] && o.budget == s.budget + (s.at - o.at - 1))
  }

  ghost function Advance(from: set<State>, c: byte, t: bytes, k: nat): set<State> {
    set s | s in Grid(t, k) && exists o :: o in from && Goes(c, t, o, s)
  }

  /** The states alive after the bytes of `p`. */
  ghost function Run(p: bytes, t: bytes, k: nat): set<State> {
    if p == [] then {State(0, k)} else Advance(Run(p[..|p| - 1], t, k), p[|p| - 1], t, k)
  }

  /** What the end of the first string asks of a state: the rest of the second one can be inserted. */
  predicate Accepts(s: State, t: bytes) {
    |t| - s.at <= s.budget
  }

  lemma {:induction false} MultipleGrows(a: nat, b: nat, m: nat)
    requires a < b
    ensures b * m >= a * m + m
  {
    if a < b - 1 {
      MultipleGrows(a, b - 1, m);
    }
    assert b * m == (b - 1) * m + m;
  }

  lemma SlotInLayer(k: nat, n: nat, s: State)
    requires s.at <= n && s.budget <= k
    ensures Slot(k, s) < (n + 1) * (k + 1)
  {
    MultipleGrows(s.at, n + 1, k + 1);
  }

  lemma SlotIncreases(k: nat, s: State, s': State)
    requires s.budget <= k && s.at < s'.at
    ensures Slot(k, s) < Slot(k, s')
  {
    MultipleGrows(s.at, s'.at, k + 1);
  }

  lemma SlotInjective(k: nat, s: State, s': State)
    requires s.budget <= k && s'.budget <= k && Slot(k, s) == Slot(k, s')
    ensures s == s'
  {
    if s.at < s'.at {
      SlotIncreases(k, s, s');
    } else if s'.at < s.at {
      SlotIncreases(k, s', s);
    }
  }

  ghost predicate IsBuffer(buf: array<bool>, t: bytes, k: nat) {
    buf.Length == (|t| + 1) * (k + 1)
  }

  ghost function Layer(buf: array<bool>, t: bytes, k: nat): set<State>
    requires IsBuffer(buf, t, k)
    reads buf
  {
    set s | s in Grid(t, k) && (SlotInLayer(k, |t|, s); buf[Slot(k, s)])
  }

  method Mark(buf: array<bool>, t: bytes, k: nat, s: State)
    requires IsBuffer(buf, t, k) && s in Grid(t, k)
    modifies buf
    ensures Layer(buf, t, k) == old(Layer(buf, t, k)) + {s}
  {
    SlotInLayer(k, |t|, s);
    buf[Slot(k, s)] := true;
    forall o | o in Grid(t, k) && o != s
      ensures (SlotInLayer(k, |t|, o); buf[Slot(k, o)] == old(buf[Slot(k, o)]))
    {
      SlotInLayer(k, |t|, o);
      if Slot(k, o) == Slot(k, s) {
        SlotInjective(k, o, s);
      }
    }
  }

  ghost function Moves(c: byte, t: bytes, k: nat, o: State): set<State> {
    set s | s in Grid(t, k) && Goes(c, t, o, s)
  }

  ghost function Matched(c: byte, t: bytes, k: nat, o: State, dd: nat): set<State>
    requires o in Grid(t, k)
  {
    set s | s in Grid(t, k) && o.at < s.at <= o.at + dd && c == t[s.at - 1] && o.budget == s.budget + (s.at - o.at - 1)
  }

  ghost function Dropped(t: bytes, k: nat, o: State): set<State> {
    set s | s in Grid(t, k) && o.budget == s.budget + 1 && (s.at == o.at || s.at == o.at + 1)
  }

  /** The deletion and substitution branch. */
  method Drop(next: array<bool>, t: bytes, k: nat, o: State)
    requires IsBuffer(next, t, k) && o in Grid(t, k)
    modifies next
    ensures Layer(next, t, k) == old(Layer(next, t, k)) + Dropped(t, k, o)
  {
    if o.budget >= 1 {
      Mark(next, t, k, State(o.at, o.budget - 1));
      if o.at + 1 <= |t| {
        Mark(next, t, k, State(o.at + 1, o.budget - 1));
        assert Dropped(t, k, o) == {State(o.at, o.budget - 1), State(o.at + 1, o.budget - 1)};
      } else {
        assert Dropped(t, k, o) == {State(o.at, o.budget - 1)};
      }
    }
  }

  lemma MatchedMore(c: byte, t: bytes, k: nat, o: State, dd: nat)
    requires o in Grid(t, k) && o.at + dd < |t| && dd <= o.budget
    ensures Matched(c, t, k, o, dd + 1) ==
            Matched(c, t, k, o, dd) + if c == t[o.at + dd] then {State(o.at + dd + 1, o.budget - dd)} else {}
  {
  }

  /** The body of the two inner loops for one live state. */
  method Expand(next: array<bool>, c: byte, t: bytes, k: nat, o: State)
    requires IsBuffer(next, t, k) && o in Grid(t, k)
    modifies next
    ensures Layer(next, t, k) == old(Layer(next, t, k)) + Moves(c, t, k, o)
  {
    Drop(next, t, k, o);
    ghost var dropped := Layer(next, t, k);
    var limit := Min(o.budget + 1, |t| - o.at);
    for dd := 0 to limit
      invariant Layer(next, t, k) == dropped + Matched(c, t, k, o, dd)
    {
      MatchedMore(c, t, k, o, dd);
      if c == t[o.at + dd] {
        Mark(next, t, k, State(o.at + dd + 1, o.budget - dd));
      }
    }
    MovesSplit(c, t, k, o, limit);
  }

  lemma MovesSplit(c: byte, t: bytes, k: nat, o: State, limit: int)
    requires o in Grid(t, k) && limit == Min(o.budget + 1, |t| - o.at)
    ensures Dropped(t, k, o) + Matched(c, t, k, o, limit) == Moves(c, t, k, o)
  {
  }

  /** States of `from` that the loops have met before position (i, d). */
  ghost function Met(from: set<State>, i: int, d: int): set<State> {
    set o | o in from && (o.at < i || (o.at == i && o.budget < d))
  }

  lemma AdvanceMore(met: set<State>, o: State, c: byte, t: bytes, k: nat)
    ensures Advance(met + {o}, c, t, k) == Advance(met, c, t, k) + Moves(c, t, k, o)
  {
    forall s | s in Grid(t, k)
      ensures s in Advance(met + {o}, c, t, k) <==> s in Advance(met, c, t, k) || s in Moves(c, t, k, o)
    {
      if Goes(c, t, o, s) {
        assert o in met + {o};
      }
    }
  }

  /** `clear(next)`. */
  method Clear(next: array<bool>, t: bytes, k: nat)
    requires IsBuffer(next, t, k)
    modifies next
    ensures Layer(next, t, k) == {}
  {
    forall j | 0 <= j < next.Length {
      next[j] := false;
    }
    forall s | s in Grid(t, k)
      ensures (SlotInLayer(k, |t|, s); !next[Slot(k, s)])
    {
      SlotInLayer(k, |t|, s);
    }
  }

  /** One round of the outer loop, before the layers are swapped. */
  method Consume(current: array<bool>, next: array<bool>, c: byte, t: bytes, k: nat)
    requires current != next && IsBuffer(current, t, k) && IsBuffer(next, t, k)
    modifies next
    ensures Layer(next, t, k) == Advance(Layer(current, t, k), c, t, k)
  {
    Clear(next, t, k);
    ghost var from := Layer(current, t, k);
    for i2 := 0 to |t| + 1
      invariant Layer(current, t, k) == from
      invariant Layer(next, t, k) == Advance(Met(from, i2, 0), c, t, k)
    {
      for d := 0 to k + 1
        invariant Layer(current, t, k) == from
        invariant Layer(next, t, k) == Advance(Met(from, i2, d), c, t, k)
      {
        var o := State(i2, d);
        SlotInLayer(k, |t|, o);
        if current[Slot(k, o)] {
          Expand(next, c, t, k, o);
          AdvanceMore(Met(from, i2, d), o, c, t, k);
          assert Met(from, i2, d + 1) == Met(from, i2, d) + {o};
        } else {
          assert Met(from, i2, d + 1) == Met(from, i2, d);
        }
      }
      assert Met(from, i2, k + 1) == Met(from, i2 + 1, 0);
    }
    assert Met(from, |t| + 1, 0) == from;
  }

  /** The scan of the last layer. */
  method AnyAccepting(current: array<bool>, t: bytes, k: nat) returns (found: bool)
    requires IsBuffer(current, t, k)
    ensures found <==> exists s :: s in Layer(current, t, k) && Accepts(s, t)
  {
    for i2 := 0 to |t| + 1
      invariant forall s | s in Met(Layer(current, t, k), i2, 0) :: !Accepts(s, t)
    {
      for d := 0 to k + 1
        invariant forall s | s in Met(Layer(current, t, k), i2, d) :: !Accepts(s, t)
      {
        var s := State(i2, d);
        SlotInLayer(k, |t|, s);
        if current[Slot(k, s)] && |t| - i2 <= d {
          assert s in Layer(current, t, k) && Accepts(s, t);
          return true;
        }
      }
    }
    assert Met(Layer(current, t, k), |t| + 1, 0) == Layer(current, t, k);
    return false;
  }

  method LevenshteinMatch(s1: bytes, s2: bytes, k: int) returns (r: bool)
    requires |s1| < MaxLevenshteinLength && |s2| < MaxLevenshteinLength ==> k >= 0
    ensures r <==> |s1| < MaxLevenshteinLength && |s2| < MaxLevenshteinLength && k <= 3 && Dist(s1, s2, |s2|) <= k
  {
    if |s1| >= MaxLevenshteinLength || |s2| >= MaxLevenshteinLength {
      return false;
    }
    if k > 3 {
      return false;
    }
    var size := (|s2| + 1) * (k + 1);
    var current, next := new bool[size](_ => false), new bool[size](_ => false);
    Clear(current, s2, k);
    Mark(current, s2, k, State(0, k));
    for n := 0 to |s1|
      invariant current != next && fresh(current) && fresh(next) && IsBuffer(current, s2, k) && IsBuffer(next, s2, k)
      invariant Layer(current, s2, k) == Run(s1[..n], s2, k)
    {
      Consume(current, next, s1[n], s2, k);
      assert s1[..n + 1][..n] == s1[..n];
      current, next := next, current;
    }
    assert s1[..|s1|] == s1;
    r := AnyAccepting(current, s2, k);
    RunDecidesDistance(s1, s2, k);
  }

  lemma {:induction false} DistGrows(p: bytes, t: bytes, i: nat, j: nat)
    requires i <= j <= |t|
    ensures Dist(p, t, j) <= Dist(p, t, i) + (j - i)
    decreases j
  {
    if i < j {
      DistGrows(p, t, i, j - 1);
      DistStep(p, t, j);
    }
  }

  /** A state has spent at least the distance to the bytes it consumed. */
  ghost predicate Affords(s: State, p: bytes, t: bytes, k: nat) {
    s.at <= |t| && Dist(p, t, s.at) + s.budget <= k
  }

  lemma DropBound(q: bytes, c: byte, t: bytes, i: nat)
    requires i <= |t|
    ensures Dist(q + [c], t, i) <= Dist(q, t, i) + 1
  {
    DistSnoc(q, c, t, i);
    DistNil(q, t);
  }

  lemma AlignBound(q: bytes, c: byte, t: bytes, i: nat, j: nat)
    requires i < j <= |t|
    ensures Dist(q + [c], t, j) <= Dist(q, t, i) + (j - 1 - i) + Cost(c, t[j - 1])
  {
    DistSnoc(q, c, t, j);
    DistGrows(q, t, i, j - 1);
  }

  lemma GoesAffords(q: bytes, c: byte, t: bytes, k: nat, o: State, s: State)
    requires Affords(o, q, t, k) && Goes(c, t, o, s) && s.at <= |t|
    ensures Affords(s, q + [c], t, k)
  {
    if s.at == o.at {
      DropBound(q, c, t, o.at);
    } else {
      AlignBound(q, c, t, o.at, s.at);
    }
  }

  lemma {:induction false} RunSound(p: bytes, t: bytes, k: nat, s: State)
    requires s in Run(p, t, k)
    ensures Affords(s, p, t, k)
    decreases |p|
  {
    if p != [] {
      var q, c := p[..|p| - 1], p[|p| - 1];
      var o :| o in Run(q, t, k) && Goes(c, t, o, s);
      RunSound(q, t, k, o);
      GoesAffords(q, c, t, k, o, s);
      assert p == q + [c];
    }
  }

  lemma RunSnoc(q: bytes, c: byte, t: bytes, k: nat, o: State, s: State)
    requires o in Run(q, t, k) && Goes(c, t, o, s) && s in Grid(t, k)
    ensures s in Run(q + [c], t, k)
  {
    assert (q + [c])[..|q|] == q;
  }

  /** The state stands for `j`: it may lag behind, and then still holds the budget of the missing insertions. */
  ghost predicate StandsFor(s: State, p: bytes, t: bytes, k: nat, j: nat)
    requires j <= |t|
  {
    s in Run(p, t, k) && s.at <= j && s.budget <= k && s.budget >= (k - Dist(p, t, j)) + (j - s.at)
  }

  /** Completeness: insertions happen only before a match or at the very end, hence the lag. */
  lemma {:induction false} RunComplete(p: bytes, t: bytes, k: nat, j: nat) returns (s: State)
    requires j <= |t| && Dist(p, t, j) <= k
    ensures StandsFor(s, p, t, k, j)
    decreases |p|, j, 1
  {
    if p == [] {
      s := State(0, k);
    } else {
      var q, c := SplitLast(p);
      s := RunCompleteSnoc(q, c, t, k, j);
    }
  }

  lemma {:induction false} RunCompleteSnoc(q: bytes, c: byte, t: bytes, k: nat, j: nat) returns (s: State)
    requires j <= |t| && Dist(q + [c], t, j) <= k
    ensures StandsFor(s, q + [c], t, k, j)
    decreases |q| + 1, j, 0
  {
    DistSnoc(q, c, t, j);
    if j == 0 || Dist(q + [c], t, j) == Dist(q, t, j) + 1 {
      DistNil(q, t);
      var o := RunComplete(q, t, k, j);
      s := State(o.at, o.budget - 1);
      RunSnoc(q, c, t, k, o, s);
    } else if Dist(q + [c], t, j) == Dist(q + [c], t, j - 1) + 1 {
      s := RunComplete(q + [c], t, k, j - 1);
    } else {
      var o := RunComplete(q, t, k, j - 1);
      s := if c == t[j - 1] then State(j, o.budget - (j - 1 - o.at)) else State(o.at + 1, o.budget - 1);
      RunSnoc(q, c, t, k, o, s);
    }
  }

  lemma RunDecidesDistance(s1: bytes, s2: bytes, k: nat)
    ensures (exists s :: s in Run(s1, s2, k) && Accepts(s, s2)) <==> Dist(s1, s2, |s2|) <= k
  {
    if Dist(s1, s2, |s2|) <= k {
      var s := RunComplete(s1, s2, k, |s2|);
      assert Accepts(s, s2);
    }
    forall s | s in Run(s1, s2, k) && Accepts(s, s2)
      ensures Dist(s1, s2, |s2|) <= k
    {
      RunSound(s1, s2, k, s);
      DistGrows(s1, s2, s.at, |s2|);
    }
  }
}
