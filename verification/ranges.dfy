/** query/clause.go and storage/storage.go: how a range clause becomes tokens, and when that is what the range says. */
module Ranges {
  import opened Bytes
  import opened Headers
  import opened Tokens

  datatype CaptureMode = CaptureNone | CaptureLeft | CaptureRight | CaptureBoth

  /** An empty bound is open. */
  datatype Range = Range(mode: CaptureMode, low: bytes, high: bytes)

  predicate TakesLow(m: CaptureMode) {
    m.CaptureLeft? || m.CaptureBoth?
  }

  predicate TakesHigh(m: CaptureMode) {
    m.CaptureRight? || m.CaptureBoth?
  }

  ghost predicate AboveLow(low: bytes, m: CaptureMode, v: bytes) {
    Less(low, v) || (v == low && TakesLow(m))
  }

  ghost predicate BelowHigh(high: bytes, m: CaptureMode, v: bytes) {
    Less(v, high) || (v == high && TakesHigh(m))
  }

  /** What the range says. */
  ghost function Within(r: Range): Token -> bool {
    (t: Token) => (r.low == [] || AboveLow(r.low, r.mode, t.Bytes()))
        && (r.high == [] || BelowHigh(r.high, r.mode, t.Bytes()))
  }

  /** The same with both bounds in place. */
  ghost function Between(low: bytes, high: bytes, m: CaptureMode): Token -> bool {
    (t: Token) => AboveLow(low, m, t.Bytes()) && BelowHigh(high, m, t.Bytes())
  }

  /** Those of the first `n` tokens that are kept, in table order. */
  ghost function Kept(s: seq<Token>, keep: Token -> bool, n: nat): seq<Token>
    requires n <= |s|
  {
    if n == 0 then [] else Kept(s, keep, n - 1) + if keep(s[n - 1]) then [s[n - 1]] else []
  }

  lemma {:induction false} KeptSkips(s: seq<Token>, keep: Token -> bool, i: nat, j: nat)
    requires i <= j <= |s| && forall l | i <= l < j :: !keep(s[l])
    ensures Kept(s, keep, j) == Kept(s, keep, i)
  {
    if i < j {
      KeptSkips(s, keep, i, j - 1);
    }
  }

  lemma {:induction false} KeptSame(s: seq<Token>, keep: Token -> bool, other: Token -> bool, n: nat)
    requires n <= |s| && forall l | 0 <= l < n :: keep(s[l]) == other(s[l])
    ensures Kept(s, keep, n) == Kept(s, other, n)
  {
    if n > 0 {
      KeptSame(s, keep, other, n - 1);
    }
  }

  lemma {:induction false} KeptMembers(s: seq<Token>, keep: Token -> bool, n: nat, t: Token)
    requires n <= |s|
    ensures t in Kept(s, keep, n) <==> exists l :: 0 <= l < n && s[l] == t && keep(t)
  {
    if n > 0 {
      KeptMembers(s, keep, n - 1, t);
      assert s[n - 1] == t && keep(t) ==> t in Kept(s, keep, n);
    }
  }

  /** `IterBytes`: the first and the last position of the walk; no walk when either bound lies above every token. */
  method IterBytes(s: seq<Token>, low: bytes, high: bytes) returns (some: bool, first: nat, last: nat)
    requires Sorted(s)
    ensures LowerBound(s, low, first) && LowerBound(s, high, last)
    ensures some <==> first < |s| && last < |s|
  {
    var found;
    first, found := BinarySearchBytes(s, low);
    last, found := BinarySearchBytes(s, high);
    some := first < |s| && last < |s|;
  }

  function Low(s: seq<Token>, r: Range): bytes
    requires s != []
  {
    if |r.low| == 0 then s[0].Bytes() else r.low
  }

  function High(s: seq<Token>, r: Range): bytes
    requires s != []
  {
    if |r.high| == 0 then s[|s| - 1].Bytes() else r.high
  }

  /** The walk only comes about when some token is not below each bound. */
  ghost predicate Reached(s: seq<Token>, b: bytes) {
    s != [] && !Less(s[|s| - 1].Bytes(), b)
  }

  lemma ReachedAt(s: seq<Token>, b: bytes, i: nat)
    requires Sorted(s) && LowerBound(s, b, i) && s != []
    ensures i < |s| <==> Reached(s, b)
  {
    LessTotal(s[|s| - 1].Bytes(), b);
  }

  /** What the code makes of a range: an open bound becomes the first or last token, and both bounds must be reached. */
  ghost function Resolved(s: seq<Token>, r: Range): seq<Token>
    requires s != []
  {
    if Reached(s, Low(s, r)) && Reached(s, High(s, r)) then Kept(s, Between(Low(s, r), High(s, r), r.mode), |s|) else []
  }

  /** The tokens of a range clause over a table that has some. */
  method RangeTokens(s: seq<Token>, r: Range) returns (out: seq<Token>)
    requires Sorted(s) && s != []
    ensures out == Resolved(s, r)
  {
    var low, high := Low(s, r), High(s, r);
    var some, start, end := IterBytes(s, low, high);
    ReachedAt(s, low, start);
    ReachedAt(s, high, end);
    out := [];
    if some {
      out := WalkRange(s, low, high, r.mode, start, end);
    }
  }

  method WalkRange(s: seq<Token>, low: bytes, high: bytes, m: CaptureMode, start: nat, end: nat)
      returns (out: seq<Token>)
    requires Sorted(s) && LowerBound(s, low, start) && LowerBound(s, high, end) && start < |s| && end < |s|
    ensures out == Kept(s, Between(low, high, m), |s|)
  {
    ghost var from, stop;
    out, from, stop := Walk(s, low, high, m, start, end);
    WalkIsKept(s, low, high, m, start, end, from, stop);
  }

  predicate AtLowEnd(low: bytes, m: CaptureMode, v: bytes) {
    v == low && !TakesLow(m)
  }

  /**
   The walk takes the tokens from `from` up to `stop`: all but an excluded first one, up to the first above the range.
   */
  ghost predicate Walks(s: seq<Token>, low: bytes, high: bytes, m: CaptureMode, start: nat, end: nat, from: nat,
                        stop: nat) {
    && start <= from <= stop <= |s| && start < |s|
    && from == (if AtLowEnd(low, m, s[start].Bytes()) && start < stop then start + 1 else start)
    && (from < stop ==> BelowHigh(high, m, s[stop - 1].Bytes()))
    && (stop <= end ==> stop < |s| && !BelowHigh(high, m, s[stop].Bytes()))
    && (stop <= end + 1 || stop == start)
  }

  method Walk(s: seq<Token>, low: bytes, high: bytes, m: CaptureMode, start: nat, end: nat)
      returns (out: seq<Token>, ghost from: nat, ghost stop: nat)
    requires start < |s| && end < |s|
    ensures Walks(s, low, high, m, start, end, from, stop) && out == s[from..stop]
  {
    out, from := [], start;
    var i := start;
    while i <= end
      invariant start <= from <= i <= |s| && out == s[from..i] && (i <= end + 1 || i == start)
      invariant from == if AtLowEnd(low, m, s[start].Bytes()) && start < i then start + 1 else start
      invariant from < i ==> BelowHigh(high, m, s[i - 1].Bytes())
    {
      if i == start && Compare(s[i].Bytes(), low) == 0 && (m.CaptureRight? || m.CaptureNone?) {
        from, i := start + 1, i + 1;
        assert out == [] == s[from..i];
        continue;
      }
      var over := Overruns(s[i].Bytes(), high, m);
      if over {
        return out, from, i;
      }
      SliceGrows(s, from, i);
      out := out + [s[i]];
      i := i + 1;
    }
    stop := i;
  }

  lemma SliceGrows<X>(s: seq<X>, from: nat, i: nat)
    requires from <= i < |s|
    ensures s[from..i + 1] == s[from..i] + [s[i]]
  {
  }

  method Overruns(v: bytes, high: bytes, m: CaptureMode) returns (over: bool)
    ensures over <==> !BelowHigh(high, m, v)
  {
    LessTotal(v, high);
    var c := Compare(v, high);
    over := c == 1 || (c == 0 && (m.CaptureLeft? || m.CaptureNone?));
  }

  lemma {:induction false} KeptAll(s: seq<Token>, keep: Token -> bool, i: nat, j: nat)
    requires i <= j <= |s| && forall l | i <= l < j :: keep(s[l])
    ensures Kept(s, keep, j) == Kept(s, keep, i) + s[i..j]
  {
    if i < j {
      KeptAll(s, keep, i, j - 1);
      SliceGrows(s, i, j - 1);
    }
  }

  lemma WalkedKept(s: seq<Token>, low: bytes, high: bytes, m: CaptureMode, start: nat, end: nat, from: nat, stop: nat,
                   l: nat)
    requires Sorted(s) && LowerBound(s, low, start) && Walks(s, low, high, m, start, end, from, stop)
    requires from <= l < stop
    ensures Between(low, high, m)(s[l])
  {
    if start < l {
      AboveStart(s, low, start, l);
    }
    if l < stop - 1 && s[stop - 1].Bytes() != high {
      LessTransitive(s[l].Bytes(), s[stop - 1].Bytes(), high);
    }
  }

  lemma FrontDropped(s: seq<Token>, low: bytes, high: bytes, m: CaptureMode, start: nat, end: nat, from: nat, stop: nat)
    requires Sorted(s) && LowerBound(s, low, start) && Walks(s, low, high, m, start, end, from, stop)
    ensures Kept(s, Between(low, high, m), from) == []
  {
    BelowStart(s, low, high, m, start);
    if from > start {
      ExcludedFirst(s, low, high, m, start);
    }
  }

  lemma ExcludedFirst(s: seq<Token>, low: bytes, high: bytes, m: CaptureMode, start: nat)
    requires start < |s| && AtLowEnd(low, m, s[start].Bytes())
    ensures Kept(s, Between(low, high, m), start + 1) == Kept(s, Between(low, high, m), start)
  {
    LessTotal(low, low);
  }

  lemma MiddleKept(s: seq<Token>, low: bytes, high: bytes, m: CaptureMode, start: nat, end: nat, from: nat, stop: nat)
    requires Sorted(s) && LowerBound(s, low, start) && Walks(s, low, high, m, start, end, from, stop)
    ensures Kept(s, Between(low, high, m), stop) == Kept(s, Between(low, high, m), from) + s[from..stop]
  {
    forall l | from <= l < stop
      ensures Between(low, high, m)(s[l])
    {
      WalkedKept(s, low, high, m, start, end, from, stop, l);
    }
    KeptAll(s, Between(low, high, m), from, stop);
  }

  lemma WalkIsKept(s: seq<Token>, low: bytes, high: bytes, m: CaptureMode, start: nat, end: nat, from: nat, stop: nat)
    requires Sorted(s) && LowerBound(s, low, start) && LowerBound(s, high, end) && end < |s|
    requires Walks(s, low, high, m, start, end, from, stop)
    ensures s[from..stop] == Kept(s, Between(low, high, m), |s|)
  {
    FrontDropped(s, low, high, m, start, end, from, stop);
    MiddleKept(s, low, high, m, start, end, from, stop);
    if stop <= end {
      NothingAbove(s, low, high, m, stop);
    } else {
      BeyondEnd(s, low, high, m, end, stop);
    }
  }

  lemma AboveStart(s: seq<Token>, low: bytes, start: nat, i: nat)
    requires Sorted(s) && LowerBound(s, low, start) && start < i < |s|
    ensures Less(low, s[i].Bytes())
  {
    if low != s[start].Bytes() {
      LessTransitive(low, s[start].Bytes(), s[i].Bytes());
    }
  }

  lemma NothingAbove(s: seq<Token>, low: bytes, high: bytes, m: CaptureMode, i: nat)
    requires Sorted(s) && i < |s| && !BelowHigh(high, m, s[i].Bytes())
    ensures Kept(s, Between(low, high, m), |s|) == Kept(s, Between(low, high, m), i)
  {
    forall l | i <= l < |s|
      ensures !BelowHigh(high, m, s[l].Bytes())
    {
      LessTotal(s[i].Bytes(), high);
      LessTotal(s[l].Bytes(), high);
      if s[i].Bytes() != high && i < l {
        LessTransitive(high, s[i].Bytes(), s[l].Bytes());
      }
    }
    KeptSkips(s, Between(low, high, m), i, |s|);
  }

  lemma BelowStart(s: seq<Token>, low: bytes, high: bytes, m: CaptureMode, start: nat)
    requires LowerBound(s, low, start)
    ensures Kept(s, Between(low, high, m), start) == []
  {
    forall l | 0 <= l < start
      ensures !AboveLow(low, m, s[l].Bytes())
    {
      LessTotal(s[l].Bytes(), low);
    }
    KeptSkips(s, Between(low, high, m), 0, start);
  }

  lemma BeyondEnd(s: seq<Token>, low: bytes, high: bytes, m: CaptureMode, end: nat, i: nat)
    requires Sorted(s) && LowerBound(s, high, end) && end < i <= |s|
    ensures Kept(s, Between(low, high, m), |s|) == Kept(s, Between(low, high, m), i)
  {
    forall l | end < l < |s|
      ensures !BelowHigh(high, m, s[l].Bytes())
    {
      AboveStart(s, high, end, l);
      LessTotal(high, s[l].Bytes());
    }
    KeptSkips(s, Between(low, high, m), i, |s|);
  }

  /** The first token is in the range, which is open below but excludes its low end. */
  ghost predicate LosesFirst(s: seq<Token>, r: Range)
    requires s != []
  {
    r.low == [] && !TakesLow(r.mode) && Within(r)(s[0])
  }

  /** The last token is in the range, which is open above but excludes its high end. */
  ghost predicate LosesLast(s: seq<Token>, r: Range)
    requires s != []
  {
    r.high == [] && !TakesHigh(r.mode) && Within(r)(s[|s| - 1])
  }

  /** The last token is in the range, and the high bound lies above it. */
  ghost predicate Overshoots(s: seq<Token>, r: Range)
    requires s != []
  {
    r.high != [] && Less(s[|s| - 1].Bytes(), r.high) && Within(r)(s[|s| - 1])
  }

  lemma NotBelowFirst(s: seq<Token>, l: nat)
    requires Sorted(s) && l < |s|
    ensures !Less(s[l].Bytes(), s[0].Bytes()) && !Less(s[|s| - 1].Bytes(), s[l].Bytes())
  {
    LessTotal(s[0].Bytes(), s[l].Bytes());
    LessTotal(s[|s| - 1].Bytes(), s[l].Bytes());
  }

  lemma LowMissed(s: seq<Token>, r: Range)
    requires Sorted(s) && s != [] && r.low != [] && !AboveLow(r.low, r.mode, s[|s| - 1].Bytes())
    ensures Kept(s, Within(r), |s|) == []
  {
    forall l | 0 <= l < |s|
      ensures !Within(r)(s[l])
    {
      NotBelowFirst(s, l);
      LessTotal(s[|s| - 1].Bytes(), s[l].Bytes());
      if AboveLow(r.low, r.mode, s[l].Bytes()) && l < |s| - 1 {
        if s[l].Bytes() != r.low {
          LessTransitive(r.low, s[l].Bytes(), s[|s| - 1].Bytes());
        }
        assert false;
      }
    }
    KeptSkips(s, Within(r), 0, |s|);
  }

  /** Between the bounds the code put in place and within the range are the same, but for the losses. */
  lemma SameKeep(s: seq<Token>, r: Range, l: nat)
    requires Sorted(s) && l < |s| && !LosesFirst(s, r) && !LosesLast(s, r)
    ensures Between(Low(s, r), High(s, r), r.mode)(s[l]) == Within(r)(s[l])
  {
    if 0 < l {
      assert Less(s[0].Bytes(), s[l].Bytes());
    }
    if l < |s| - 1 {
      assert Less(s[l].Bytes(), s[|s| - 1].Bytes());
    }
    LessTotal(s[0].Bytes(), s[0].Bytes());
    LessTotal(s[|s| - 1].Bytes(), s[|s| - 1].Bytes());
  }

  lemma ReachedExact(s: seq<Token>, r: Range)
    requires Sorted(s) && s != [] && !LosesFirst(s, r) && !LosesLast(s, r)
    ensures Kept(s, Between(Low(s, r), High(s, r), r.mode), |s|) == Kept(s, Within(r), |s|)
  {
    forall l | 0 <= l < |s|
      ensures Between(Low(s, r), High(s, r), r.mode)(s[l]) == Within(r)(s[l])
    {
      SameKeep(s, r, l);
    }
    KeptSame(s, Between(Low(s, r), High(s, r), r.mode), Within(r), |s|);
  }

  lemma UnreachedExact(s: seq<Token>, r: Range)
    requires Sorted(s) && s != [] && !Overshoots(s, r)
    requires !Reached(s, Low(s, r)) || !Reached(s, High(s, r))
    ensures Kept(s, Within(r), |s|) == []
  {
    LastBelow(s, r);
    LowMissed(s, r);
  }

  /** A bound that is not reached, without an overshoot: the last token is below the low bound. */
  lemma LastBelow(s: seq<Token>, r: Range)
    requires Sorted(s) && s != [] && !Overshoots(s, r)
    requires !Reached(s, Low(s, r)) || !Reached(s, High(s, r))
    ensures r.low != [] && !AboveLow(r.low, r.mode, s[|s| - 1].Bytes())
  {
    NotBelowFirst(s, |s| - 1);
    if !Reached(s, Low(s, r)) {
      LessTotal(s[|s| - 1].Bytes(), r.low);
    } else {
      LessTotal(s[|s| - 1].Bytes(), r.high);
    }
  }

  lemma FirstLost(s: seq<Token>, r: Range)
    requires Sorted(s) && s != [] && LosesFirst(s, r)
    ensures s[0] in Kept(s, Within(r), |s|) && s[0] !in Resolved(s, r)
  {
    KeptMembers(s, Within(r), |s|, s[0]);
    LessTotal(s[0].Bytes(), s[0].Bytes());
    KeptMembers(s, Between(Low(s, r), High(s, r), r.mode), |s|, s[0]);
  }

  lemma LastLost(s: seq<Token>, r: Range)
    requires Sorted(s) && s != [] && LosesLast(s, r)
    ensures s[|s| - 1] in Kept(s, Within(r), |s|) && s[|s| - 1] !in Resolved(s, r)
  {
    var last := s[|s| - 1];
    KeptMembers(s, Within(r), |s|, last);
    LessTotal(last.Bytes(), last.Bytes());
    KeptMembers(s, Between(Low(s, r), High(s, r), r.mode), |s|, last);
  }

  lemma Overshot(s: seq<Token>, r: Range)
    requires Sorted(s) && s != [] && Overshoots(s, r)
    ensures s[|s| - 1] in Kept(s, Within(r), |s|) && Resolved(s, r) == []
  {
    KeptMembers(s, Within(r), |s|, s[|s| - 1]);
    assert !Reached(s, High(s, r));
  }

  /**
   Exactly when a range clause gives the tokens in its range: unless it loses the first or last one, or overshoots.
   */
  lemma RangeExact(s: seq<Token>, r: Range)
    requires Sorted(s) && s != []
    ensures Resolved(s, r) == Kept(s, Within(r), |s|) <==> !LosesFirst(s, r) && !LosesLast(s, r) && !Overshoots(s, r)
  {
    if LosesFirst(s, r) {
      FirstLost(s, r);
    } else if LosesLast(s, r) {
      LastLost(s, r);
    } else if Overshoots(s, r) {
      Overshot(s, r);
    } else if Reached(s, Low(s, r)) && Reached(s, High(s, r)) {
      ReachedExact(s, r);
    } else {
      UnreachedExact(s, r);
    }
  }

  function TokenOf(v: bytes): Token {
    Token(1, 0, 0, RawValueFrom(v))
  }

  lemma OneToken(v: bytes)
    requires |v| <= MaxRawValueSize
    ensures TokenOf(v).Bytes() == v && Sorted([TokenOf(v)])
  {
  }

  /** A table of one token, and an upper bound that the token meets: the open low end excludes it. */
  lemma FirstLostAt()
    ensures var s, r := [TokenOf([1])], Range(CaptureRight, [], [1]);
            Sorted(s) && LosesFirst(s, r) && Within(r)(s[0]) && s[0] !in Resolved(s, r)
  {
    OneToken([1]);
    FirstLost([TokenOf([1])], Range(CaptureRight, [], [1]));
  }

  /** A lower bound that it meets: the open high end excludes it. */
  lemma LastLostAt()
    ensures var s, r := [TokenOf([1])], Range(CaptureLeft, [1], []);
            Sorted(s) && LosesLast(s, r) && Within(r)(s[0]) && s[0] !in Resolved(s, r)
  {
    OneToken([1]);
    LastLost([TokenOf([1])], Range(CaptureLeft, [1], []));
  }

  /** An upper bound above it: nothing is found. */
  lemma OvershotAt()
    ensures var s, r := [TokenOf([1])], Range(CaptureLeft, [], [2]);
            Sorted(s) && Overshoots(s, r) && Within(r)(s[0]) && Resolved(s, r) == []
  {
    OneToken([1]);
    assert Splits([1], [2], 0);
    Overshot([TokenOf([1])], Range(CaptureLeft, [], [2]));
  }
}
