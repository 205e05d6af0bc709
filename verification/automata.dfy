/** levenshtein/automata.go: a Levenshtein automaton intersected with a byte-sorted token table. */
module Automata {
  import opened Bytes
  import opened EditDistance
  import opened Headers
  import opened Options
  import opened Tokens
  import opened LevenshteinMatcher

  newtype uint8 = x: int | 0 <= x < 256

  /** A row of the edit-distance table, clamped to k + 1. */
  type Row = seq<uint8>

  ghost predicate Dead(k: nat, keyword: bytes, p: bytes) {
    forall i | 0 <= i <= |keyword| :: Dist(p, keyword, i) > k
  }

  lemma DeadSnoc(k: nat, keyword: bytes, p: bytes, c: byte)
    requires Dead(k, keyword, p)
    ensures Dead(k, keyword, p + [c])
  {
    DeadSnocUpTo(k, keyword, p, c, |keyword|);
  }

  lemma {:induction false} DeadSnocUpTo(k: nat, keyword: bytes, p: bytes, c: byte, n: nat)
    requires Dead(k, keyword, p) && n <= |keyword|
    ensures forall i | 0 <= i <= n :: Dist(p + [c], keyword, i) > k
  {
    DistSnoc(p, c, keyword, n);
    DistNil(p, keyword);
    if n > 0 {
      DeadSnocUpTo(k, keyword, p, c, n - 1);
    }
  }

  /** A term whose prefix has no cell within reach is out of reach itself. */
  lemma {:induction false} DeadStaysDead(k: nat, keyword: bytes, p: bytes, w: bytes)
    requires Dead(k, keyword, p) && p <= w
    ensures Dead(k, keyword, w)
    decreases |w|
  {
    if |p| < |w| {
      var q, c := SplitLast(w);
      DeadStaysDead(k, keyword, p, q);
      DeadSnoc(k, keyword, q, c);
    } else {
      assert p == w;
    }
  }

  /** At most k single-byte edits turn the token into the keyword. */
  ghost predicate Close(k: nat, keyword: bytes, token: Token) {
    WithinEdits(token.Bytes(), keyword, k)
  }

  lemma DeadIsNotClose(k: nat, keyword: bytes, token: Token)
    requires Dead(k, keyword, token.Bytes())
    ensures !Close(k, keyword, token)
  {
    DistIsShortestScript(token.Bytes(), keyword, k);
  }

  /** Those of the first n tokens that are within distance k, in table order. */
  ghost function Matching(k: nat, keyword: bytes, s: seq<Token>, n: nat): seq<Token>
    requires n <= |s|
  {
    if n == 0 then []
    else Matching(k, keyword, s, n - 1) + if Close(k, keyword, s[n - 1]) then [s[n - 1]] else []
  }

  ghost function Cut(s: seq<Token>, m: int): seq<Token> {
    if m > 0 && |s| > m then s[..m] else s
  }

  lemma {:induction false} MatchingSkips(k: nat, keyword: bytes, s: seq<Token>, i: nat, j: nat)
    requires i <= j <= |s|
    requires forall l | i <= l < j :: !Close(k, keyword, s[l])
    ensures Matching(k, keyword, s, j) == Matching(k, keyword, s, i)
  {
    if i < j {
      MatchingSkips(k, keyword, s, i, j - 1);
    }
  }

  lemma {:induction false} MatchingGrows(k: nat, keyword: bytes, s: seq<Token>, i: nat, j: nat)
    requires i <= j <= |s|
    ensures Matching(k, keyword, s, i) <= Matching(k, keyword, s, j)
  {
    if i < j {
      MatchingGrows(k, keyword, s, i, j - 1);
    }
  }

  /** No byte above the one of `key` (any byte, past its end) leads on from its first `pos` bytes. */
  ghost predicate Blocked(k: nat, keyword: bytes, key: bytes, pos: nat)
    requires pos <= |key|
  {
    forall x: byte | pos < |key| ==> x > key[pos] :: Dead(k, keyword, key[..pos] + [x])
  }

  /** A live term above `key` branches off at a position that is not blocked, before `key` dies. */
  lemma Branch(k: nat, keyword: bytes, key: bytes, w: bytes) returns (l: nat)
    requires Less(key, w) && !Dead(k, keyword, w)
    ensures Splits(key, w, l) && !Blocked(k, keyword, key, l) && !Dead(k, keyword, key[..l] + [w[l]])
    ensures forall n | 0 <= n <= |key| && Dead(k, keyword, key[..n]) :: n > l
  {
    l :| Splits(key, w, l);
    assert key[..l] + [w[l]] == w[..l + 1];
    if Dead(k, keyword, w[..l + 1]) {
      DeadStaysDead(k, keyword, w[..l + 1], w);
      assert false;
    }
    forall n | 0 <= n <= |key| && Dead(k, keyword, key[..n])
      ensures n > l
    {
      if n <= l {
        assert key[..n] == key[..l][..n] == w[..l][..n] == w[..n];
        DeadStaysDead(k, keyword, key[..n], w);
      }
    }
  }

  /** `next` leaves `key` at `pos` with the smallest live byte; a live term that leaves it no later is not below. */
  lemma SeekIsLeast(key: bytes, pos: nat, b: byte, w: bytes, l: nat)
    requires pos <= |key| && Splits(key, w, l) && l <= pos
    requires l == pos ==> b <= w[pos]
    ensures AtMost(key[..pos] + [b], w)
  {
    var next := key[..pos] + [b];
    assert next[..l] == key[..l] == w[..l];
    if l < pos || b < w[l] {
      assert Splits(next, w, l);
    } else if |w| == pos + 1 {
      assert next == w;
    } else {
      assert next == w[..pos + 1];
      assert Splits(next, w, pos + 1);
    }
  }

  lemma SeekIsAbove(key: bytes, pos: nat, b: byte)
    requires pos <= |key| && (pos < |key| ==> b > key[pos])
    ensures Less(key, key[..pos] + [b])
  {
    assert Splits(key, key[..pos] + [b], pos);
  }

  /** `New`: nil when k is outside 0..3 or the keyword has 60 bytes or more. */
  function New(k: int, m: int, keyword: bytes, tokens: seq<Token>): Option<Levenshtein> {
    if k < 0 || k > 3 || |keyword| >= MaxLevenshteinLength then None else Some(Levenshtein(k, m, keyword, tokens))
  }

  datatype Levenshtein = Levenshtein(k: nat, m: int, keyword: bytes, tokens: seq<Token>)
  {
    predicate Made() {
      k <= 3 && |keyword| < MaxLevenshteinLength
    }

    /** The row reached on the input `p`: cell i holds the distance to the first i pattern bytes, clamped. */
    ghost predicate IsRow(p: bytes, s: Row) {
      |s| == |keyword| + 1 && forall i | 0 <= i <= |keyword| :: s[i] as int == Min(k + 1, Dist(p, keyword, i))
    }

    function Cap(): uint8
      requires Made()
    {
      (k + 1) as uint8
    }

    method Start() returns (s: Row)
      requires Made()
      ensures IsRow([], s)
    {
      var n := |keyword|;
      s := [];
      for i := 0 to n + 1
        invariant |s| == i
        invariant forall j | 0 <= j < i :: s[j] as int == Min(k + 1, j)
      {
        s := s + [if i <= k then i as uint8 else Cap()];
      }
    }

    /** One cell: the cheapest of match or substitute, delete and insert, clamped. */
    method Cell(diagonal: uint8, above: uint8, before: uint8, c: byte, d: byte) returns (v: uint8)
      requires Made() && diagonal <= Cap() && above <= Cap() && before <= Cap()
      ensures v as int == Min(k + 1, Min(Min(diagonal as int + Cost(c, d), above as int + 1), before as int + 1))
    {
      var cost: uint8 := if c == d then 0 else 1;
      v := diagonal + cost;
      if above + 1 < v {
        v := above + 1;
      }
      if before + 1 < v {
        v := before + 1;
      }
      if v > Cap() {
        v := Cap();
      }
    }

    predicate Clamped(s: Row)
      requires Made()
    {
      |s| == |keyword| + 1 && forall i | 0 <= i < |s| :: s[i] <= Cap()
    }

    /** Cell i of `next` comes from `prev` and the cell before it by the clamped recurrence. */
    ghost predicate Recurs(prev: Row, c: byte, next: Row, i: nat)
      requires |prev| == |keyword| + 1 && 0 < i < |next| <= |keyword| + 1
    {
      next[i] as int == Min(k + 1, Min(Min(prev[i - 1] as int + Cost(c, keyword[i - 1]), prev[i] as int + 1),
                                       next[i - 1] as int + 1))
    }

    /** The first `n` cells of `next` follow `prev` on the byte `c`. */
    ghost predicate Follows(prev: Row, c: byte, next: Row, n: nat)
      requires |prev| == |keyword| + 1 && n <= |next| <= |keyword| + 1
    {
      && (n > 0 ==> next[0] as int == Min(k + 1, prev[0] as int + 1))
      && forall i: nat {:trigger Recurs(prev, c, next, i)} | 0 < i < n :: Recurs(prev, c, next, i)
    }

    /** Transition on one input byte. */
    method Step(prev: Row, c: byte) returns (next: Row)
      requires Made() && Clamped(prev)
      ensures Clamped(next) && Follows(prev, c, next, |keyword| + 1)
    {
      var n := |keyword|;
      var v := prev[0] + 1;
      next := [if v < Cap() then v else Cap()];
      for i := 1 to n + 1
        invariant |next| == i && forall j | 0 <= j < i :: next[j] <= Cap()
        invariant Follows(prev, c, next, i)
      {
        v := Cell(prev[i - 1], prev[i], next[i - 1], c, keyword[i - 1]);
        ghost var before := next;
        next := next + [v];
        assert forall j: nat | 0 < j < i :: Recurs(prev, c, before, j) ==> Recurs(prev, c, next, j);
      }
    }

    lemma StepKeepsRow(p: bytes, c: byte, prev: Row, next: Row)
      requires IsRow(p, prev) && |next| == |keyword| + 1 && Follows(prev, c, next, |keyword| + 1)
      ensures IsRow(p + [c], next)
    {
      FollowsIsRow(p, c, prev, next, |keyword|);
    }

    lemma {:induction false} FollowsIsRow(p: bytes, c: byte, prev: Row, next: Row, n: nat)
      requires IsRow(p, prev) && |next| == |keyword| + 1 && Follows(prev, c, next, |keyword| + 1) && n <= |keyword|
      ensures forall i | 0 <= i <= n :: next[i] as int == Min(k + 1, Dist(p + [c], keyword, i))
      decreases n
    {
      if n > 0 {
        FollowsIsRow(p, c, prev, next, n - 1);
        assert Recurs(prev, c, next, n);
        CellOfDist(p, c, prev[n - 1], prev[n], next[n - 1], n);
      } else {
        DistNil(p, keyword);
        DistNil(p + [c], keyword);
      }
    }

    /** Clamping commutes with the recurrence. */
    lemma CellOfDist(p: bytes, c: byte, diagonal: uint8, above: uint8, before: uint8, i: nat)
      requires 0 < i <= |keyword|
      requires diagonal as int == Min(k + 1, Dist(p, keyword, i - 1)) && above as int == Min(k + 1, Dist(p, keyword, i))
      requires before as int == Min(k + 1, Dist(p + [c], keyword, i - 1))
      ensures Min(k + 1, Min(Min(diagonal as int + Cost(c, keyword[i - 1]), above as int + 1), before as int + 1))
              == Min(k + 1, Dist(p + [c], keyword, i))
    {
      DistSnoc(p, c, keyword, i);
    }

    /** Once no cell is within reach, no byte brings one back. */
    lemma {:induction false} DeadRowFollows(prev: Row, c: byte, next: Row, n: nat)
      requires Made() && Clamped(prev) && Clamped(next) && Follows(prev, c, next, |keyword| + 1) && n <= |keyword|
      requires forall i | 0 <= i < |prev| :: prev[i] == Cap()
      ensures forall i | 0 <= i <= n :: next[i] == Cap()
      decreases n
    {
      assert prev[n] == Cap();
      if n > 0 {
        assert prev[n - 1] == Cap();
        DeadRowFollows(prev, c, next, n - 1);
        assert Recurs(prev, c, next, n);
      }
    }

    predicate Accept(s: Row)
      requires Made() && s != []
    {
      s[|s| - 1] <= k as uint8
    }

    method IsDead(s: Row, ghost p: bytes) returns (dead: bool)
      requires Made() && IsRow(p, s)
      ensures dead <==> Dead(k, keyword, p)
    {
      for i := 0 to |s|
        invariant forall j | 0 <= j < i :: Dist(p, keyword, j) > k
      {
        if s[i] <= k as uint8 {
          return false;
        }
      }
      return true;
    }

    /** The smallest byte from `lb` on whose transition is not dead. */
    method SmallestTransition(s: Row, lb: nat, ghost p: bytes) returns (b: byte, ok: bool)
      requires Made() && IsRow(p, s)
      ensures ok ==> lb <= b && !Dead(k, keyword, p + [b])
      ensures forall x: byte | lb <= x && (ok ==> x < b) :: Dead(k, keyword, p + [x])
    {
      var x := lb;
      while x <= 0xFF
        invariant lb <= x
        invariant forall y: byte | lb <= y < x :: Dead(k, keyword, p + [y])
      {
        var ns := Step(s, x);
        StepKeepsRow(p, x, s, ns);
        var dead := IsDead(ns, p + [x]);
        if !dead {
          return x, true;
        }
        x := x + 1;
      }
      return 0, false;
    }

    /** `stack[i]` is the row after `key[..i]`, and the walk stopped after `matched` bytes because it had to. */
    ghost predicate Walked(stack: seq<Row>, key: bytes, matched: nat) {
      && matched <= |key| && |stack| == matched + 1
      && (forall i | 0 <= i <= matched :: IsRow(key[..i], stack[i]))
      && (matched < |key| ==> Dead(k, keyword, key[..matched + 1]))
    }

    /** No live string lies strictly between `key` and `next`; above `key` at all, when there is no `next`. */
    ghost predicate Leaps(key: bytes, next: Option<bytes>) {
      && (next.Some? ==> Less(key, next.value))
      && forall w | Less(key, w) && !Dead(k, keyword, w) :: next.Some? && AtMost(next.value, w)
    }

    /** The least live string above `key`, or none when every string above it is dead. */
    method NextSeek(stack: seq<Row>, key: bytes, matched: nat) returns (next: Option<bytes>)
      requires Made() && Walked(stack, key, matched)
      ensures next.Some? ==> !Dead(k, keyword, next.value)
      ensures Leaps(key, next)
    {
      var pos: int := matched;
      while pos >= 0
        invariant pos <= matched
        invariant forall q: nat | pos < q <= matched :: Blocked(k, keyword, key, q)
      {
        var lb := 0;
        if pos < |key| {
          lb := key[pos] as int + 1;
        }
        if lb <= 0xFF {
          var b, ok := SmallestTransition(stack[pos], lb, key[..pos]);
          if ok {
            SeekIsAbove(key, pos, b);
            LeastSeek(stack, key, matched, pos, b);
            return Some(key[..pos] + [b]);
          }
        }
        pos := pos - 1;
      }
      NoSeek(stack, key, matched);
      return None;
    }

    lemma LeastSeek(stack: seq<Row>, key: bytes, matched: nat, pos: nat, b: byte)
      requires Walked(stack, key, matched) && pos <= matched
      requires forall q | pos < q <= matched :: Blocked(k, keyword, key, q)
      requires forall x: byte | (pos < |key| ==> x > key[pos]) && x < b :: Dead(k, keyword, key[..pos] + [x])
      ensures forall w | Less(key, w) && !Dead(k, keyword, w) :: AtMost(key[..pos] + [b], w)
    {
      forall w | Less(key, w) && !Dead(k, keyword, w)
        ensures AtMost(key[..pos] + [b], w)
      {
        var l := Branch(k, keyword, key, w);
        assert l <= matched;
        SeekIsLeast(key, pos, b, w, l);
      }
    }

    lemma NoSeek(stack: seq<Row>, key: bytes, matched: nat)
      requires Walked(stack, key, matched)
      requires forall q | 0 <= q <= matched :: Blocked(k, keyword, key, q)
      ensures forall w | Less(key, w) :: Dead(k, keyword, w)
    {
      forall w | Less(key, w)
        ensures Dead(k, keyword, w)
      {
        if !Dead(k, keyword, w) {
          var l := Branch(k, keyword, key, w);
        }
      }
    }

    /** The inner loop of `Matches`: push a row per byte until the key ends or the row is dead. */
    method Walk(key: Token) returns (stack: seq<Row>, matched: nat)
      requires Made() && key.value.size <= MaxRawValueSize
      ensures Walked(stack, key.Bytes(), matched)
    {
      ghost var b := key.Bytes();
      var s := Start();
      stack, matched := [s], 0;
      while matched < key.value.size
        invariant matched <= |b| && |stack| == matched + 1
        invariant forall i | 0 <= i <= matched :: IsRow(b[..i], stack[i])
      {
        var c := key.value.data[matched];
        assert b[..matched] + [c] == b[..matched + 1];
        var ns := Step(stack[matched], c);
        StepKeepsRow(b[..matched], c, stack[matched], ns);
        var dead := IsDead(ns, b[..matched + 1]);
        if dead {
          return;
        }
        stack := stack + [ns];
        matched := matched + 1;
      }
    }

    /** The walk reaches the end of the key in an accepting row exactly when the key is within reach. */
    lemma WalkDecides(stack: seq<Row>, key: Token, matched: nat)
      requires Made() && Walked(stack, key.Bytes(), matched)
      ensures matched == |key.Bytes()| && Accept(stack[matched]) <==> Close(k, keyword, key)
    {
      var b := key.Bytes();
      if matched == |b| {
        assert b[..matched] == b;
        AcceptDecides(b, stack[matched]);
      } else {
        DeadStaysDead(k, keyword, b[..matched + 1], b);
        DeadIsNotClose(k, keyword, key);
      }
    }

    lemma AcceptDecides(p: bytes, s: Row)
      requires Made() && IsRow(p, s)
      ensures Accept(s) <==> WithinEdits(p, keyword, k)
    {
      DistIsShortestScript(p, keyword, k);
    }

    ghost function Found(i: nat): seq<Token>
      requires i <= |tokens|
    {
      Matching(k, keyword, tokens, i)
    }

    /** Token l is below the seek, when it is one of the first `done`; or else, if it is, it is not within reach. */
    ghost predicate PassedBy(seek: bytes, done: nat, l: nat)
      requires l < |tokens|
    {
      if l < done then Less(tokens[l].Bytes(), seek)
      else Less(tokens[l].Bytes(), seek) ==> !Close(k, keyword, tokens[l])
    }

    /** The first `done` tokens are below the seek, and no other token below it is within reach. */
    ghost predicate Passing(seek: bytes, done: nat) {
      done <= |tokens| && forall l: nat {:trigger PassedBy(seek, done, l)} | l < |tokens| :: PassedBy(seek, done, l)
    }

    /** The lower bound of the seek passes over no token within reach. */
    method Seek(seek: bytes, ghost done: nat) returns (i: nat, found: bool)
      requires Sorted(tokens) && Passing(seek, done)
      ensures done <= i <= |tokens| && Found(i) == Found(done)
      ensures found <==> i < |tokens|
    {
      i, found := GetBytesOrNear(tokens, seek);
      if i < done {
        assert PassedBy(seek, done, i);
        LessTotal(tokens[i].Bytes(), seek);
      }
      forall l: nat | done <= l < i
        ensures !Close(k, keyword, tokens[l])
      {
        assert PassedBy(seek, done, l);
      }
      MatchingSkips(k, keyword, tokens, done, i);
    }

    /** One round of `Matches`: is token i within reach, and where to look next. */
    method Probe(i: nat) returns (hit: bool, next: Option<bytes>)
      requires Made() && Sorted(tokens) && i < |tokens| && tokens[i].value.size <= MaxRawValueSize
      ensures hit <==> Close(k, keyword, tokens[i])
      ensures next.Some? ==> Passing(next.value, i + 1)
      ensures next.None? ==> Found(i + 1) == Found(|tokens|)
    {
      var key := tokens[i];
      var stack, matched := Walk(key);
      hit := matched == key.value.size && Accept(stack[matched]);
      WalkDecides(stack, key, matched);
      next := NextSeek(stack, key.Bytes(), matched);
      if next.Some? {
        PassedTo(i, next.value);
      } else {
        PassedAll(i);
      }
    }

    lemma LeapedOver(i: nat, next: Option<bytes>, l: nat)
      requires Sorted(tokens) && i < l < |tokens| && Leaps(tokens[i].Bytes(), next)
      requires next.Some? ==> Less(tokens[l].Bytes(), next.value)
      ensures !Close(k, keyword, tokens[l])
    {
      assert Less(tokens[i].Bytes(), tokens[l].Bytes());
      if next.Some? {
        LessTotal(tokens[l].Bytes(), next.value);
      }
      DeadIsNotClose(k, keyword, tokens[l]);
    }

    /** What a seek from token i leaves behind is below it, and no token between is within reach. */
    lemma PassedTo(i: nat, next: bytes)
      requires Sorted(tokens) && i < |tokens| && Leaps(tokens[i].Bytes(), Some(next))
      ensures Passing(next, i + 1)
    {
      BelowPivot(tokens, next, i);
      forall l: nat {:trigger PassedBy(next, i + 1, l)} | l < |tokens|
        ensures PassedBy(next, i + 1, l)
      {
        if i < l && Less(tokens[l].Bytes(), next) {
          LeapedOver(i, Some(next), l);
        }
      }
    }

    lemma PassedAll(i: nat)
      requires Sorted(tokens) && i < |tokens| && Leaps(tokens[i].Bytes(), None)
      ensures Found(i + 1) == Found(|tokens|)
    {
      forall l | i + 1 <= l < |tokens|
        ensures !Close(k, keyword, tokens[l])
      {
        LeapedOver(i, None, l);
      }
      MatchingSkips(k, keyword, tokens, i + 1, |tokens|);
    }

    lemma FoundSnoc(i: nat)
      requires i < |tokens|
      ensures Found(i + 1) == Found(i) + if Close(k, keyword, tokens[i]) then [tokens[i]] else []
    {
    }

    lemma FoundFull(i: nat)
      requires i <= |tokens| && |Found(i)| == m > 0
      ensures Cut(Found(|tokens|), m) == Found(i)
    {
      MatchingGrows(k, keyword, tokens, i, |tokens|);
    }

    /** Where the loop of `Matches` stands: every token within reach among the first `done` is out. */
    ghost predicate Collected(seek: bytes, done: nat, out: seq<Token>, count: nat) {
      Passing(seek, done) && out == Found(done) && count == |out| && (m > 0 ==> count < m)
    }

    /** Token i is dealt with: `out` holds what is within reach up to it, and there may be enough of it. */
    ghost predicate Taken(i: nat, out: seq<Token>, count: nat) {
      i < |tokens| && out == Found(i + 1) && count == |out| && (m > 0 ==> count <= m)
    }

    method Take(i: nat, hit: bool, out: seq<Token>, count: nat) returns (out': seq<Token>, count': nat)
      requires i < |tokens| && out == Found(i) && count == |out| && (m > 0 ==> count < m)
      requires hit <==> Close(k, keyword, tokens[i])
      ensures Taken(i, out', count')
    {
      out', count' := out, count;
      FoundSnoc(i);
      if hit {
        out', count' := out + [tokens[i]], count + 1;
      }
    }

    lemma Enough(i: nat, out: seq<Token>, count: nat)
      requires Taken(i, out, count) && count == m > 0
      ensures out == Cut(Found(|tokens|), m)
    {
      FoundFull(i + 1);
    }

    lemma AllFound(i: nat, out: seq<Token>)
      requires i <= |tokens| && out == Found(i) == Found(|tokens|) && (m > 0 ==> |out| < m)
      ensures out == Cut(Found(|tokens|), m)
    {
    }

    /** One turn of the loop, at the token that the seek has found: over when there are enough, or no more. */
    method Turn(i: nat, out: seq<Token>, count: nat)
        returns (over: bool, seek': bytes, out': seq<Token>, count': nat)
      requires Made() && Sorted(tokens) && i < |tokens| && tokens[i].value.size <= MaxRawValueSize
      requires out == Found(i) && count == |out| && (m > 0 ==> count < m)
      ensures over ==> out' == Cut(Found(|tokens|), m)
      ensures !over ==> Collected(seek', i + 1, out', count')
    {
      over, seek' := true, [];
      var hit, next := Probe(i);
      out', count' := Take(i, hit, out, count);
      if m > 0 && count' >= m {
        Enough(i, out', count');
      } else if next.None? {
        AllFound(i + 1, out');
      } else {
        over, seek' := false, next.value;
      }
    }

    /** Every token within distance k, in table order, cut to the first m when m is positive. */
    method Matches() returns (out: seq<Token>)
      requires Made() && Sorted(tokens) && forall i | 0 <= i < |tokens| :: tokens[i].value.size <= MaxRawValueSize
      ensures out == Cut(Found(|tokens|), m)
    {
      out := [];
      var count, seek, over := 0, [], false;
      ghost var done := 0;
      while !over
        invariant if over then out == Cut(Found(|tokens|), m) else Collected(seek, done, out, count)
        decreases !over, |tokens| - done
      {
        var i, found := Seek(seek, done);
        if !found {
          AllFound(i, out);
          return;
        }
        over, seek, out, count := Turn(i, out, count);
        done := i + 1;
      }
    }

    /** The two fuzzy matchers decide the same relation. */
    lemma AgreesWithMatcher(w: bytes, s: Row)
      requires Made() && IsRow(w, s)
      ensures Accept(s) <==> exists o :: o in Run(w, keyword, k) && Accepts(o, keyword)
    {
      RunDecidesDistance(w, keyword, k);
      DistIsShortestScript(w, keyword, k);
      AcceptDecides(w, s);
    }
  }
}
