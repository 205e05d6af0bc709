/** Sequences gathered piece by piece: `f(0) + f(1) + ... + f(n - 1)`. */
module Collecting {

  ghost function Collect<X>(n: nat, f: nat -> seq<X>): seq<X> {
    if n == 0 then [] else Collect(n - 1, f) + f(n - 1)
  }

  lemma {:induction false} CollectMember<X>(n: nat, f: nat -> seq<X>, x: X)
    ensures x in Collect(n, f) <==> exists i: nat :: i < n && x in f(i)
  {
    if n > 0 {
      CollectMember(n - 1, f, x);
    }
  }

  lemma {:induction false} CollectEqual<X>(n: nat, f: nat -> seq<X>, g: nat -> seq<X>)
    requires forall i: nat | i < n :: f(i) == g(i)
    ensures Collect(n, f) == Collect(n, g)
  {
    if n > 0 {
      CollectEqual(n - 1, f, g);
    }
  }

  lemma {:induction false} CollectNothing<X>(n: nat, f: nat -> seq<X>)
    requires forall i: nat | i < n :: f(i) == []
    ensures Collect(n, f) == []
  {
    if n > 0 {
      CollectNothing(n - 1, f);
    }
  }

  /** The pieces of `f` from `m` on are those of `g`. */
  lemma {:induction false} CollectConcat<X>(m: nat, n: nat, f: nat -> seq<X>, g: nat -> seq<X>)
    requires forall i: nat | i < n :: f(m + i) == g(i)
    ensures Collect(m + n, f) == Collect(m, f) + Collect(n, g)
  {
    if n > 0 {
      CollectConcat(m, n - 1, f, g);
      assert f(m + (n - 1)) == g(n - 1);
    }
  }

  ghost function MapSeq<X, Y>(s: seq<X>, e: X -> Y): seq<Y> {
    seq(|s|, i requires 0 <= i < |s| => e(s[i]))
  }

  lemma {:induction false} CollectMapped<X, Y>(n: nat, f: nat -> seq<X>, e: X -> Y, g: nat -> seq<Y>)
    requires forall i: nat | i < n :: g(i) == MapSeq(f(i), e)
    ensures Collect(n, g) == MapSeq(Collect(n, f), e)
  {
    if n > 0 {
      CollectMapped(n - 1, f, e, g);
    }
  }

  ghost predicate Starts<X(!new)>(m: nat, f: nat -> seq<X>, fx: nat -> seq<X>) {
    forall i: nat | i < m :: f(i) == fx(i)
  }

  /** From `m` on, the pieces of `f` are those of `fy` under `e`. */
  ghost predicate Continues<X(!new)>(m: nat, n: nat, f: nat -> seq<X>, fy: nat -> seq<X>, e: X -> X) {
    forall i: nat {:trigger fy(i)} | i < n :: f(m + i) == MapSeq(fy(i), e)
  }

  lemma CollectAppended<X(!new)>(m: nat, n: nat, f: nat -> seq<X>, fx: nat -> seq<X>, fy: nat -> seq<X>, e: X -> X)
    requires Starts(m, f, fx) && Continues(m, n, f, fy, e)
    ensures Collect(m + n, f) == Collect(m, fx) + MapSeq(Collect(n, fy), e)
  {
    var g := (i: nat) => MapSeq(fy(i), e);
    forall i: nat | i < n
      ensures f(m + i) == g(i)
    {
      assert g(i) == MapSeq(fy(i), e);
    }
    CollectConcat(m, n, f, g);
    CollectEqual(m, f, fx);
    CollectMapped(n, fy, e, g);
  }

  /** The same, when the first and second part have lengths that add up. */
  lemma CollectJoined<X(!new)>(m: nat, n: nat, total: nat, f: nat -> seq<X>, fx: nat -> seq<X>, fy: nat -> seq<X>,
                               e: X -> X)
    requires total == m + n && Starts(m, f, fx) && Continues(m, n, f, fy, e)
    ensures Collect(total, f) == Collect(m, fx) + MapSeq(Collect(n, fy), e)
  {
    CollectAppended(m, n, f, fx, fy, e);
  }

  ghost predicate AscendsBelow<X>(s: seq<X>, key: X -> int, n: int) {
    && (forall i | 0 <= i < |s| :: key(s[i]) < n)
    && (forall i, j | 0 <= i < j < |s| :: key(s[i]) < key(s[j]))
  }

  /** Pieces of at most one element, each keyed by its own position, gather in ascending order. */
  lemma {:induction false} CollectAscends<X>(n: nat, f: nat -> seq<X>, key: X -> int)
    requires forall i: nat | i < n :: |f(i)| <= 1 && (f(i) != [] ==> key(f(i)[0]) == i)
    ensures AscendsBelow(Collect(n, f), key, n)
  {
    if n > 0 {
      CollectAscends(n - 1, f, key);
      assert |f(n - 1)| <= 1;
    }
  }

  /** At most one piece is not empty, so the whole is no longer than a piece. */
  lemma {:induction false} CollectOne<X>(n: nat, f: nat -> seq<X>)
    requires forall i: nat | i < n :: |f(i)| <= 1
    requires forall i: nat, j: nat | i < j < n && f(i) != [] :: f(j) == []
    ensures |Collect(n, f)| <= 1
    ensures Collect(n, f) != [] ==> exists i: nat :: i < n && f(i) == Collect(n, f)
  {
    if n > 0 {
      CollectOne(n - 1, f);
      if Collect(n - 1, f) == [] {
        assert Collect(n, f) == f(n - 1);
      } else {
        assert f(n - 1) == [];
        assert Collect(n, f) == Collect(n - 1, f);
      }
    }
  }

  /** The pieces from `k` on, taken from the front. */
  ghost function From<X>(k: nat, n: nat, f: nat -> seq<X>): seq<X>
    decreases n - k
  {
    if k >= n then [] else f(k) + From(k + 1, n, f)
  }

  lemma {:induction false} CollectSplit<X>(k: nat, n: nat, f: nat -> seq<X>)
    requires k <= n
    ensures Collect(n, f) == Collect(k, f) + From(k, n, f)
    decreases n - k
  {
    if k < n {
      CollectSplit(k + 1, n, f);
    }
  }

  /** Piece i is where the pieces before it end. */
  lemma CollectPiece<X>(i: nat, n: nat, f: nat -> seq<X>)
    requires i < n
    ensures |Collect(i, f)| + |f(i)| <= |Collect(n, f)|
    ensures Collect(n, f)[|Collect(i, f)|..|Collect(i, f)| + |f(i)|] == f(i)
  {
    CollectSplit(i + 1, n, f);
  }

  ghost predicate SomeOf<X(!new)>(s: seq<X>, p: X -> bool) {
    exists i :: 0 <= i < |s| && p(s[i])
  }

  ghost predicate EachOf<X(!new)>(s: seq<X>, p: X -> bool) {
    forall i | 0 <= i < |s| :: p(s[i])
  }

  lemma SomeJoined<X(!new)>(a: seq<X>, b: seq<X>, p: X -> bool)
    ensures SomeOf(a + b, p) <==> SomeOf(a, p) || SomeOf(b, p)
  {
    if i :| 0 <= i < |a| && p(a[i]) {
      assert (a + b)[i] == a[i];
    }
    if i :| 0 <= i < |b| && p(b[i]) {
      assert (a + b)[|a| + i] == b[i];
    }
  }

  lemma EachJoined<X(!new)>(a: seq<X>, b: seq<X>, p: X -> bool)
    ensures EachOf(a + b, p) <==> EachOf(a, p) && EachOf(b, p)
  {
    if EachOf(a + b, p) {
      assert forall i | 0 <= i < |a| :: (a + b)[i] == a[i];
      assert forall i | 0 <= i < |b| :: (a + b)[|a| + i] == b[i];
    }
  }

  /** Some element of some piece. */
  lemma {:induction false} CollectSome<X(!new)>(n: nat, f: nat -> seq<X>, p: X -> bool)
    ensures SomeOf(Collect(n, f), p) <==> exists i: nat :: i < n && SomeOf(f(i), p)
  {
    if n > 0 {
      CollectSome(n - 1, f, p);
      SomeJoined(Collect(n - 1, f), f(n - 1), p);
    }
  }

  /** Every element of every piece. */
  lemma {:induction false} CollectEach<X(!new)>(n: nat, f: nat -> seq<X>, p: X -> bool)
    ensures EachOf(Collect(n, f), p) <==> forall i: nat | i < n :: EachOf(f(i), p)
  {
    if n > 0 {
      CollectEach(n - 1, f, p);
      EachJoined(Collect(n - 1, f), f(n - 1), p);
    }
  }
}
