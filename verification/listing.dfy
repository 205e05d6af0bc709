/** Sequences that list something: one element for each valid place, in the order of the places. */
module Listing {
  import opened Collecting

  /** Element i is what stands at `ps[i]`; the places are exactly the valid ones, each before the next. */
  ghost predicate Listed<P(!new), X>(xs: seq<X>, ps: seq<P>, valid: P -> bool, at: (P, X) -> bool,
                                     before: (P, P) -> bool) {
    && |ps| == |xs| && (forall p :: p in ps <==> valid(p))
    && (forall i, j | 0 <= i < j < |ps| :: before(ps[i], ps[j]))
    && (forall i | 0 <= i < |ps| :: at(ps[i], xs[i]))
  }

  ghost predicate Listable<P(!new), X>(xs: seq<X>, valid: P -> bool, at: (P, X) -> bool, before: (P, P) -> bool) {
    exists ps :: Listed(xs, ps, valid, at, before)
  }

  ghost predicate Apart<P(!new)>(v: P -> bool, u: P -> bool, before: (P, P) -> bool) {
    forall p, q | v(p) && u(q) :: before(p, q)
  }

  lemma ListedJoined<P(!new), X>(xs: seq<X>, ps: seq<P>, v: P -> bool, ys: seq<X>, qs: seq<P>, u: P -> bool,
                                 both: P -> bool, at: (P, X) -> bool, before: (P, P) -> bool)
    requires Listed(xs, ps, v, at, before) && Listed(ys, qs, u, at, before) && Apart(v, u, before)
    requires forall p :: both(p) <==> v(p) || u(p)
    ensures Listed(xs + ys, ps + qs, both, at, before)
  {
    var zs, rs := xs + ys, ps + qs;
    forall i, j | 0 <= i < j < |rs|
      ensures before(rs[i], rs[j])
    {
      if i < |ps| <= j {
        assert ps[i] in ps && qs[j - |ps|] in qs;
      }
    }
    forall p
      ensures p in rs <==> both(p)
    {
      assert p in rs <==> p in ps || p in qs;
    }
  }

  lemma ListableJoined<P(!new), X>(xs: seq<X>, v: P -> bool, ys: seq<X>, u: P -> bool, both: P -> bool,
                                   at: (P, X) -> bool, before: (P, P) -> bool)
    requires Listable(xs, v, at, before) && Listable(ys, u, at, before) && Apart(v, u, before)
    requires forall p :: both(p) <==> v(p) || u(p)
    ensures Listable(xs + ys, both, at, before)
  {
    var ps :| Listed(xs, ps, v, at, before);
    var qs :| Listed(ys, qs, u, at, before);
    ListedJoined(xs, ps, v, ys, qs, u, both, at, before);
  }

  ghost function Piece<P>(valid: P -> bool, piece: P -> nat, i: nat): P -> bool {
    (p: P) => valid(p) && piece(p) == i
  }

  ghost function Below<P>(valid: P -> bool, piece: P -> nat, n: nat): P -> bool {
    (p: P) => valid(p) && piece(p) < n
  }

  ghost predicate Pieced<P(!new)>(valid: P -> bool, piece: P -> nat, before: (P, P) -> bool) {
    forall p, q | valid(p) && valid(q) && piece(p) < piece(q) :: before(p, q)
  }

  /** Pieces that list the places of one number each, gathered, list the places of all those numbers. */
  lemma {:induction false} CollectListed<P(!new), X>(n: nat, f: nat -> seq<X>, valid: P -> bool, piece: P -> nat,
                                                     at: (P, X) -> bool, before: (P, P) -> bool)
    requires forall i: nat | i < n :: Listable(f(i), Piece(valid, piece, i), at, before)
    requires Pieced(valid, piece, before)
    ensures Listable(Collect(n, f), Below(valid, piece, n), at, before)
  {
    if n == 0 {
      assert Listed(Collect(0, f), [], Below(valid, piece, 0), at, before);
    } else {
      CollectListed(n - 1, f, valid, piece, at, before);
      ListableJoined(Collect(n - 1, f), Below(valid, piece, n - 1), f(n - 1), Piece(valid, piece, n - 1),
                     Below(valid, piece, n), at, before);
    }
  }

  /** What is valid is all that counts of a place. */
  lemma ListableSame<P(!new), X>(xs: seq<X>, v: P -> bool, u: P -> bool, at: (P, X) -> bool, before: (P, P) -> bool)
    requires Listable(xs, v, at, before) && forall p :: v(p) <==> u(p)
    ensures Listable(xs, u, at, before)
  {
    var ps :| Listed(xs, ps, v, at, before);
    assert Listed(xs, ps, u, at, before);
  }

  lemma NothingListable<P(!new), X>(v: P -> bool, at: (P, X) -> bool, before: (P, P) -> bool)
    requires forall p :: !v(p)
    ensures Listable([], v, at, before)
  {
    var none: seq<P>, xs: seq<X> := [], [];
    assert Listed(xs, none, v, at, before);
  }

  lemma OneListable<P(!new), X>(x: X, p: P, v: P -> bool, at: (P, X) -> bool, before: (P, P) -> bool)
    requires (forall q :: v(q) <==> q == p) && at(p, x)
    ensures Listable([x], v, at, before)
  {
    assert Listed([x], [p], v, at, before);
  }

  /** One element when its place counts, and none otherwise. */
  lemma OneOrNone<P(!new), X>(xs: seq<X>, p: P, counts: P -> bool, v: P -> bool, at: (P, X) -> bool,
                              before: (P, P) -> bool)
    requires forall q :: v(q) <==> q == p && counts(p)
    requires if counts(p) then |xs| == 1 && at(p, xs[0]) else xs == []
    ensures Listable(xs, v, at, before)
  {
    if counts(p) {
      OneListable(xs[0], p, v, at, before);
      assert xs == [xs[0]];
    } else {
      NothingListable<P, X>(v, at, before);
    }
  }

  /** `g` takes the valid places onto the other valid places, in order, and what stands there stays. */
  ghost predicate Carries<P(!new), Q(!new)>(v: P -> bool, u: Q -> bool, g: P -> Q) {
    (forall p | v(p) :: u(g(p))) && forall q | u(q) :: exists p :: v(p) && g(p) == q
  }

  ghost predicate CarriesOrder<P(!new), Q(!new)>(v: P -> bool, before: (P, P) -> bool, before': (Q, Q) -> bool,
                                                 g: P -> Q) {
    forall p, q | v(p) && v(q) && before(p, q) :: before'(g(p), g(q))
  }

  ghost predicate CarriesElements<P(!new), Q(!new), X(!new)>(v: P -> bool, at: (P, X) -> bool, at': (Q, X) -> bool,
                                                             g: P -> Q) {
    forall p, x | v(p) && at(p, x) :: at'(g(p), x)
  }

  lemma CarriedIn<P(!new), Q(!new)>(ps: seq<P>, v: P -> bool, u: Q -> bool, g: P -> Q, q: Q)
    requires Carries(v, u, g) && forall p :: p in ps <==> v(p)
    ensures q in MapSeq(ps, g) <==> u(q)
  {
    if q in MapSeq(ps, g) {
      var i :| 0 <= i < |ps| && MapSeq(ps, g)[i] == q;
      assert ps[i] in ps;
    }
    if u(q) {
      var p :| v(p) && g(p) == q;
      assert p in ps;
      var i :| 0 <= i < |ps| && ps[i] == p;
      assert MapSeq(ps, g)[i] == q;
    }
  }

  lemma ListedCarried<P(!new), Q(!new), X(!new)>(xs: seq<X>, ps: seq<P>, v: P -> bool, at: (P, X) -> bool,
                                                 before: (P, P) -> bool, u: Q -> bool, at': (Q, X) -> bool,
                                                 before': (Q, Q) -> bool, g: P -> Q)
    requires Listed(xs, ps, v, at, before) && Carries(v, u, g)
    requires CarriesOrder(v, before, before', g) && CarriesElements(v, at, at', g)
    ensures Listed(xs, MapSeq(ps, g), u, at', before')
  {
    var qs := MapSeq(ps, g);
    forall q
      ensures q in qs <==> u(q)
    {
      CarriedIn(ps, v, u, g, q);
    }
    forall i, j | 0 <= i < j < |qs|
      ensures before'(qs[i], qs[j])
    {
      assert ps[i] in ps && ps[j] in ps;
    }
    forall i | 0 <= i < |qs|
      ensures at'(qs[i], xs[i])
    {
      assert ps[i] in ps;
    }
  }
}
