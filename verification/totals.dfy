/** Sums over the values of a finite map, in whatever order they are taken. */
module Totals {

  ghost function Total<K, V>(m: map<K, V>, f: V -> nat): nat
    decreases |m|
  {
    if m == map[] then 0 else
      var k :| k in m;
      f(m[k]) + Total(m - {k}, f)
  }

  lemma {:induction false} TotalWithout<K, V>(m: map<K, V>, f: V -> nat, k: K)
    requires k in m
    ensures Total(m, f) == f(m[k]) + Total(m - {k}, f)
    decreases |m|
  {
    var j :| j in m && Total(m, f) == f(m[j]) + Total(m - {j}, f);
    if j != k {
      TotalWithout(m - {j}, f, k);
      TotalWithout(m - {k}, f, j);
      assert m - {j} - {k} == m - {k} - {j};
    }
  }

  lemma TotalUpdate<K, V>(m: map<K, V>, f: V -> nat, k: K, v: V)
    ensures Total(m[k := v], f) == f(v) + Total(m - {k}, f)
    ensures k !in m ==> m - {k} == m
  {
    TotalWithout(m[k := v], f, k);
    assert m[k := v] - {k} == m - {k};
  }

  ghost predicate Enumerates<K>(order: seq<K>, keys: set<K>) {
    && (forall i, j | 0 <= i < j < |order| :: order[i] != order[j])
    && (forall i | 0 <= i < |order| :: order[i] in keys)
    && (forall k | k in keys :: k in order)
  }

  lemma EnumerationLength<K>(order: seq<K>, keys: set<K>)
    requires Enumerates(order, keys)
    ensures |order| == |keys|
    decreases |order|
  {
    if order == [] {
      assert keys == {};
    } else {
      var n := |order| - 1;
      forall k | k in keys - {order[n]}
        ensures k in order[..n]
      {
        var i :| 0 <= i < |order| && order[i] == k;
        assert order[..n][i] == k;
      }
      EnumerationLength(order[..n], keys - {order[n]});
    }
  }

  lemma EnumeratesSnoc<K>(order: seq<K>, keys: set<K>, k: K)
    requires Enumerates(order, keys) && k !in keys
    ensures Enumerates(order + [k], keys + {k})
  {
    assert (order + [k])[|order|] == k;
  }

  lemma EnumeratesConcat<K>(xs: seq<K>, ys: seq<K>, ks: set<K>, ls: set<K>)
    requires Enumerates(xs, ks) && Enumerates(ys, ls) && ks !! ls
    ensures Enumerates(xs + ys, ks + ls)
  {
  }

  ghost function SumAlong<K, V>(order: seq<K>, n: nat, m: map<K, V>, f: V -> nat): nat
    requires n <= |order| && forall i | 0 <= i < n :: order[i] in m
  {
    if n == 0 then 0 else SumAlong(order, n - 1, m, f) + f(m[order[n - 1]])
  }

  lemma {:induction false} SumAlongSame<K, V>(order: seq<K>, order': seq<K>, n: nat, m: map<K, V>, m': map<K, V>,
                                              f: V -> nat)
    requires n <= |order| && n <= |order'|
    requires forall i | 0 <= i < n :: order[i] == order'[i] && order[i] in m && order[i] in m'
    requires forall i | 0 <= i < n :: m[order[i]] == m'[order[i]]
    ensures SumAlong(order, n, m, f) == SumAlong(order', n, m', f)
  {
    if n > 0 {
      SumAlongSame(order, order', n - 1, m, m', f);
    }
  }

  /** Any enumeration of the keys gives the same sum. */
  lemma {:induction false} SumAlongTotal<K, V>(order: seq<K>, m: map<K, V>, f: V -> nat)
    requires Enumerates(order, m.Keys)
    ensures SumAlong(order, |order|, m, f) == Total(m, f)
    decreases |order|
  {
    if order == [] {
      assert m == map[];
    } else {
      var n := |order| - 1;
      var k, init := order[n], order[..n];
      forall j | j in (m - {k}).Keys
        ensures j in init
      {
        var i :| 0 <= i < |order| && order[i] == j;
        assert init[i] == j;
      }
      SumAlongTotal(init, m - {k}, f);
      SumAlongSame(order, init, n, m, m - {k}, f);
      TotalWithout(m, f, k);
    }
  }
}
