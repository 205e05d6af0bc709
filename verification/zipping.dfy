/**
 Two ascending tables walked together. At each step the smaller of the two heads is taken, or both when they are
 equal: the walk that both passes of a merge make, and that counts the tokens of a field.
 */
module Zipping {
  import opened Bytes

  /** Positions in the two tables; -1 where the table has no such key. */
  datatype Pair = Pair(a: int, b: int)

  ghost predicate Ascends(xs: seq<bytes>) {
    forall i, j | 0 <= i < j < |xs| :: Less(xs[i], xs[j])
  }

  /** The step taken with the tables at `i` and `j`. */
  ghost function Head(xs: seq<bytes>, ys: seq<bytes>, i: nat, j: nat): Pair
    requires i <= |xs| && j <= |ys| && (i < |xs| || j < |ys|)
  {
    if i == |xs| then Pair(-1, j)
    else if j == |ys| then Pair(i, -1)
    else if xs[i] == ys[j] then Pair(i, j)
    else if Less(xs[i], ys[j]) then Pair(i, -1)
    else Pair(-1, j)
  }

  ghost function After(at: nat, taken: int): nat {
    if taken >= 0 then at + 1 else at
  }

  ghost function Zip(xs: seq<bytes>, ys: seq<bytes>, i: nat, j: nat): seq<Pair>
    requires i <= |xs| && j <= |ys|
    decreases |xs| - i + |ys| - j
  {
    if i == |xs| && j == |ys| then [] else
      var p := Head(xs, ys, i, j);
      [p] + Zip(xs, ys, After(i, p.a), After(j, p.b))
  }

  ghost predicate PairOk(xs: seq<bytes>, ys: seq<bytes>, p: Pair) {
    && -1 <= p.a < |xs| && -1 <= p.b < |ys| && (p.a >= 0 || p.b >= 0)
    && (p.a >= 0 && p.b >= 0 ==> xs[p.a] == ys[p.b])
  }

  ghost function Key(xs: seq<bytes>, ys: seq<bytes>, p: Pair): bytes
    requires PairOk(xs, ys, p)
  {
    if p.a >= 0 then xs[p.a] else ys[p.b]
  }

  /** A pair taken at or after `i` and `j`. */
  ghost predicate TakenFrom(xs: seq<bytes>, ys: seq<bytes>, i: nat, j: nat, p: Pair) {
    PairOk(xs, ys, p) && (p.a >= 0 ==> i <= p.a) && (p.b >= 0 ==> j <= p.b)
  }

  lemma {:induction false} ZipTaken(xs: seq<bytes>, ys: seq<bytes>, i: nat, j: nat, k: nat)
    requires i <= |xs| && j <= |ys| && k < |Zip(xs, ys, i, j)|
    ensures TakenFrom(xs, ys, i, j, Zip(xs, ys, i, j)[k])
    decreases k
  {
    var p := Head(xs, ys, i, j);
    if k > 0 {
      ZipTaken(xs, ys, After(i, p.a), After(j, p.b), k - 1);
    }
  }

  /** Whatever is taken later has a larger key. */
  lemma HeadFirst(xs: seq<bytes>, ys: seq<bytes>, i: nat, j: nat, q: Pair)
    requires Ascends(xs) && Ascends(ys) && i <= |xs| && j <= |ys| && (i < |xs| || j < |ys|)
    requires TakenFrom(xs, ys, After(i, Head(xs, ys, i, j).a), After(j, Head(xs, ys, i, j).b), q)
    ensures Less(Key(xs, ys, Head(xs, ys, i, j)), Key(xs, ys, q))
  {
    var p := Head(xs, ys, i, j);
    if i < |xs| && j < |ys| {
      LessTotal(xs[i], ys[j]);
      if q.a >= 0 && p.a < 0 && q.a != i {
        LessTransitive(ys[j], xs[i], xs[q.a]);
      }
      if q.b >= 0 && p.b < 0 && q.b != j {
        LessTransitive(xs[i], ys[j], ys[q.b]);
      }
    }
  }

  lemma ZipLater(xs: seq<bytes>, ys: seq<bytes>, i: nat, j: nat, k: nat)
    requires i <= |xs| && j <= |ys| && 0 < k < |Zip(xs, ys, i, j)|
    ensures var p := Head(xs, ys, i, j);
            && After(i, p.a) <= |xs| && After(j, p.b) <= |ys|
            && |Zip(xs, ys, i, j)| == 1 + |Zip(xs, ys, After(i, p.a), After(j, p.b))|
            && Zip(xs, ys, i, j)[k] == Zip(xs, ys, After(i, p.a), After(j, p.b))[k - 1]
  {
  }

  ghost predicate Precedes(xs: seq<bytes>, ys: seq<bytes>, p: Pair, q: Pair) {
    PairOk(xs, ys, p) && PairOk(xs, ys, q) && Less(Key(xs, ys, p), Key(xs, ys, q))
  }

  lemma FirstIsLeast(xs: seq<bytes>, ys: seq<bytes>, i: nat, j: nat, l: nat)
    requires Ascends(xs) && Ascends(ys) && i <= |xs| && j <= |ys| && 0 < l < |Zip(xs, ys, i, j)|
    ensures Precedes(xs, ys, Zip(xs, ys, i, j)[0], Zip(xs, ys, i, j)[l])
  {
    var p := Head(xs, ys, i, j);
    ZipLater(xs, ys, i, j, l);
    ZipTaken(xs, ys, i, j, 0);
    ZipTaken(xs, ys, After(i, p.a), After(j, p.b), l - 1);
    HeadFirst(xs, ys, i, j, Zip(xs, ys, i, j)[l]);
  }

  lemma {:induction false} ZipAscends(xs: seq<bytes>, ys: seq<bytes>, i: nat, j: nat, k: nat, l: nat)
    requires Ascends(xs) && Ascends(ys) && i <= |xs| && j <= |ys| && k < l < |Zip(xs, ys, i, j)|
    ensures Precedes(xs, ys, Zip(xs, ys, i, j)[k], Zip(xs, ys, i, j)[l])
    decreases k
  {
    if k == 0 {
      FirstIsLeast(xs, ys, i, j, l);
    } else {
      var p := Head(xs, ys, i, j);
      ZipLater(xs, ys, i, j, k);
      ZipLater(xs, ys, i, j, l);
      ZipAscends(xs, ys, After(i, p.a), After(j, p.b), k - 1, l - 1);
    }
  }

  lemma {:induction false} ZipCoversLeft(xs: seq<bytes>, ys: seq<bytes>, i: nat, j: nat, a: nat) returns (k: nat)
    requires i <= a < |xs| && j <= |ys|
    ensures k < |Zip(xs, ys, i, j)| && Zip(xs, ys, i, j)[k].a == a
    decreases |xs| - i + |ys| - j
  {
    var p := Head(xs, ys, i, j);
    if p.a == a {
      k := 0;
    } else {
      k := ZipCoversLeft(xs, ys, After(i, p.a), After(j, p.b), a);
      k := k + 1;
    }
  }

  lemma {:induction false} ZipCoversRight(xs: seq<bytes>, ys: seq<bytes>, i: nat, j: nat, b: nat) returns (k: nat)
    requires i <= |xs| && j <= b < |ys|
    ensures k < |Zip(xs, ys, i, j)| && Zip(xs, ys, i, j)[k].b == b
    decreases |xs| - i + |ys| - j
  {
    var p := Head(xs, ys, i, j);
    if p.b == b {
      k := 0;
    } else {
      k := ZipCoversRight(xs, ys, After(i, p.a), After(j, p.b), b);
      k := k + 1;
    }
  }

  ghost function Zipped(xs: seq<bytes>, ys: seq<bytes>): seq<Pair> {
    Zip(xs, ys, 0, 0)
  }

  lemma ZippedOk(xs: seq<bytes>, ys: seq<bytes>, k: nat)
    requires k < |Zipped(xs, ys)|
    ensures PairOk(xs, ys, Zipped(xs, ys)[k])
  {
    ZipTaken(xs, ys, 0, 0, k);
  }

  /** A key is taken from a table whenever that table has it. */
  lemma TakenWherePresent(xs: seq<bytes>, ys: seq<bytes>, k: nat, a: nat)
    requires Ascends(xs) && Ascends(ys) && k < |Zipped(xs, ys)|
    ensures PairOk(xs, ys, Zipped(xs, ys)[k])
    ensures a < |xs| && xs[a] == Key(xs, ys, Zipped(xs, ys)[k]) ==> Zipped(xs, ys)[k].a == a
    ensures a < |ys| && ys[a] == Key(xs, ys, Zipped(xs, ys)[k]) ==> Zipped(xs, ys)[k].b == a
  {
    var ps := Zipped(xs, ys);
    ZippedOk(xs, ys, k);
    if a < |xs| && xs[a] == Key(xs, ys, ps[k]) {
      var l := ZipCoversLeft(xs, ys, 0, 0, a);
      SameKey(xs, ys, k, l);
    }
    if a < |ys| && ys[a] == Key(xs, ys, ps[k]) {
      var l := ZipCoversRight(xs, ys, 0, 0, a);
      SameKey(xs, ys, k, l);
    }
  }

  lemma SameKey(xs: seq<bytes>, ys: seq<bytes>, k: nat, l: nat)
    requires Ascends(xs) && Ascends(ys) && k < |Zipped(xs, ys)| && l < |Zipped(xs, ys)|
    ensures PairOk(xs, ys, Zipped(xs, ys)[k]) && PairOk(xs, ys, Zipped(xs, ys)[l])
    ensures Key(xs, ys, Zipped(xs, ys)[k]) == Key(xs, ys, Zipped(xs, ys)[l]) ==> k == l
  {
    ZippedOk(xs, ys, k);
    ZippedOk(xs, ys, l);
    if k < l {
      ZipAscends(xs, ys, 0, 0, k, l);
      LessTotal(Key(xs, ys, Zipped(xs, ys)[k]), Key(xs, ys, Zipped(xs, ys)[l]));
    } else if l < k {
      ZipAscends(xs, ys, 0, 0, l, k);
      LessTotal(Key(xs, ys, Zipped(xs, ys)[k]), Key(xs, ys, Zipped(xs, ys)[l]));
    }
  }

  /** Where a walk stands: `k` pairs are taken, and the rest come from `i` and `j`. */
  ghost predicate Standing(xs: seq<bytes>, ys: seq<bytes>, k: nat, i: nat, j: nat) {
    && i <= |xs| && j <= |ys| && k <= |Zipped(xs, ys)|
    && Zipped(xs, ys)[k..] == Zip(xs, ys, i, j)
  }

  lemma Step(xs: seq<bytes>, ys: seq<bytes>, k: nat, i: nat, j: nat)
    requires Standing(xs, ys, k, i, j) && (i < |xs| || j < |ys|)
    ensures k < |Zipped(xs, ys)| && Zipped(xs, ys)[k] == Head(xs, ys, i, j)
    ensures Standing(xs, ys, k + 1, After(i, Head(xs, ys, i, j).a), After(j, Head(xs, ys, i, j).b))
  {
    var rest := Zip(xs, ys, i, j);
    assert |rest| > 0 && Zipped(xs, ys)[k..][0] == rest[0];
    assert Zipped(xs, ys)[k + 1..] == Zipped(xs, ys)[k..][1..] == rest[1..];
  }

  lemma NotDone(xs: seq<bytes>, ys: seq<bytes>, k: nat, i: nat, j: nat)
    requires Standing(xs, ys, k, i, j) && k < |Zipped(xs, ys)|
    ensures i < |xs| || j < |ys|
  {
  }

  lemma StandingStart(xs: seq<bytes>, ys: seq<bytes>)
    ensures Standing(xs, ys, 0, 0, 0)
  {
    assert Zipped(xs, ys)[0..] == Zipped(xs, ys);
  }

  lemma StandingEnd(xs: seq<bytes>, ys: seq<bytes>, k: nat)
    requires Standing(xs, ys, k, |xs|, |ys|)
    ensures k == |Zipped(xs, ys)|
  {
  }
}
