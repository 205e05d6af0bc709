/**
 The edit distance that both fuzzy matchers are measured against, and its meaning in terms of edit scripts:
 `Dist(s, t, |t|) <= n` exactly when at most n single-byte deletions, insertions and substitutions turn s into t.
 */
module EditDistance {
  import opened Bytes

  function Min(x: int, y: int): int { if y < x then y else x }

  /** 0 when the byte equals the pattern byte it is aligned with, 1 otherwise. */
  function Cost(c: byte, d: byte): nat { if c == d then 0 else 1 }

  /** Distance between `s` and the first `j` bytes of `t`. */
  function Dist(s: bytes, t: bytes, j: nat): nat
    requires j <= |t|
    decreases |s| + j
  {
    if s == [] then j
    else if j == 0 then |s|
    else
      var p, c := s[..|s| - 1], s[|s| - 1];
      Min(Min(Dist(p, t, j - 1) + Cost(c, t[j - 1]), Dist(p, t, j) + 1), Dist(s, t, j - 1) + 1)
  }

  /** The recurrence, written for a term that grows by one byte. */
  lemma DistSnoc(p: bytes, c: byte, t: bytes, j: nat)
    requires j <= |t|
    ensures Dist(p + [c], t, 0) == |p| + 1
    ensures j > 0 ==> Dist(p + [c], t, j) ==
                      Min(Min(Dist(p, t, j - 1) + Cost(c, t[j - 1]), Dist(p, t, j) + 1), Dist(p + [c], t, j - 1) + 1)
  {
    assert (p + [c])[..|p|] == p;
  }

  lemma DistNil(s: bytes, t: bytes)
    ensures Dist(s, t, 0) == |s|
  {
  }

  datatype Edit = Delete(at: nat) | Insert(at: nat, value: byte) | Substitute(at: nat, value: byte)

  predicate Valid(a: bytes, e: Edit) {
    if e.Insert? then e.at <= |a| else e.at < |a|
  }

  function Apply(a: bytes, e: Edit): bytes
    requires Valid(a, e)
  {
    match e
    case Delete(i) => a[..i] + a[i + 1..]
    case Insert(i, x) => a[..i] + [x] + a[i..]
    case Substitute(i, x) => a[i := x]
  }

  /** The script `es`, applied from left to right, turns `a` into `b`. */
  ghost predicate Turns(a: bytes, es: seq<Edit>, b: bytes)
    decreases |es|
  {
    if es == [] then a == b else Valid(a, es[0]) && Turns(Apply(a, es[0]), es[1..], b)
  }

  lemma {:induction false} TurnsThen(a: bytes, es: seq<Edit>, b: bytes, e: Edit)
    requires Turns(a, es, b) && Valid(b, e)
    ensures Turns(a, es + [e], Apply(b, e))
    decreases |es|
  {
    if es == [] {
      assert ([] + [e])[1..] == [];
    } else {
      TurnsThen(Apply(a, es[0]), es[1..], b, e);
      assert (es + [e])[1..] == es[1..] + [e];
    }
  }

  lemma {:induction false} TurnsUnder(a: bytes, es: seq<Edit>, b: bytes, c: byte)
    requires Turns(a, es, b)
    ensures Turns(a + [c], es, b + [c])
    decreases |es|
  {
    if es != [] {
      ApplyUnder(a, es[0], c);
      TurnsUnder(Apply(a, es[0]), es[1..], b, c);
    }
  }

  lemma ApplyUnder(a: bytes, e: Edit, c: byte)
    requires Valid(a, e)
    ensures Valid(a + [c], e) && Apply(a + [c], e) == Apply(a, e) + [c]
  {
  }

  /** Some script is as short as the distance. */
  lemma {:induction false} ScriptOfDist(s: bytes, t: bytes, j: nat) returns (es: seq<Edit>)
    requires j <= |t|
    ensures |es| == Dist(s, t, j) && Turns(s, es, t[..j])
    decreases |s| + j
  {
    if s == [] && j == 0 {
      es := [];
    } else if j == 0 || (s != [] && Dist(s, t, j) == Dist(s[..|s| - 1], t, j) + 1) {
      var p := s[..|s| - 1];
      DistNil(p, t);
      var rest := ScriptOfDist(p, t, j);
      es := DeleteLast(s, rest, t[..j]);
    } else if s == [] || Dist(s, t, j) == Dist(s, t, j - 1) + 1 {
      var rest := ScriptOfDist(s, t, j - 1);
      es := InsertLast(s, rest, t, j);
    } else {
      var rest := ScriptOfDist(s[..|s| - 1], t, j - 1);
      es := AlignLast(s, rest, t, j);
    }
  }

  lemma DeleteLast(s: bytes, rest: seq<Edit>, b: bytes) returns (es: seq<Edit>)
    requires s != [] && Turns(s[..|s| - 1], rest, b)
    ensures |es| == |rest| + 1 && Turns(s, es, b)
  {
    es := [Delete(|s| - 1)] + rest;
    assert Apply(s, es[0]) == s[..|s| - 1] && es[1..] == rest;
  }

  lemma InsertLast(s: bytes, rest: seq<Edit>, t: bytes, j: nat) returns (es: seq<Edit>)
    requires 0 < j <= |t| && Turns(s, rest, t[..j - 1])
    ensures |es| == |rest| + 1 && Turns(s, es, t[..j])
  {
    var e := Insert(j - 1, t[j - 1]);
    TurnsThen(s, rest, t[..j - 1], e);
    assert Apply(t[..j - 1], e) == t[..j];
    es := rest + [e];
  }

  lemma AlignLast(s: bytes, rest: seq<Edit>, t: bytes, j: nat) returns (es: seq<Edit>)
    requires s != [] && 0 < j <= |t| && Turns(s[..|s| - 1], rest, t[..j - 1])
    ensures |es| == |rest| + Cost(s[|s| - 1], t[j - 1]) && Turns(s, es, t[..j])
  {
    var c, d := s[|s| - 1], t[j - 1];
    assert s[..|s| - 1] + [c] == s;
    assert t[..j - 1] + [d] == t[..j];
    es := AlignSnoc(s[..|s| - 1], c, rest, t[..j - 1], d);
  }

  lemma AlignSnoc(p: bytes, c: byte, rest: seq<Edit>, q: bytes, d: byte) returns (es: seq<Edit>)
    requires Turns(p, rest, q)
    ensures |es| == |rest| + Cost(c, d) && Turns(p + [c], es, q + [d])
  {
    es := rest;
    TurnsUnder(p, es, q, c);
    if c != d {
      var e := Substitute(|q|, d);
      TurnsThen(p + [c], es, q + [c], e);
      assert Apply(q + [c], e) == q + [d];
      es := es + [e];
    }
  }

  /** `q` bounds `p` from below to within one edit, as far as the target's first `j` bytes tell. */
  ghost predicate Near(p: bytes, q: bytes, t: bytes, j: nat)
    requires j <= |t|
  {
    Dist(p, t, j) <= Dist(q, t, j) + 1
  }

  /** Both strings grow by the same byte. */
  lemma NearUnder(p: bytes, q: bytes, c: byte, t: bytes, j: nat)
    requires 0 < j <= |t|
    requires Near(p, q, t, j - 1) && Near(p, q, t, j) && Near(p + [c], q + [c], t, j - 1)
    ensures Near(p + [c], q + [c], t, j)
  {
    DistSnoc(p, c, t, j);
    DistSnoc(q, c, t, j);
  }

  lemma NearNil(p: bytes, q: bytes, t: bytes)
    requires |p| <= |q| + 1
    ensures Near(p, q, t, 0)
  {
    DistNil(p, t);
    DistNil(q, t);
  }

  lemma NearAppended(s: bytes, e: Edit, t: bytes, j: nat)
    requires e.Insert? && e.at == |s| && 0 < j <= |t| && Near(s, Apply(s, e), t, j - 1)
    ensures Near(s, Apply(s, e), t, j)
  {
    assert Apply(s, e) == s + [e.value];
    DistSnoc(s, e.value, t, j);
    DistStep(s, t, j);
  }

  lemma SplitLast(s: bytes) returns (p: bytes, c: byte)
    requires s != []
    ensures s == p + [c]
  {
    p, c := s[..|s| - 1], s[|s| - 1];
  }

  lemma NearLastEdit(p: bytes, c: byte, e: Edit, t: bytes, j: nat)
    requires e.at == |p| && !e.Insert? && 0 < j <= |t| && Near(p + [c], Apply(p + [c], e), t, j - 1)
    ensures Near(p + [c], Apply(p + [c], e), t, j)
  {
    DistSnoc(p, c, t, j);
    if e.Delete? {
      assert Apply(p + [c], e) == p;
    } else {
      assert Apply(p + [c], e) == p + [e.value];
      DistSnoc(p, e.value, t, j);
    }
  }

  /** A longer prefix of the target is at most one insertion away. */
  lemma DistStep(s: bytes, t: bytes, j: nat)
    requires 0 < j <= |t|
    ensures Dist(s, t, j) <= Dist(s, t, j - 1) + 1
  {
  }

  /** One edit of the first string moves the distance by at most one. */
  lemma {:induction false} DistAfterEdit(s: bytes, e: Edit, t: bytes, j: nat)
    requires Valid(s, e) && j <= |t|
    ensures Near(s, Apply(s, e), t, j)
    decreases |s| + j, 1
  {
    if j == 0 {
      NearNil(s, Apply(s, e), t);
    } else {
      DistAfterEdit(s, e, t, j - 1);
      if e.at == |s| {
        NearAppended(s, e, t, j);
      } else {
        var p, c := SplitLast(s);
        DistAfterInnerEdit(p, c, e, t, j);
      }
    }
  }

  lemma {:induction false} DistAfterInnerEdit(p: bytes, c: byte, e: Edit, t: bytes, j: nat)
    requires Valid(p + [c], e) && e.at <= |p| && 0 < j <= |t| && Near(p + [c], Apply(p + [c], e), t, j - 1)
    ensures Near(p + [c], Apply(p + [c], e), t, j)
    decreases |p| + 1 + j, 0
  {
    if Valid(p, e) {
      DistAfterEdit(p, e, t, j - 1);
      DistAfterEdit(p, e, t, j);
      ApplyUnder(p, e, c);
      NearUnder(p, Apply(p, e), c, t, j);
    } else {
      NearLastEdit(p, c, e, t, j);
    }
  }

  lemma {:induction false} DistOfScript(s: bytes, es: seq<Edit>, t: bytes, j: nat)
    requires j <= |t| && Turns(s, es, t[..j])
    ensures Dist(s, t, j) <= |es|
    decreases |es|
  {
    if es == [] {
      DistSelf(t, j);
    } else {
      DistOfScript(Apply(s, es[0]), es[1..], t, j);
      DistAfterEdit(s, es[0], t, j);
    }
  }

  lemma {:induction false} DistSelf(t: bytes, j: nat)
    requires j <= |t|
    ensures Dist(t[..j], t, j) == 0
  {
    if j > 0 {
      DistSelf(t, j - 1);
      assert t[..j] == t[..j - 1] + [t[j - 1]];
      DistSnoc(t[..j - 1], t[j - 1], t, j);
    }
  }

  ghost predicate Script(s: bytes, es: seq<Edit>, t: bytes, n: nat) {
    |es| <= n && Turns(s, es, t)
  }

  /** `t` is at most `n` single-byte edits away from `s`. */
  ghost predicate WithinEdits(s: bytes, t: bytes, n: nat) {
    exists es :: Script(s, es, t, n)
  }

  lemma DistIsShortestScript(s: bytes, t: bytes, n: nat)
    ensures Dist(s, t, |t|) <= n <==> WithinEdits(s, t, n)
  {
    assert t[..|t|] == t;
    var best := ScriptOfDist(s, t, |t|);
    if WithinEdits(s, t, n) {
      var es :| Script(s, es, t, n);
      DistOfScript(s, es, t, |t|);
    } else {
      assert !Script(s, best, t, n);
    }
  }
}
