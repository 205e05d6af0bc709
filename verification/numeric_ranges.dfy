/**
 Range clauses over fields of encoded numbers: which of `>`, `>=`, `<`, `<=` give the tokens whose number fits, and
 when.
 */
module NumericRanges {
  import opened Bytes
  import opened Headers
  import opened Tokens
  import opened Ranges
  import opened Words
  import opened Numeric

  /** The four comparisons a query can make with a number, as the range clauses they compile to. */
  datatype Comparison = Above | AtLeast | Below | AtMost

  function RangeOf(c: Comparison, bound: bytes): Range {
    match c
    case Above => Range(CaptureRight, bound, [])
    case AtLeast => Range(CaptureBoth, bound, [])
    case Below => Range(CaptureLeft, [], bound)
    case AtMost => Range(CaptureBoth, [], bound)
  }

  predicate HasHigh(c: Comparison) {
    c.Below? || c.AtMost?
  }

  ghost predicate IntegerFits(c: Comparison, v: Int64, bound: Int64) {
    match c
    case Above => v > bound
    case AtLeast => v >= bound
    case Below => v < bound
    case AtMost => v <= bound
  }

  ghost predicate FloatFits(c: Comparison, x: Word, bound: Word) {
    match c
    case Above => TotallyBefore(bound, x)
    case AtLeast => x == bound || TotallyBefore(bound, x)
    case Below => TotallyBefore(x, bound)
    case AtMost => x == bound || TotallyBefore(x, bound)
  }

  /** Token `l` is the encoding of `values[l]`. */
  ghost predicate Integers(s: seq<Token>, values: seq<Int64>) {
    |s| == |values| && forall l | 0 <= l < |s| :: s[l].Bytes() == SortableInteger(values[l])
  }

  ghost predicate Floats(s: seq<Token>, values: seq<Word>) {
    |s| == |values| && forall l | 0 <= l < |s| :: s[l].Bytes() == SortableFloat(values[l])
  }

  /** Those tokens whose position is picked, in table order. */
  ghost function Picked(s: seq<Token>, pick: nat -> bool, n: nat): seq<Token>
    requires n <= |s|
  {
    if n == 0 then [] else Picked(s, pick, n - 1) + if pick(n - 1) then [s[n - 1]] else []
  }

  lemma {:induction false} KeptPicked(s: seq<Token>, keep: Token -> bool, pick: nat -> bool, n: nat)
    requires n <= |s| && forall l: nat | l < n :: keep(s[l]) == pick(l)
    ensures Kept(s, keep, n) == Picked(s, pick, n)
  {
    if n > 0 {
      KeptPicked(s, keep, pick, n - 1);
    }
  }

  /** With a bound that is not empty, a comparison comes out right unless it has a high bound above every token. */
  lemma ComparisonExact(s: seq<Token>, c: Comparison, bound: bytes)
    requires Sorted(s) && s != [] && bound != []
    ensures Resolved(s, RangeOf(c, bound)) == Kept(s, Within(RangeOf(c, bound)), |s|)
            <==> !(HasHigh(c) && Less(s[|s| - 1].Bytes(), bound))
  {
    RangeExact(s, RangeOf(c, bound));
  }

  /** Above every token, a high bound finds nothing. */
  lemma ComparisonOvershoots(s: seq<Token>, c: Comparison, bound: bytes)
    requires Sorted(s) && s != [] && HasHigh(c) && Less(s[|s| - 1].Bytes(), bound)
    ensures Resolved(s, RangeOf(c, bound)) == []
  {
    LessTotal(s[|s| - 1].Bytes(), bound);
    Overshot(s, RangeOf(c, bound));
  }

  lemma WithinInteger(t: Token, c: Comparison, v: Int64, bound: Int64)
    requires t.Bytes() == SortableInteger(v)
    ensures Within(RangeOf(c, SortableInteger(bound)))(t) <==> IntegerFits(c, v, bound)
  {
    IntegerOrder(v, bound);
    IntegerOrder(bound, v);
  }

  lemma WithinFloat(t: Token, c: Comparison, x: Word, bound: Word)
    requires t.Bytes() == SortableFloat(x)
    ensures Within(RangeOf(c, SortableFloat(bound)))(t) <==> FloatFits(c, x, bound)
  {
    FloatOrder(x, bound);
    FloatOrder(bound, x);
  }

  ghost function IntegersPicked(c: Comparison, values: seq<Int64>, bound: Int64): nat -> bool {
    (l: nat) => l < |values| && IntegerFits(c, values[l], bound)
  }

  ghost function FloatsPicked(c: Comparison, values: seq<Word>, bound: Word): nat -> bool {
    (l: nat) => l < |values| && FloatFits(c, values[l], bound)
  }

  lemma IntegersKept(s: seq<Token>, values: seq<Int64>, c: Comparison, bound: Int64)
    requires Integers(s, values)
    ensures Kept(s, Within(RangeOf(c, SortableInteger(bound))), |s|) == Picked(s, IntegersPicked(c, values, bound), |s|)
  {
    var keep, pick := Within(RangeOf(c, SortableInteger(bound))), IntegersPicked(c, values, bound);
    forall l: nat | l < |s|
      ensures keep(s[l]) == pick(l)
    {
      WithinInteger(s[l], c, values[l], bound);
    }
    KeptPicked(s, keep, pick, |s|);
  }

  lemma FloatsKept(s: seq<Token>, values: seq<Word>, c: Comparison, bound: Word)
    requires Floats(s, values)
    ensures Kept(s, Within(RangeOf(c, SortableFloat(bound))), |s|) == Picked(s, FloatsPicked(c, values, bound), |s|)
  {
    var keep, pick := Within(RangeOf(c, SortableFloat(bound))), FloatsPicked(c, values, bound);
    forall l: nat | l < |s|
      ensures keep(s[l]) == pick(l)
    {
      WithinFloat(s[l], c, values[l], bound);
    }
    KeptPicked(s, keep, pick, |s|);
  }

  /**
   Over a field of integers, `>` and `>=` give exactly the tokens whose integer fits; `<` and `<=` do so if and only if
   the bound is at most the largest integer of the field.
   */
  lemma IntegerFilter(s: seq<Token>, values: seq<Int64>, c: Comparison, bound: Int64)
    requires Sorted(s) && s != [] && Integers(s, values)
    ensures Resolved(s, RangeOf(c, SortableInteger(bound))) == Picked(s, IntegersPicked(c, values, bound), |s|)
            <==> (HasHigh(c) ==> bound <= values[|s| - 1])
  {
    IntegersKept(s, values, c, bound);
    ComparisonExact(s, c, SortableInteger(bound));
    IntegerOrder(values[|s| - 1], bound);
  }

  /** The same over a field of floats, in their total order. */
  lemma FloatFilter(s: seq<Token>, values: seq<Word>, c: Comparison, bound: Word)
    requires Sorted(s) && s != [] && Floats(s, values)
    ensures Resolved(s, RangeOf(c, SortableFloat(bound))) == Picked(s, FloatsPicked(c, values, bound), |s|)
            <==> (HasHigh(c) ==> !TotallyBefore(values[|s| - 1], bound))
  {
    FloatsKept(s, values, c, bound);
    ComparisonExact(s, c, SortableFloat(bound));
    FloatOrder(values[|s| - 1], bound);
  }

  /** The only integer is 1: `< 2` does not find it. */
  lemma IntegerMissed()
    ensures var s := [TokenOf(SortableInteger(1))];
            && Sorted(s) && Integers(s, [1]) && IntegerFits(Below, 1, 2)
            && Resolved(s, RangeOf(Below, SortableInteger(2))) == []
  {
    OneToken(SortableInteger(1));
    IntegerOrder(1, 2);
    ComparisonOvershoots([TokenOf(SortableInteger(1))], Below, SortableInteger(2));
  }
}
