/** storage/storage.go, `Tokens`: lookups in a token table that is strictly sorted by bytes. */
module Tokens {
  import opened Bytes
  import opened Headers

  ghost predicate Sorted(s: seq<Token>) {
    forall i, j | 0 <= i < j < |s| :: Less(s[i].Bytes(), s[j].Bytes())
  }

  /** `i` splits the table into the tokens below `b` and the others. */
  ghost predicate LowerBound(s: seq<Token>, b: bytes, i: nat) {
    && i <= |s|
    && (forall l | 0 <= l < i :: Less(s[l].Bytes(), b))
    && (forall l | i <= l < |s| :: AtMost(b, s[l].Bytes()))
  }

  lemma BelowPivot(s: seq<Token>, b: bytes, h: nat)
    requires Sorted(s) && h < |s| && Less(s[h].Bytes(), b)
    ensures forall l | 0 <= l <= h :: Less(s[l].Bytes(), b)
  {
    forall l | 0 <= l < h
      ensures Less(s[l].Bytes(), b)
    {
      LessTransitive(s[l].Bytes(), s[h].Bytes(), b);
    }
  }

  lemma AbovePivot(s: seq<Token>, b: bytes, h: nat)
    requires Sorted(s) && h < |s| && AtMost(b, s[h].Bytes())
    ensures forall l | h <= l < |s| :: AtMost(b, s[l].Bytes())
  {
    forall l | h < l < |s|
      ensures AtMost(b, s[l].Bytes())
    {
      if b != s[h].Bytes() {
        LessTransitive(b, s[h].Bytes(), s[l].Bytes());
      }
    }
  }

  /** A strictly sorted table holds every token once, at its lower bound. */
  lemma LowerBoundFinds(s: seq<Token>, b: bytes, i: nat)
    requires Sorted(s) && LowerBound(s, b, i)
    ensures forall l | 0 <= l < |s| && s[l].Bytes() == b :: l == i
  {
    forall l | 0 <= l < |s| && s[l].Bytes() == b
      ensures l == i
    {
      LessTotal(b, b);
      LessTotal(s[i].Bytes(), b);
    }
  }

  method BinarySearchBytes(s: seq<Token>, b: bytes) returns (i: nat, found: bool)
    requires Sorted(s)
    ensures LowerBound(s, b, i)
    ensures found <==> exists l :: 0 <= l < |s| && s[l].Bytes() == b
    ensures found ==> i < |s| && s[i].Bytes() == b
  {
    i := 0;
    var j := |s|;
    while i < j
      invariant 0 <= i <= j <= |s|
      invariant forall l | 0 <= l < i :: Less(s[l].Bytes(), b)
      invariant forall l | j <= l < |s| :: AtMost(b, s[l].Bytes())
    {
      var h := (i + j) / 2;
      LessTotal(s[h].Bytes(), b);
      if Compare(s[h].Bytes(), b) < 0 {
        BelowPivot(s, b, h);
        i := h + 1;
      } else {
        AbovePivot(s, b, h);
        j := h;
      }
    }
    found := i < |s| && s[i].Bytes() == b;
    LowerBoundFinds(s, b, i);
  }

  /** The token itself, or the first one above it; none when every token is below. */
  method GetBytesOrNear(s: seq<Token>, b: bytes) returns (i: nat, found: bool)
    requires Sorted(s)
    ensures LowerBound(s, b, i) && (found <==> i < |s|)
  {
    i, found := BinarySearchBytes(s, b);
    if !found && i >= |s| {
      return i, false;
    }
    return i, true;
  }
}
