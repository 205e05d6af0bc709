/**
 An index is determined by its documents, but for the averages: entries, lists and lengths are the same whether it was
 built or merged, so that filtering finds the same. Scores also read the averages; these depend on how it came about.
 */
module SameIndexes {
  import opened Bytes
  import opened Headers
  import opened Bitmaps
  import opened Tables
  import opened Documents
  import opened Build
  import opened Zipping
  import opened Shifts
  import opened MergeSpec

  ghost predicate Within(xs: seq<bytes>, ys: seq<bytes>) {
    forall x | x in xs :: x in ys
  }

  lemma SameLast(xs: seq<bytes>, ys: seq<bytes>)
    requires Ascends(xs) && Ascends(ys) && xs != [] && ys != [] && Within(xs, ys) && Within(ys, xs)
    ensures xs[|xs| - 1] == ys[|ys| - 1]
  {
    var x, y := xs[|xs| - 1], ys[|ys| - 1];
    assert x in ys && y in xs;
    LessTotal(x, y);
  }

  lemma WithinSome(xs: seq<bytes>, ys: seq<bytes>)
    requires Within(xs, ys) && xs != []
    ensures ys != []
  {
    assert xs[0] in ys;
  }

  /** Only one ascending list has given members. */
  lemma {:induction false} AscendsUnique(xs: seq<bytes>, ys: seq<bytes>)
    requires Ascends(xs) && Ascends(ys) && Within(xs, ys) && Within(ys, xs)
    ensures xs == ys
    decreases |xs|
  {
    if xs != [] {
      WithinSome(xs, ys);
      SameLast(xs, ys);
      var k, l := |xs| - 1, |ys| - 1;
      InitWithin(xs, ys);
      InitWithin(ys, xs);
      AscendsUnique(xs[..k], ys[..l]);
      assert xs == xs[..k] + [xs[k]] && ys == ys[..l] + [ys[l]];
    } else if ys != [] {
      WithinSome(ys, xs);
    }
  }

  lemma InitWithin(xs: seq<bytes>, ys: seq<bytes>)
    requires Ascends(xs) && xs != [] && ys != [] && xs[|xs| - 1] == ys[|ys| - 1] && Within(xs, ys)
    ensures Within(xs[..|xs| - 1], ys[..|ys| - 1])
  {
    var k, l := |xs| - 1, |ys| - 1;
    forall x | x in xs[..k]
      ensures x in ys[..l]
    {
      var i :| 0 <= i < k && xs[i] == x;
      LessTotal(xs[i], xs[k]);
      assert x in ys;
      var j :| 0 <= j < |ys| && ys[j] == x;
      assert ys[..l][j] == x;
    }
  }

  ghost function Values(ts: seq<Token>): seq<bytes> {
    seq(|ts|, i requires 0 <= i < |ts| => ts[i].Bytes())
  }

  /** A token is in a table of the index exactly when it has entries. */
  lemma ValueHasEntries(t: Tables, h: uint64, ratio: Ratio, v: bytes)
    requires WellFormed(t, ratio) && h in t.fields
    ensures v in Values(t.fields[h].tokens) <==> Entries(t, h, v) != []
  {
    var ts := t.fields[h].tokens;
    if v in Values(ts) {
      var i: nat :| i < |ts| && Values(ts)[i] == v;
      EntriesOfToken(t, h, i, ratio);
    }
    if Entries(t, h, v) != [] {
      var i: nat :| HasToken(ts, v, i);
      assert Values(ts)[i] == v;
    }
  }

  lemma ValuesWithin(s: Tables, t: Tables, h: uint64, ratio: Ratio)
    requires WellFormed(s, ratio) && WellFormed(t, ratio) && h in s.fields && h in t.fields
    requires forall v :: Entries(s, h, v) == Entries(t, h, v)
    ensures Ascends(Values(s.fields[h].tokens)) && Within(Values(s.fields[h].tokens), Values(t.fields[h].tokens))
  {
    assert FieldOk(s, s.fields[h], ratio);
    forall v | v in Values(s.fields[h].tokens)
      ensures v in Values(t.fields[h].tokens)
    {
      ValueHasEntries(s, h, ratio, v);
      ValueHasEntries(t, h, ratio, v);
    }
  }

  lemma SameValues(s: Tables, t: Tables, h: uint64, ratio: Ratio)
    requires WellFormed(s, ratio) && WellFormed(t, ratio) && SameIndex(s, t) && h in s.fields
    ensures h in t.fields && Values(s.fields[h].tokens) == Values(t.fields[h].tokens)
  {
    assert h in t.fields.Keys;
    ValuesWithin(s, t, h, ratio);
    ValuesWithin(t, s, h, ratio);
    AscendsUnique(Values(s.fields[h].tokens), Values(t.fields[h].tokens));
  }

  /** Two tokens that stand for the same: their values, their entries, and the documents on their posting lists. */
  ghost predicate SameToken(s: Tables, x: Token, t: Tables, y: Token) {
    && TokenOk(s, x) && TokenOk(t, y)
    && x.Bytes() == y.Bytes() && x.frequencyCount == y.frequencyCount && Slice(s, x) == Slice(t, y)
    && Unmarshal(s.postingLists[x.postingListIndex]) == Unmarshal(t.postingLists[y.postingListIndex])
  }

  /**
   Position by position, the token tables of the same index agree: every search finds the same things in the same order.
   */
  lemma SameTokens(s: Tables, t: Tables, h: uint64, ratio: Ratio)
    requires WellFormed(s, ratio) && WellFormed(t, ratio) && SameIndex(s, t) && h in s.fields
    ensures h in t.fields && |s.fields[h].tokens| == |t.fields[h].tokens|
    ensures forall i | 0 <= i < |s.fields[h].tokens| :: SameToken(s, s.fields[h].tokens[i], t, t.fields[h].tokens[i])
  {
    SameValues(s, t, h, ratio);
    var xs, ys := s.fields[h].tokens, t.fields[h].tokens;
    assert |xs| == |Values(xs)| && |ys| == |Values(ys)|;
    forall i: nat | i < |xs|
      ensures SameToken(s, xs[i], t, ys[i])
    {
      assert xs[i].Bytes() == Values(xs)[i] == Values(ys)[i] == ys[i].Bytes();
      EntriesOfToken(s, h, i, ratio);
      EntriesOfToken(t, h, i, ratio);
    }
  }

  lemma SummedLengths(t: Tables, h: uint64, ratio: Ratio)
    requires WellFormed(t, ratio) && h in t.fields
    ensures t.fields[h].totalDocumentsLength == SumLengths(t.fields[h].documentLengths, |t.fields[h].documentLengths|)
  {
    assert FieldOk(t, t.fields[h], ratio);
  }

  lemma LengthsOfSide(t: Tables, h: uint64)
    requires h in t.fields
    ensures SideLengths(t, h) == t.fields[h].documentLengths
  {
  }

  /** The same goes for the lengths and their total. */
  lemma SameLengths(s: Tables, t: Tables, h: uint64, ratio: Ratio)
    requires WellFormed(s, ratio) && WellFormed(t, ratio) && SameIndex(s, t) && h in s.fields
    ensures h in t.fields && s.fields[h].documentLengths == t.fields[h].documentLengths
    ensures s.fields[h].totalDocumentsLength == t.fields[h].totalDocumentsLength
  {
    assert h in t.fields.Keys;
    SameAt(s, t, h);
    LengthsOfSide(s, h);
    LengthsOfSide(t, h);
    SummedLengths(s, h, ratio);
    SummedLengths(t, h, ratio);
  }

  /** A merge at one field. */
  lemma MergeAt(m: Tables, a: Tables, b: Tables, h: uint64, ratio: Ratio)
    requires MergeOf(m, a, b, ratio) && (h in a.fields || h in b.fields)
    ensures h in m.fields && m.fields[h].avgDocumentLength == MergedAverage(SideOf(a, h), SideOf(b, h), ratio)
    ensures |a.documentsIds| < MaxDocuments
    ensures SideLengths(m, h) == SideLengths(a, h) + ShiftLengths(SideLengths(b, h), |a.documentsIds|)
  {
    assert h in m.fields.Keys;
  }

  lemma SameAt(s: Tables, t: Tables, h: uint64)
    requires SameIndex(s, t)
    ensures SideLengths(s, h) == SideLengths(t, h) && (h in s.fields <==> h in t.fields)
  {
    assert h in s.fields.Keys <==> h in t.fields.Keys;
  }

  /** What a field says of its lengths. */
  ghost predicate Summed(f: Field) {
    f.totalDocumentsLength == SumLengths(f.documentLengths, |f.documentLengths|)
  }

  lemma AppendedTotals(f: Field, g: Field, e: Field, offset: uint32)
    requires Summed(f) && Summed(g) && Summed(e)
    requires e.documentLengths == f.documentLengths + ShiftLengths(g.documentLengths, offset)
    ensures |e.documentLengths| == |f.documentLengths| + |g.documentLengths|
    ensures e.totalDocumentsLength == f.totalDocumentsLength + g.totalDocumentsLength
  {
    SumOfAppended(f.documentLengths, g.documentLengths, offset, |g.documentLengths|);
  }

  lemma BuiltAt(s: Tables, h: uint64, ratio: Ratio)
    requires AveragesBuilt(s, ratio) && h in s.fields && s.fields[h].documentLengths != []
    ensures s.fields[h].avgDocumentLength
            == ratio.built(s.fields[h].totalDocumentsLength, |s.fields[h].documentLengths|)
  {
  }

  lemma AverageOfBoth(a: Tables, b: Tables, h: uint64, ratio: Ratio)
    requires h in a.fields && h in b.fields
    ensures MergedAverage(SideOf(a, h), SideOf(b, h), ratio)
            == ratio.merged(a.fields[h].totalDocumentsLength + b.fields[h].totalDocumentsLength,
                            |a.fields[h].documentLengths| + |b.fields[h].documentLengths|)
  {
  }

  lemma AverageOfOne(a: Tables, b: Tables, h: uint64, ratio: Ratio)
    requires (h in a.fields) != (h in b.fields)
    ensures MergedAverage(SideOf(a, h), SideOf(b, h), ratio)
            == if h in a.fields then a.fields[h].avgDocumentLength else b.fields[h].avgDocumentLength
  {
  }

  lemma BothSides(m: Tables, a: Tables, b: Tables, h: uint64)
    requires h in m.fields && h in a.fields && h in b.fields && |a.documentsIds| < MaxDocuments
    requires Summed(a.fields[h]) && Summed(b.fields[h]) && Summed(m.fields[h])
    requires SideLengths(m, h) == SideLengths(a, h) + ShiftLengths(SideLengths(b, h), |a.documentsIds|)
    ensures |m.fields[h].documentLengths| == |a.fields[h].documentLengths| + |b.fields[h].documentLengths|
    ensures m.fields[h].totalDocumentsLength == a.fields[h].totalDocumentsLength + b.fields[h].totalDocumentsLength
  {
    LengthsOfSide(m, h);
    LengthsOfSide(a, h);
    LengthsOfSide(b, h);
    AppendedTotals(a.fields[h], b.fields[h], m.fields[h], |a.documentsIds|);
  }

  lemma AverageOfSides(m: Tables, a: Tables, b: Tables, h: uint64, ratio: Ratio)
    requires h in m.fields && h in a.fields && h in b.fields && |a.documentsIds| < MaxDocuments
    requires Summed(a.fields[h]) && Summed(b.fields[h]) && Summed(m.fields[h])
    requires SideLengths(m, h) == SideLengths(a, h) + ShiftLengths(SideLengths(b, h), |a.documentsIds|)
    requires m.fields[h].avgDocumentLength == MergedAverage(SideOf(a, h), SideOf(b, h), ratio)
    ensures m.fields[h].avgDocumentLength
            == ratio.merged(m.fields[h].totalDocumentsLength, |m.fields[h].documentLengths|)
  {
    AverageOfBoth(a, b, h, ratio);
    BothSides(m, a, b, h);
  }

  lemma MergedAt(m: Tables, a: Tables, b: Tables, h: uint64, ratio: Ratio)
    requires WellFormed(a, ratio) && WellFormed(b, ratio) && MergeOf(m, a, b, ratio) && h in a.fields && h in b.fields
    ensures h in m.fields
    ensures m.fields[h].avgDocumentLength
            == ratio.merged(m.fields[h].totalDocumentsLength, |m.fields[h].documentLengths|)
  {
    SummedLengths(a, h, ratio);
    SummedLengths(b, h, ratio);
    MergeAt(m, a, b, h, ratio);
    SummedLengths(m, h, ratio);
    AverageOfSides(m, a, b, h, ratio);
  }

  /**
   The average of a field that both merged indexes have is that of the index built at once exactly when the two formulas
   agree at its total and count.
   */
  lemma SameAverage(s: Tables, m: Tables, a: Tables, b: Tables, h: uint64, ratio: Ratio)
    requires WellFormed(a, ratio) && WellFormed(b, ratio) && MergeOf(m, a, b, ratio) && h in a.fields && h in b.fields
    requires WellFormed(s, ratio) && AveragesBuilt(s, ratio) && SameIndex(m, s) && h in s.fields
    requires s.fields[h].documentLengths != []
    ensures h in m.fields
    ensures var total, count := s.fields[h].totalDocumentsLength, |s.fields[h].documentLengths|;
            m.fields[h].avgDocumentLength == s.fields[h].avgDocumentLength
            <==> ratio.merged(total, count) == ratio.built(total, count)
  {
    MergedAt(m, a, b, h, ratio);
    SameLengths(m, s, h, ratio);
    BuiltAt(s, h, ratio);
  }

  lemma CopiedLengths(m: Tables, a: Tables, b: Tables, h: uint64)
    requires h in m.fields && (h in a.fields) != (h in b.fields) && |a.documentsIds| < MaxDocuments
    requires SideLengths(m, h) == SideLengths(a, h) + ShiftLengths(SideLengths(b, h), |a.documentsIds|)
    ensures var f := if h in a.fields then a.fields[h] else b.fields[h];
            |m.fields[h].documentLengths| == |f.documentLengths|
            && SumLengths(m.fields[h].documentLengths, |m.fields[h].documentLengths|)
                == SumLengths(f.documentLengths, |f.documentLengths|)
  {
    SumOfAppended(SideLengths(a, h), SideLengths(b, h), |a.documentsIds|, |SideLengths(b, h)|);
  }

  /** The average is that of the merge over total and count. */
  ghost predicate AverageMerged(t: Tables, h: uint64, ratio: Ratio) {
    && h in t.fields
    && t.fields[h].avgDocumentLength
        == ratio.merged(t.fields[h].totalDocumentsLength, |t.fields[h].documentLengths|)
  }

  /** A field that only one side has is copied: average, total and count. */
  lemma CopiedAt(m: Tables, a: Tables, b: Tables, h: uint64, ratio: Ratio)
    requires WellFormed(a, ratio) && WellFormed(b, ratio) && MergeOf(m, a, b, ratio)
    requires (h in a.fields) != (h in b.fields)
    ensures h in m.fields
    ensures var f, g := m.fields[h], if h in a.fields then a.fields[h] else b.fields[h];
            && f.avgDocumentLength == g.avgDocumentLength && f.totalDocumentsLength == g.totalDocumentsLength
            && |f.documentLengths| == |g.documentLengths|
  {
    MergeAt(m, a, b, h, ratio);
    AverageOfOne(a, b, h, ratio);
    SummedLengths(m, h, ratio);
    CopiedLengths(m, a, b, h);
    if h in a.fields {
      SummedLengths(a, h, ratio);
    } else {
      SummedLengths(b, h, ratio);
    }
  }

  /**
   A field that only one of them has keeps its average. It is that of the index built at once exactly when that side has
   the average of a build, as it does unless it was merged before.
   */
  lemma CopiedAverage(s: Tables, m: Tables, a: Tables, b: Tables, h: uint64, ratio: Ratio)
    requires WellFormed(a, ratio) && WellFormed(b, ratio) && MergeOf(m, a, b, ratio)
    requires (h in a.fields) != (h in b.fields)
    requires WellFormed(s, ratio) && AveragesBuilt(s, ratio) && SameIndex(m, s) && h in s.fields
    requires s.fields[h].documentLengths != []
    ensures h in m.fields
    ensures var f := if h in a.fields then a.fields[h] else b.fields[h];
            && m.fields[h].avgDocumentLength == f.avgDocumentLength
            && (f.avgDocumentLength == s.fields[h].avgDocumentLength
                <==> f.avgDocumentLength == ratio.built(f.totalDocumentsLength, |f.documentLengths|))
  {
    CopiedAt(m, a, b, h, ratio);
    SameLengths(m, s, h, ratio);
    BuiltAt(s, h, ratio);
  }

  lemma MergeHas(m: Tables, a: Tables, b: Tables, h: uint64, ratio: Ratio)
    requires MergeOf(m, a, b, ratio)
    ensures h in m.fields <==> h in a.fields || h in b.fields
  {
    assert h in m.fields.Keys <==> h in a.fields.Keys || h in b.fields.Keys;
  }

  /** Once merged, always merged; and merged as soon as both sides have the field. */
  lemma StaysMerged(m: Tables, a: Tables, b: Tables, h: uint64, ratio: Ratio)
    requires WellFormed(a, ratio) && WellFormed(b, ratio) && MergeOf(m, a, b, ratio)
    requires (h in a.fields && h in b.fields) || AverageMerged(a, h, ratio) || AverageMerged(b, h, ratio)
    ensures AverageMerged(m, h, ratio)
  {
    if h in a.fields && h in b.fields {
      MergedAt(m, a, b, h, ratio);
    } else {
      CopiedAt(m, a, b, h, ratio);
    }
  }

  lemma SameMerged(s: Tables, t: Tables, h: uint64, ratio: Ratio)
    requires WellFormed(s, ratio) && WellFormed(t, ratio) && SameIndex(s, t)
    requires AverageMerged(s, h, ratio) && AverageMerged(t, h, ratio)
    ensures s.fields[h].avgDocumentLength == t.fields[h].avgDocumentLength
  {
    SameLengths(s, t, h, ratio);
  }

  /** Of three indexes at least two have the field: either way its average comes from the formula of the merge. */
  lemma MergedByTwo(m: Tables, ab: Tables, a: Tables, b: Tables, c: Tables, h: uint64, ratio: Ratio)
    requires WellFormed(a, ratio) && WellFormed(b, ratio) && WellFormed(c, ratio)
    requires MergeOf(ab, a, b, ratio) && (MergeOf(m, ab, c, ratio) || MergeOf(m, c, ab, ratio))
    requires (h in a.fields && h in b.fields) || (h in c.fields && (h in a.fields || h in b.fields))
    ensures AverageMerged(m, h, ratio)
  {
    MergeHas(ab, a, b, h, ratio);
    if h in a.fields && h in b.fields {
      StaysMerged(ab, a, b, h, ratio);
    }
    if MergeOf(m, ab, c, ratio) {
      StaysMerged(m, ab, c, h, ratio);
    } else {
      StaysMerged(m, c, ab, h, ratio);
    }
  }

  /** Three indexes merged either way have the same averages, bit for bit: they score alike as well as filter alike. */
  lemma AverageAssociative(a: Tables, b: Tables, c: Tables, ab: Tables, bc: Tables, left: Tables, right: Tables,
                           ratio: Ratio, h: uint64)
    requires WellFormed(a, ratio) && WellFormed(b, ratio) && WellFormed(c, ratio)
    requires MergeOf(ab, a, b, ratio) && MergeOf(left, ab, c, ratio) && MergeOf(bc, b, c, ratio)
    requires MergeOf(right, a, bc, ratio) && h in left.fields
    ensures h in right.fields && left.fields[h].avgDocumentLength == right.fields[h].avgDocumentLength
  {
    MergeHas(ab, a, b, h, ratio);
    MergeHas(bc, b, c, h, ratio);
    MergeHas(left, ab, c, h, ratio);
    MergeHas(right, a, bc, h, ratio);
    if (h in a.fields && h in b.fields) || (h in c.fields && (h in a.fields || h in b.fields)) {
      MergedByTwo(left, ab, a, b, c, h, ratio);
      MergedByTwo(right, bc, b, c, a, h, ratio);
      MergeAssociative(a, b, c, ab, bc, left, right, ratio);
      SameMerged(left, right, h, ratio);
    } else {
      CopiedTwice(a, b, c, ab, bc, left, right, ratio, h);
    }
  }

  /** A field that only one of the three has. */
  lemma CopiedTwice(a: Tables, b: Tables, c: Tables, ab: Tables, bc: Tables, left: Tables, right: Tables, ratio: Ratio,
                    h: uint64)
    requires WellFormed(a, ratio) && WellFormed(b, ratio) && WellFormed(c, ratio)
    requires MergeOf(ab, a, b, ratio) && MergeOf(left, ab, c, ratio) && MergeOf(bc, b, c, ratio)
    requires MergeOf(right, a, bc, ratio) && (h in a.fields || h in b.fields || h in c.fields)
    requires !(h in a.fields && h in b.fields) && !(h in a.fields && h in c.fields) && !(h in b.fields && h in c.fields)
    ensures h in left.fields && h in right.fields
    ensures left.fields[h].avgDocumentLength == right.fields[h].avgDocumentLength
  {
    MergeHas(ab, a, b, h, ratio);
    MergeHas(bc, b, c, h, ratio);
    CopiedAt(left, ab, c, h, ratio);
    CopiedAt(right, a, bc, h, ratio);
    if h in ab.fields {
      CopiedAt(ab, a, b, h, ratio);
    }
    if h in bc.fields {
      CopiedAt(bc, b, c, h, ratio);
    }
  }

  /** However an index came about, its documents settle what filtering sees of it. */
  lemma DocumentsSettle(s: Tables, t: Tables, docs: seq<Document>, ratio: Ratio)
    requires IndexOf(s, docs, ratio) && IndexOf(t, docs, ratio)
    ensures SameIndex(s, t)
  {
    forall h
      ensures SideLengths(s, h) == SideLengths(t, h) && (h in s.fields <==> h in t.fields)
    {
      SideLengthsOfIndex(s, docs, ratio, h);
      SideLengthsOfIndex(t, docs, ratio, h);
    }
  }
}
