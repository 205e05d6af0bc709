/** Indexes that come about by any number of merges, one into the other: what their averages are. */
module MergeTrees {
  import opened Headers
  import opened Tables
  import opened Documents
  import opened Build
  import opened MergeSpec
  import opened SameIndexes

  /** Which batches of documents were built, and which segments were merged. */
  datatype Tree = Built(docs: seq<Document>) | Merged(left: Tree, right: Tree)

  function Docs(tree: Tree): seq<Document> {
    match tree
    case Built(docs) => docs
    case Merged(left, right) => Docs(left) + Docs(right)
  }

  /** How many of the batches name a field. */
  ghost function Batches(tree: Tree, h: uint64): nat {
    match tree
    case Built(docs) => if Named(docs, |docs|, h) then 1 else 0
    case Merged(left, right) => Batches(left, h) + Batches(right, h)
  }

  ghost predicate Comes(t: Tables, tree: Tree, ratio: Ratio)
    decreases tree
  {
    match tree
    case Built(docs) => IndexOf(t, docs, ratio) && AveragesBuilt(t, ratio)
    case Merged(left, right) =>
      exists a, b {:trigger Comes(a, left, ratio), Comes(b, right, ratio)} ::
        Comes(a, left, ratio) && Comes(b, right, ratio) && MergeOf(t, a, b, ratio)
  }

  /** What comes about is the index of all the documents in a row. */
  lemma {:induction false} TreeIsIndex(t: Tables, tree: Tree, ratio: Ratio)
    requires Comes(t, tree, ratio)
    ensures IndexOf(t, Docs(tree), ratio)
    decreases tree
  {
    if tree.Merged? {
      var a, b :| Comes(a, tree.left, ratio) && Comes(b, tree.right, ratio) && MergeOf(t, a, b, ratio);
      TreeIsIndex(a, tree.left, ratio);
      TreeIsIndex(b, tree.right, ratio);
      MergeOfIndexes(t, a, b, Docs(tree.left), Docs(tree.right), ratio);
    }
  }

  lemma {:induction false} FieldOfBatches(t: Tables, tree: Tree, ratio: Ratio, h: uint64)
    requires Comes(t, tree, ratio)
    ensures h in t.fields <==> Batches(tree, h) > 0
    decreases tree
  {
    if tree.Merged? {
      var a, b :| Comes(a, tree.left, ratio) && Comes(b, tree.right, ratio) && MergeOf(t, a, b, ratio);
      FieldOfBatches(a, tree.left, ratio, h);
      FieldOfBatches(b, tree.right, ratio, h);
      MergeHas(t, a, b, h, ratio);
    }
  }

  /** The average is that of a build over total and count, where there is anything to divide by. */
  ghost predicate AverageBuilt(t: Tables, h: uint64, ratio: Ratio) {
    && h in t.fields
    && (t.fields[h].documentLengths != []
        ==> t.fields[h].avgDocumentLength
            == ratio.built(t.fields[h].totalDocumentsLength, |t.fields[h].documentLengths|))
  }

  lemma JustBuilt(t: Tables, docs: seq<Document>, ratio: Ratio, h: uint64)
    requires IndexOf(t, docs, ratio) && AveragesBuilt(t, ratio) && Named(docs, |docs|, h)
    ensures AverageBuilt(t, h, ratio)
  {
  }

  /** A field of one batch has the average of a build, however often it was copied. */
  lemma {:induction false} OneBatch(t: Tables, tree: Tree, ratio: Ratio, h: uint64)
    requires Comes(t, tree, ratio) && Batches(tree, h) == 1
    ensures AverageBuilt(t, h, ratio)
    decreases tree
  {
    if tree.Merged? {
      var a, b :| Comes(a, tree.left, ratio) && Comes(b, tree.right, ratio) && MergeOf(t, a, b, ratio);
      if Batches(tree.left, h) == 1 {
        OneBatch(a, tree.left, ratio, h);
      } else {
        OneBatch(b, tree.right, ratio, h);
      }
      OneOfBoth(t, a, b, tree.left, tree.right, ratio, h);
    } else {
      JustBuilt(t, tree.docs, ratio, h);
    }
  }

  lemma Orderly(t: Tables, tree: Tree, ratio: Ratio)
    requires Comes(t, tree, ratio)
    ensures WellFormed(t, ratio)
  {
  }

  /** Copied from the one side that has it. */
  lemma OneOfBoth(t: Tables, a: Tables, b: Tables, left: Tree, right: Tree, ratio: Ratio, h: uint64)
    requires Comes(a, left, ratio) && Comes(b, right, ratio) && MergeOf(t, a, b, ratio)
    requires Batches(left, h) + Batches(right, h) == 1
    ensures AverageBuilt(a, h, ratio) || AverageBuilt(b, h, ratio) ==> AverageBuilt(t, h, ratio)
  {
    Orderly(a, left, ratio);
    Orderly(b, right, ratio);
    FieldOfBatches(a, left, ratio, h);
    FieldOfBatches(b, right, ratio, h);
    CopiedAt(t, a, b, h, ratio);
    BuiltCopied(t, a, b, ratio, h);
  }

  lemma BuiltCopied(t: Tables, a: Tables, b: Tables, ratio: Ratio, h: uint64)
    requires h in t.fields && (h in a.fields) != (h in b.fields)
    requires var f, g := t.fields[h], if h in a.fields then a.fields[h] else b.fields[h];
             && f.avgDocumentLength == g.avgDocumentLength && f.totalDocumentsLength == g.totalDocumentsLength
             && |f.documentLengths| == |g.documentLengths|
    ensures AverageBuilt(a, h, ratio) || AverageBuilt(b, h, ratio) ==> AverageBuilt(t, h, ratio)
  {
  }

  /** A field of several batches has the average of a merge. */
  lemma {:induction false} ManyBatches(t: Tables, tree: Tree, ratio: Ratio, h: uint64)
    requires Comes(t, tree, ratio) && Batches(tree, h) >= 2
    ensures AverageMerged(t, h, ratio)
    decreases tree
  {
    if tree.Merged? {
      var a, b :| Comes(a, tree.left, ratio) && Comes(b, tree.right, ratio) && MergeOf(t, a, b, ratio);
      if Batches(tree.left, h) >= 2 {
        ManyBatches(a, tree.left, ratio, h);
      } else if Batches(tree.right, h) >= 2 {
        ManyBatches(b, tree.right, ratio, h);
      } else {
        FieldOfBatches(a, tree.left, ratio, h);
        FieldOfBatches(b, tree.right, ratio, h);
      }
      Orderly(a, tree.left, ratio);
      Orderly(b, tree.right, ratio);
      StaysMerged(t, a, b, h, ratio);
    }
  }

  /** The average of a field, by how many batches have it. */
  ghost function AverageBy(batches: nat, total: nat, count: nat, ratio: Ratio): uint32 {
    if batches == 1 then ratio.built(total, count) else ratio.merged(total, count)
  }

  lemma TreeAverage(t: Tables, tree: Tree, ratio: Ratio, h: uint64)
    requires Comes(t, tree, ratio) && h in t.fields && t.fields[h].documentLengths != []
    ensures t.fields[h].avgDocumentLength
            == AverageBy(Batches(tree, h), t.fields[h].totalDocumentsLength, |t.fields[h].documentLengths|, ratio)
  {
    FieldOfBatches(t, tree, ratio, h);
    if Batches(tree, h) == 1 {
      OneBatch(t, tree, ratio, h);
    } else {
      ManyBatches(t, tree, ratio, h);
    }
  }

  /** The same documents, indexed in whatever batches and merged in whatever order: filtering finds the same. */
  lemma TreesFilterAlike(s: Tables, t: Tables, x: Tree, y: Tree, ratio: Ratio)
    requires Comes(s, x, ratio) && Comes(t, y, ratio) && Docs(x) == Docs(y)
    ensures SameIndex(s, t)
  {
    TreeIsIndex(s, x, ratio);
    TreeIsIndex(t, y, ratio);
    DocumentsSettle(s, t, Docs(x), ratio);
  }

  ghost predicate FormulasAgree(f: Field, ratio: Ratio) {
    ratio.built(f.totalDocumentsLength, |f.documentLengths|)
    == ratio.merged(f.totalDocumentsLength, |f.documentLengths|)
  }

  lemma FormulasDecide(f: Field, g: Field, m: nat, n: nat, ratio: Ratio)
    requires f.documentLengths == g.documentLengths && f.totalDocumentsLength == g.totalDocumentsLength
    requires f.avgDocumentLength == AverageBy(m, f.totalDocumentsLength, |f.documentLengths|, ratio)
    requires g.avgDocumentLength == AverageBy(n, g.totalDocumentsLength, |g.documentLengths|, ratio)
    ensures f.avgDocumentLength == g.avgDocumentLength <==> (m == 1 <==> n == 1) || FormulasAgree(f, ratio)
  {
  }

  lemma TreesMeasureAlike(s: Tables, t: Tables, x: Tree, y: Tree, ratio: Ratio, h: uint64)
    requires Comes(s, x, ratio) && Comes(t, y, ratio) && Docs(x) == Docs(y) && h in s.fields
    ensures h in t.fields && s.fields[h].documentLengths == t.fields[h].documentLengths
    ensures s.fields[h].totalDocumentsLength == t.fields[h].totalDocumentsLength
  {
    TreesFilterAlike(s, t, x, y, ratio);
    Orderly(s, x, ratio);
    Orderly(t, y, ratio);
    SameLengths(s, t, h, ratio);
  }

  /**
   And the average of a field is the same, unless it comes from one batch here and from several there, at a total and a
   count over which the two formulas differ.
   */
  lemma TreesScoreAlike(s: Tables, t: Tables, x: Tree, y: Tree, ratio: Ratio, h: uint64)
    requires Comes(s, x, ratio) && Comes(t, y, ratio) && Docs(x) == Docs(y)
    requires h in s.fields && s.fields[h].documentLengths != []
    ensures h in t.fields
    ensures s.fields[h].avgDocumentLength == t.fields[h].avgDocumentLength
            <==> (Batches(x, h) == 1 <==> Batches(y, h) == 1) || FormulasAgree(s.fields[h], ratio)
  {
    TreesMeasureAlike(s, t, x, y, ratio, h);
    TreeAverage(s, x, ratio, h);
    TreeAverage(t, y, ratio, h);
    FormulasDecide(s.fields[h], t.fields[h], Batches(x, h), Batches(y, h), ratio);
  }
}
