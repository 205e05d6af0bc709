/** An index whose file is no longer than a file can be has no counter that does not fit its 64 bits. */
module Fitting {
  import opened Bytes
  import opened Collecting
  import opened Headers
  import opened Records
  import opened Tables
  import opened Totals
  import opened Build
  import opened Format
  import opened ListTables
  import opened Images
  import opened Storages

  lemma OneField(t: Tables, h: uint64)
    requires h in t.fields
    ensures FieldSize()(t.fields[h]) <= Total(t.fields, FieldSize())
  {
    TotalWithout(t.fields, FieldSize(), h);
  }

  lemma FieldsMany(t: Tables, s: Shape)
    requires ShapeOk(t, s)
    ensures |t.fields| <= |FieldsImage(t, s)|
  {
    EnumerationLength(s.order, t.fields.Keys);
    assert |t.fields| == |t.fields.Keys|;
    PiecesMany(s.order, t, s, |s.order|);
  }

  lemma {:induction false} PiecesMany(order: seq<uint64>, t: Tables, s: Shape, n: nat)
    requires ShapeOk(t, s) && order == s.order && n <= |order|
    ensures n <= |Collect(n, Images.FieldAt(t.fields, s.order, s.pads))|
  {
    if n > 0 {
      PiecesMany(order, t, s, n - 1);
      FieldImageLength(order[n - 1], t.fields[order[n - 1]], s.pads[n - 1]);
    }
  }

  /** What is in a field of tables that take fewer than 2^64 bytes fits 64 bits. */
  lemma FieldInFile(t: Tables, h: uint64, ratio: Ratio)
    requires WellFormed(t, ratio) && Spread(t) && h in t.fields && Fits(TablesSize(t))
    ensures FieldFits(t.fields[h])
  {
    var f := t.fields[h];
    assert FieldOk(t, f, ratio);
    OneField(t, h);
    SumBounds(f.documentLengths, |f.documentLengths|);
    CountBelow(f.documentLengths, |t.documentsIds|);
    ListsMany(t.postingLists, |t.postingLists|);
    forall i | 0 <= i < |f.tokens|
      ensures TokenFits(f.tokens[i])
    {
      assert TokenOk(t, f.tokens[i]);
    }
  }

  lemma {:induction false} ListsMany(ls: seq<bytes>, n: nat)
    requires n <= |ls|
    ensures n + |Join(ls, n)| <= ListsSize(ls, n)
  {
    if n > 0 {
      ListsMany(ls, n - 1);
    }
  }

  /** An index whose file is no longer than a file can be has no counter that does not fit. */
  lemma FitsInFile(t: Tables, s: Shape, ratio: Ratio)
    requires WellFormed(t, ratio) && Spread(t) && ShapeOk(t, s) && Fits(|Image(t, s)|)
    ensures TablesFit(t)
  {
    ImageSize(t, s);
    FieldsImageSize(t, s);
    FieldsMany(t, s);
    ListsMany(t.postingLists, |t.postingLists|);
    forall h | h in t.fields
      ensures FieldFits(t.fields[h])
    {
      FieldInFile(t, h, ratio);
    }
  }
}
