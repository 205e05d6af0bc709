/** writer.go, one worker: segments written from documents, and two segments merged into one. */
module Segments {
  import opened Bytes
  import opened Headers
  import opened Options
  import opened Tables
  import opened Documents
  import opened Build
  import opened Format
  import opened ListTables
  import opened Images
  import opened Storages
  import opened Fitting
  import opened MergeSpec
  import opened Mergers

  /** The file `data` holds the index of `docs`. */
  ghost predicate SegmentOf(data: bytes, t: Tables, s: Shape, docs: seq<Document>, ratio: Ratio) {
    TablesFit(t) && ShapeOk(t, s) && IndexOf(t, docs, ratio) && data == Image(t, s)
  }

  /** `Batch`: the segment file of some documents. */
  method Batch(docs: seq<Document>, ratio: Ratio) returns (data: bytes, ghost t: Tables, ghost s: Shape)
    requires AllDefined(docs)
    ensures IndexOf(t, docs, ratio) && AveragesBuilt(t, ratio)
    ensures ShapeOk(t, s) && data == Image(t, s) && |data| == TablesSize(t)
    ensures Fits(|data|) ==> SegmentOf(data, t, s, docs, ratio)
  {
    var storage := new Storage();
    t := storage.BuildFrom(docs, ratio);
    var file;
    file, s := storage.SaveTo(t);
    ImageSize(t, s);
    data := file.data;
    if Fits(|data|) {
      FitsInFile(t, s, ratio);
    }
  }

  /** A file without a body is that of an index with nothing in it. */
  lemma NothingSaved(t: Tables, s: Shape)
    requires ShapeOk(t, s) && BodyImage(t, s) == []
    ensures t == Tables([], [], map[], [])
  {
    TableSizes(t);
    FieldsImageSize(t, s);
    FieldsCount(t);
  }

  /** The file holds the tables, or does not load. */
  ghost predicate Loadable(data: bytes, t: Tables, s: Shape) {
    (TablesFit(t) && ShapeOk(t, s) && data == Image(t, s)) || Parse(data).Failed?
  }

  /** A new storage that loads a segment represents its index. */
  method LoadSegment(data: bytes, ghost t: Tables, ghost s: Shape) returns (storage: Storage, ok: bool)
    requires Loadable(data, t, s)
    ensures fresh(storage) && ok == !Parse(data).Failed? && (ok ==> storage.Represents(t))
  {
    storage := new Storage();
    ok := storage.Load(data);
    if ok {
      LoadsBack(t, s);
      if BodyImage(t, s) == [] {
        NothingSaved(t, s);
      } else {
        LoadOver(t, [], [], PostingLists([], [], []));
      }
    }
  }

  /** Nothing of a storage's table is left behind when it loads one. */
  ghost predicate Covers<T>(loaded: seq<T>, kept: seq<T>) {
    loaded != [] || kept == []
  }

  ghost predicate CoversLists(loaded: seq<bytes>, kept: PostingLists) {
    |kept.entries| <= |loaded| && (loaded != [] || kept.headers == [])
  }

  /**
   Loading a segment over whatever a storage holds: the storage then represents the segment if and only if every table
   has something in the file or nothing was there; a file that is a bare header changes nothing.
   */
  method LoadUsed(storage: Storage, data: bytes, ghost t: Tables, ghost s: Shape)
    requires TablesFit(t) && ShapeOk(t, s) && data == Image(t, s)
    modifies storage
    ensures BodyImage(t, s) != [] ==>
              (storage.Represents(t) <==> Covers(t.documentsIds, old(storage.documentsIds))
                                          && Covers(t.tokenFrequencies, old(storage.tokenFrequencies))
                                          && CoversLists(t.postingLists, old(storage.postingLists)))
    ensures BodyImage(t, s) == [] ==> forall u :: storage.Represents(u) <==> old(storage.Represents(u))
  {
    var ok := storage.Load(data);
    LoadsBack(t, s);
    LoadOver(t, old(storage.documentsIds), old(storage.tokenFrequencies), old(storage.postingLists));
  }

  /**
   A run that leaves headers in place: load a segment with posting lists, then a file that is a bare header, then build.
   What is built is no index of its documents.
   */
  method BareHeaderThenBuild(good: bytes, bare: bytes, docs: seq<Document>, ratio: Ratio, ghost t: Tables,
                             ghost s: Shape)
      returns (storage: Storage)
    requires TablesFit(t) && ShapeOk(t, s) && good == Image(t, s) && t.postingLists != []
    requires Parse(bare).HeaderOnly? && AllDefined(docs)
    ensures fresh(storage) && storage.initialized
    ensures forall u :: storage.Represents(u) && IndexOf(u, docs, ratio) ==> storage.size != TablesSize(u)
    ensures SomeToken(docs) ==> forall u :: storage.Represents(u) ==> !IndexOf(u, docs, ratio)
  {
    storage := new Storage();
    var ok := storage.Load(good);
    BodyOfLists(t, s);
    LoadsBack(t, s);
    ok := storage.Load(bare);
    ghost var kept := storage.postingLists;
    ghost var built := storage.BuildFrom(docs, ratio);
    if SomeToken(docs) {
      forall u | storage.Represents(u)
        ensures !IndexOf(u, docs, ratio)
      {
        TokenAstray(built, docs, ratio, kept, u);
      }
    }
  }

  lemma BodyOfLists(t: Tables, s: Shape)
    requires ShapeOk(t, s) && t.postingLists != []
    ensures BodyImage(t, s) != []
  {
    if BodyImage(t, s) == [] {
      NothingSaved(t, s);
    }
  }

  lemma ListsSettled(x: seq<bytes>, y: seq<bytes>)
    requires ListsAssigned(x) == ListsAssigned(y)
    ensures x == y
  {
    if x != [] && y != [] {
      assert |HeadersOf(x)| == |x| && |HeadersOf(y)| == |y|;
      var p := PostingLists(HeadersOf(x), Join(x, |x|), []);
      forall i: nat | i < |x|
        ensures x[i] == y[i]
      {
        HoldsGet(p, x, i);
        HoldsGet(p, y, i);
      }
    }
  }

  lemma ContentsSettled(t: Tables, u: Tables)
    requires ContentsOf(t) == ContentsOf(u)
    ensures t == u
  {
    ListsSettled(t.postingLists, u.postingLists);
  }

  /** A file holds one index only. */
  lemma FileSettles(t: Tables, s: Shape, u: Tables, r: Shape)
    requires TablesFit(t) && ShapeOk(t, s) && TablesFit(u) && ShapeOk(u, r) && Image(t, s) == Image(u, r)
    ensures t == u
  {
    LoadsBack(t, s);
    LoadsBack(u, r);
    if BodyImage(t, s) == [] {
      NothingSaved(t, s);
      NothingSaved(u, r);
    } else {
      ContentsSettled(t, u);
    }
  }

  /** The file holds an index of the documents. */
  ghost predicate Segment(data: bytes, docs: seq<Document>, ratio: Ratio) {
    exists t, s :: SegmentOf(data, t, s, docs, ratio)
  }

  /** What `z` holds once `x` and `y` are merged into it: all the documents they are indexes of, in a row. */
  ghost predicate MergesTo(x: bytes, y: bytes, z: bytes, ratio: Ratio) {
    forall xs, ys {:trigger Segment(x, xs, ratio), Segment(y, ys, ratio)}
      | Segment(x, xs, ratio) && Segment(y, ys, ratio) && |xs| + |ys| < MaxDocuments ::
      Fits(|z|) ==> Segment(z, xs + ys, ratio)
  }

  lemma MergedSegment(x: bytes, y: bytes, z: bytes, ratio: Ratio, ta: Tables, sa: Shape, tb: Tables, sb: Shape,
                      m: Tables, s: Shape, xs: seq<Document>, ys: seq<Document>)
    requires TablesFit(ta) && ShapeOk(ta, sa) && x == Image(ta, sa) && TablesFit(tb) && ShapeOk(tb, sb)
    requires y == Image(tb, sb) && MergeOf(m, ta, tb, ratio) && Spread(m) && ShapeOk(m, s) && z == Image(m, s)
    requires Segment(x, xs, ratio) && Segment(y, ys, ratio) && Fits(|z|)
    ensures Segment(z, xs + ys, ratio)
  {
    var t, r :| SegmentOf(x, t, r, xs, ratio);
    FileSettles(t, r, ta, sa);
    var u, q :| SegmentOf(y, u, q, ys, ratio);
    FileSettles(u, q, tb, sb);
    MergeOfIndexes(m, ta, tb, xs, ys, ratio);
    FitsInFile(m, s, ratio);
    assert SegmentOf(z, m, s, xs + ys, ratio);
  }

  lemma PairMerges(x: bytes, y: bytes, z: bytes, ratio: Ratio, ta: Tables, sa: Shape, tb: Tables, sb: Shape, m: Tables,
                   s: Shape)
    requires TablesFit(ta) && ShapeOk(ta, sa) && x == Image(ta, sa) && TablesFit(tb) && ShapeOk(tb, sb)
    requires y == Image(tb, sb) && MergeOf(m, ta, tb, ratio) && Spread(m) && ShapeOk(m, s) && z == Image(m, s)
    ensures MergesTo(x, y, z, ratio)
  {
    forall xs, ys | Segment(x, xs, ratio) && Segment(y, ys, ratio)
      ensures Fits(|z|) ==> Segment(z, xs + ys, ratio)
    {
      if Fits(|z|) {
        MergedSegment(x, y, z, ratio, ta, sa, tb, sb, m, s, xs, ys);
      }
    }
  }

  /**
   One pair: load both segments and merge them; a segment that does not load fails the pair, and nothing is produced.
   */
  method MergePair(dataA: bytes, dataB: bytes, ratio: Ratio, ghost ta: Tables, ghost sa: Shape, ghost xs: seq<Document>,
                   ghost tb: Tables, ghost sb: Shape, ghost ys: seq<Document>)
      returns (merged: Option<bytes>, ghost m: Tables, ghost s: Shape)
    requires SegmentOf(dataA, ta, sa, xs, ratio) || Parse(dataA).Failed?
    requires SegmentOf(dataB, tb, sb, ys, ratio) || Parse(dataB).Failed?
    requires |xs| + |ys| < MaxDocuments
    ensures merged.None? <==> Parse(dataA).Failed? || Parse(dataB).Failed?
    ensures merged.Some? ==> IndexOf(m, xs + ys, ratio) && ShapeOk(m, s) && merged.value == Image(m, s)
    ensures merged.Some? && Fits(|merged.value|) ==> SegmentOf(merged.value, m, s, xs + ys, ratio)
    ensures merged.Some? ==> MergesTo(dataA, dataB, merged.value, ratio)
  {
    var a, b, ok := LoadPair(dataA, dataB, ta, sa, tb, sb);
    if ok {
      var image;
      image, m, s := MergeLoaded(a, b, ratio, ta, xs, tb, ys);
      merged := Some(image);
      PairMerges(dataA, dataB, image, ratio, ta, sa, tb, sb, m, s);
    } else {
      merged, m, s := None, ta, sa;
    }
  }

  method LoadPair(dataA: bytes, dataB: bytes, ghost ta: Tables, ghost sa: Shape, ghost tb: Tables, ghost sb: Shape)
      returns (a: Storage, b: Storage, ok: bool)
    requires Loadable(dataA, ta, sa) && Loadable(dataB, tb, sb)
    ensures ok <==> !Parse(dataA).Failed? && !Parse(dataB).Failed?
    ensures ok ==> a.Represents(ta) && b.Represents(tb)
  {
    a, ok := LoadSegment(dataA, ta, sa);
    b := a;
    if ok {
      b, ok := LoadSegment(dataB, tb, sb);
    }
  }

  method MergeLoaded(a: Storage, b: Storage, ratio: Ratio, ghost ta: Tables, ghost xs: seq<Document>, ghost tb: Tables,
                     ghost ys: seq<Document>)
      returns (image: bytes, ghost m: Tables, ghost s: Shape)
    requires a.Represents(ta) && b.Represents(tb) && IndexOf(ta, xs, ratio) && IndexOf(tb, ys, ratio)
    requires |xs| + |ys| < MaxDocuments
    ensures IndexOf(m, xs + ys, ratio) && ShapeOk(m, s) && image == Image(m, s)
    ensures MergeOf(m, ta, tb, ratio) && Spread(m)
    ensures Fits(|image|) ==> SegmentOf(image, m, s, xs + ys, ratio)
  {
    assert |Ids(xs)| == |xs| && |Ids(ys)| == |ys|;
    var file, context;
    file, context, m, s := Merge(a, b, ratio, ta, tb);
    MergeOfIndexes(m, ta, tb, xs, ys, ratio);
    image := file.data;
    if Fits(|image|) {
      FitsInFile(m, s, ratio);
    }
  }
}
