/** storage/storage.go, `Storage`: building, saving and loading one index. */
module Storages {
  import opened Bytes
  import opened Codec
  import opened Collecting
  import opened Headers
  import opened Options
  import opened Parsing
  import opened Records
  import opened Tables
  import opened Blocks
  import opened Documents
  import opened Totals
  import opened Build
  import opened Format
  import opened ListTables
  import opened Files
  import opened Regions
  import opened Images
  import opened Saving
  import Layout

  lemma {:induction false} ListsImageSize(ls: seq<bytes>, n: nat)
    requires n <= |ls|
    ensures n * PostingListHeaderSize + |Join(ls, n)| == ListsSize(ls, n)
  {
    if n > 0 {
      ListsImageSize(ls, n - 1);
    }
  }

  /** Pieces whose lengths are the sizes of their entries are as long as the sizes add up to. */
  lemma {:induction false} PiecesLength<K, V>(image: (K, V, bytes) -> bytes, size: V -> nat, entries: map<K, V>,
                                              order: seq<K>, pads: seq<bytes>, n: nat)
    requires n <= |order| && n <= |pads| && forall i | 0 <= i < n :: order[i] in entries
    requires forall i | 0 <= i < n :: |image(order[i], entries[order[i]], pads[i])| == size(entries[order[i]])
    ensures |Collect(n, PieceOf(image, entries, order, pads))| == SumAlong(order, n, entries, size)
  {
    if n > 0 {
      PiecesLength(image, size, entries, order, pads, n - 1);
    }
  }

  lemma FieldsImageSize(t: Tables, s: Shape)
    requires ShapeOk(t, s)
    ensures |FieldsImage(t, s)| == Total(t.fields, FieldSize())
  {
    forall i | 0 <= i < |s.order|
      ensures |FieldImage(s.order[i], t.fields[s.order[i]], s.pads[i])| == FieldSize()(t.fields[s.order[i]])
    {
      FieldImageLength(s.order[i], t.fields[s.order[i]], s.pads[i]);
    }
    PiecesLength(FieldImage, FieldSize(), t.fields, s.order, s.pads, |s.order|);
    SumAlongTotal(s.order, t.fields, FieldSize());
  }

  lemma TableSizes(t: Tables)
    ensures |Encode(PutRawValue, t.documentsIds)| == DocumentIdSize * |t.documentsIds|
    ensures |Encode(PutFrequency, t.tokenFrequencies)| == TokenFrequencyEntrySize * |t.tokenFrequencies|
    ensures |ListsImage(t.postingLists)| == ListsSize(t.postingLists, |t.postingLists|)
  {
    RawValuesBack();
    EncodeLength(PutRawValue, DocumentIdSize, t.documentsIds);
    EncodeLength(PutFrequency, TokenFrequencyEntrySize, t.tokenFrequencies);
    EncodeLength(PutHeader, PostingListHeaderSize, HeadersOf(t.postingLists));
    ListsImageSize(t.postingLists, |t.postingLists|);
  }

  lemma HeaderSizes(h: Header, p6: bytes, p4: bytes)
    requires |p6| == 6 && |p4| == 4
    ensures |HeaderBytes(h, p6, p4)| == HeaderSize
  {
    HeaderFrontRead(h, p6, p4);
    HeaderBackRead(h);
  }

  /** The file is exactly as long as `BuildFrom` computed, whatever the order of the fields and the padding. */
  lemma ImageSize(t: Tables, s: Shape)
    requires |t.documentsIds| < MaxDocuments && ShapeOk(t, s)
    ensures |Image(t, s)| == TablesSize(t)
  {
    HeaderSizes(HeaderOf(t, s.version), s.p6, s.p4);
    TableSizes(t);
    FieldsImageSize(t, s);
  }

  function OrKeep<T>(x: Option<T>, kept: T): T {
    if x.Some? then x.value else kept
  }

  function WithMapped(lists: Option<MappedLists>, kept: PostingLists): PostingLists {
    if lists.Some? then PostingLists(lists.value.headers, lists.value.reference, kept.entries) else kept
  }

  /** What was saved loads as what it was, and as many bytes as were computed when it was built. */
  lemma LoadsBack(t: Tables, s: Shape)
    requires TablesFit(t) && ShapeOk(t, s)
    ensures Parse(Image(t, s)) == if BodyImage(t, s) == [] then HeaderOnly(s.version)
            else Loaded(s.version, ContentsOf(t), TablesSize(t))
  {
    LoadOfSave(t, s, []);
    assert Image(t, s) + [] == Image(t, s) && BodyImage(t, s) + [] == BodyImage(t, s);
    ImageSize(t, s);
  }

  /**
   Loading over a storage that holds something: each table comes out right exactly when it is assigned or nothing was
   there.
   */
  lemma LoadOver(t: Tables, ids: seq<RawValue>, freqs: seq<TokenFrequencyEntry>, lists: PostingLists)
    ensures var c := ContentsOf(t);
            && c.fields == t.fields
            && (OrKeep(c.documentsIds, ids) == t.documentsIds <==> t.documentsIds != [] || ids == [])
            && (OrKeep(c.tokenFrequencies, freqs) == t.tokenFrequencies <==> t.tokenFrequencies != [] || freqs == [])
            && (Holds(WithMapped(c.postingLists, lists), t.postingLists)
                <==> |lists.entries| <= |t.postingLists| && (t.postingLists != [] || lists.headers == []))
  {
  }

  lemma HashesEmpty(bs: seq<Block>)
    ensures bs != [] ==> Hashes(bs) != {}
  {
    if bs != [] {
      assert bs[0].hash in Hashes(bs);
    }
  }

  lemma FieldsCount(t: Tables)
    ensures t.fields != map[] ==> Total(t.fields, FieldSize()) > 0
    ensures t.postingLists != [] ==> ListsSize(t.postingLists, |t.postingLists|) > 0
  {
    if t.fields != map[] {
      var h :| h in t.fields;
      TotalWithout(t.fields, FieldSize(), h);
    }
  }

  /** Only the index of no documents at all has a file without a body. */
  lemma BodyEmpty(t: Tables, s: Shape, bs: seq<Block>)
    requires LaidOut(t, bs) && ShapeOk(t, s)
    ensures BodyImage(t, s) == [] <==> t.documentsIds == [] && t.fields == map[]
  {
    TableSizes(t);
    FieldsImageSize(t, s);
    HashesEmpty(bs);
    FieldsCount(t);
  }

  lemma Together<X>(a: seq<X>, b: seq<X>, c: seq<X>)
    ensures [] + a + b + c == a + (b + c)
  {
  }

  lemma AllTogether<X>(head: seq<X>, ids: seq<X>, freqs: seq<X>, fields: seq<X>, lists: seq<X>)
    ensures head + (ids + freqs) + fields + lists == head + (ids + (freqs + (fields + lists)))
  {
  }

  const NoLists := PostingLists([], [], [])

  /** Tables and posting lists, as a storage has them, are those of `t`. */
  ghost predicate Shows(ids: seq<RawValue>, freqs: seq<TokenFrequencyEntry>, fields: map<uint64, Field>,
                        lists: PostingLists, t: Tables) {
    ids == t.documentsIds && freqs == t.tokenFrequencies && fields == t.fields && Holds(lists, t.postingLists)
  }

  /** What a build of `t` shows that finds `kept` in place. */
  ghost predicate BuiltShows(t: Tables, kept: PostingLists, u: Tables) {
    Shows(t.documentsIds, t.tokenFrequencies, StampedTables(t, |kept.headers|).fields, kept.(entries := t.postingLists),
          u)
  }

  /** Some document defines some token. */
  ghost predicate SomeToken(docs: seq<Document>) {
    exists h, v :: OfDocuments(docs, h, v) != []
  }

  lemma TokenOfEntries(t: Tables, docs: seq<Document>, ratio: Ratio) returns (h: uint64, i: nat)
    requires IndexOf(t, docs, ratio) && SomeToken(docs)
    ensures h in t.fields && i < |t.fields[h].tokens|
  {
    var g, v :| OfDocuments(docs, g, v) != [];
    assert Entries(t, g, v) != [];
    h := g;
    i :| HasToken(t.fields[g].tokens, v, i);
  }

  /** A token built next to kept headers points behind all of them. */
  lemma TokenAstray(t: Tables, docs: seq<Document>, ratio: Ratio, kept: PostingLists, u: Tables)
    requires IndexOf(t, docs, ratio) && SomeToken(docs) && kept.headers != [] && BuiltShows(t, kept, u)
    ensures !WellFormed(u, ratio)
  {
    var h, i := TokenOfEntries(t, docs, ratio);
    var n := |kept.headers|;
    var token := StampedField(t.fields[h], n).tokens[i];
    assert StampedTables(t, n).fields[h] == StampedField(t.fields[h], n) && token == Stamped(t.fields[h].tokens[i], n);
    assert u.fields[h].tokens[i] == token && token.postingListIndex >= n == |u.postingLists|;
    assert WellFormed(u, ratio) ==> FieldOk(u, u.fields[h], ratio);
    assert FieldOk(u, u.fields[h], ratio) ==> TokenOk(u, token);
  }

  lemma {:induction false} NoRowsNoLists(bs: seq<Block>, n: nat)
    requires n <= |bs| && forall k | 0 <= k < n :: bs[k].rows == []
    ensures BlockLists(bs, n) == []
  {
    if n > 0 {
      NoRowsNoLists(bs, n - 1);
    }
  }

  lemma FirstToken(t: Tables, docs: seq<Document>, ratio: Ratio, h: uint64)
    requires IndexOf(t, docs, ratio) && h in t.fields && t.fields[h].tokens != []
    ensures SomeToken(docs)
  {
    EntriesOfToken(t, h, 0, ratio);
    assert Entries(t, h, t.fields[h].tokens[0].Bytes()) == OfDocuments(docs, h, t.fields[h].tokens[0].Bytes());
  }

  lemma FieldWithoutTokens(t: Tables, docs: seq<Document>, ratio: Ratio, kept: nat, h: uint64)
    requires IndexOf(t, docs, ratio) && !SomeToken(docs) && h in t.fields
    ensures t.fields[h].tokens == [] && StampedField(t.fields[h], kept) == t.fields[h]
  {
    if t.fields[h].tokens != [] {
      FirstToken(t, docs, ratio, h);
    }
  }

  lemma ListsWithoutTokens(t: Tables, bs: seq<Block>)
    requires LaidOut(t, bs) && forall h | h in t.fields :: t.fields[h].tokens == []
    ensures t.postingLists == []
  {
    forall k: nat | k < |bs|
      ensures bs[k].rows == []
    {
      assert BlockAt(t, bs, k) && |t.fields[bs[k].hash].tokens| == |bs[k].rows|;
    }
    NoRowsNoLists(bs, |bs|);
  }

  /** Without tokens there are no lists, and nothing is renumbered. */
  lemma TokensAbsent(t: Tables, bs: seq<Block>, docs: seq<Document>, ratio: Ratio, kept: nat)
    requires IndexOf(t, docs, ratio) && LaidOut(t, bs) && !SomeToken(docs)
    ensures t.postingLists == [] && StampedTables(t, kept) == t && forall h | h in t.fields :: t.fields[h].tokens == []
  {
    forall h | h in t.fields
      ensures t.fields[h].tokens == [] && StampedField(t.fields[h], kept) == t.fields[h]
    {
      FieldWithoutTokens(t, docs, ratio, kept, h);
    }
    assert StampedTables(t, kept).fields == t.fields;
    ListsWithoutTokens(t, bs);
  }

  /**
   With headers in place a build never shows an index of its documents of the size it computed; without them it does.
   */
  lemma BuiltOver(t: Tables, bs: seq<Block>, docs: seq<Document>, ratio: Ratio, kept: PostingLists)
    requires IndexOf(t, docs, ratio) && LaidOut(t, bs)
    ensures (exists u :: BuiltShows(t, kept, u) && IndexOf(u, docs, ratio) && TablesSize(t) == TablesSize(u))
            <==> kept.headers == []
  {
    if kept.headers == [] {
      NothingStamped(t);
      assert BuiltShows(t, kept, t);
    } else {
      forall u | BuiltShows(t, kept, u) && IndexOf(u, docs, ratio)
        ensures TablesSize(t) != TablesSize(u)
      {
        if SomeToken(docs) {
          TokenAstray(t, docs, ratio, kept, u);
        } else {
          TokensAbsent(t, bs, docs, ratio, |kept.headers|);
          FieldsCount(u);
        }
      }
    }
  }

  /**
   Sizes apart, headers in place spoil the index as soon as some document defines a token; without any token the build
   shows an index exactly when the headers and their region belong together.
   */
  lemma BuiltOverIndex(t: Tables, bs: seq<Block>, docs: seq<Document>, ratio: Ratio, kept: PostingLists)
    requires IndexOf(t, docs, ratio) && LaidOut(t, bs) && kept.headers != []
    ensures (exists u :: BuiltShows(t, kept, u) && IndexOf(u, docs, ratio))
            <==> !SomeToken(docs) && exists ls :: Holds(kept.(entries := []), ls)
  {
    if SomeToken(docs) {
      forall u | BuiltShows(t, kept, u)
        ensures !IndexOf(u, docs, ratio)
      {
        TokenAstray(t, docs, ratio, kept, u);
      }
    } else {
      TokensAbsent(t, bs, docs, ratio, |kept.headers|);
      forall ls | Holds(kept.(entries := []), ls)
        ensures BuiltShows(t, kept, t.(postingLists := ls)) && IndexOf(t.(postingLists := ls), docs, ratio)
      {
        OtherLists(t, docs, ratio, ls);
      }
    }
  }

  lemma FieldUnlisted(t: Tables, ls: seq<bytes>, f: Field, ratio: Ratio)
    requires FieldOk(t, f, ratio) && f.tokens == []
    ensures FieldOk(t.(postingLists := ls), f, ratio)
  {
  }

  lemma EntriesUnlisted(t: Tables, ls: seq<bytes>, h: uint64, v: bytes)
    requires h in t.fields ==> t.fields[h].tokens == []
    ensures Entries(t, h, v) == [] && Entries(t.(postingLists := ls), h, v) == []
  {
  }

  /** Lists that no token points to do not matter. */
  lemma OtherLists(t: Tables, docs: seq<Document>, ratio: Ratio, ls: seq<bytes>)
    requires IndexOf(t, docs, ratio) && forall h | h in t.fields :: t.fields[h].tokens == []
    ensures IndexOf(t.(postingLists := ls), docs, ratio)
  {
    var u := t.(postingLists := ls);
    forall h | h in u.fields
      ensures FieldOk(u, u.fields[h], ratio)
    {
      FieldUnlisted(t, ls, t.fields[h], ratio);
    }
    forall h, v
      ensures Entries(u, h, v) == Entries(t, h, v)
    {
      EntriesUnlisted(t, ls, h, v);
    }
  }

  class Storage {
    var version: uint16
    var size: int
    var documentsIds: seq<RawValue>
    var tokenFrequencies: seq<TokenFrequencyEntry>
    var fields: map<uint64, Field>
    var postingLists: PostingLists
    var initialized: bool

    /** The tables this storage holds. */
    ghost predicate Represents(t: Tables)
      reads this
    {
      Shows(documentsIds, tokenFrequencies, fields, postingLists, t)
    }

    /** The posting lists that a build finds: those of an initialized storage are reset first. */
    ghost function Kept(): PostingLists
      reads this
    {
      if initialized then NoLists else postingLists
    }

    constructor ()
      ensures !initialized && size == 0 && Represents(Tables([], [], map[], []))
      ensures postingLists == PostingLists([], [], [])
    {
      version, size, documentsIds, tokenFrequencies, fields, initialized := VersionV1, 0, [], [], map[], false;
      postingLists := NoLists;
    }

    method Reset()
      modifies this
      ensures !initialized && version == 0 && size == 0 && documentsIds == [] && tokenFrequencies == []
      ensures fields == map[]
      ensures postingLists == NoLists
    {
      version, size, documentsIds, tokenFrequencies, fields, postingLists, initialized := 0, 0, [], [], map[], NoLists,
          false;
    }

    method ColdInitialize()
      modifies this`version, this`fields, this`initialized
      ensures version == VersionV1 && fields == map[] && initialized
    {
      version, fields, initialized := VersionV1, map[], true;
    }

    /**
     `BuildFrom`: an index of the documents, and the size its file will have, exactly when the storage was initialized
     or had no headers. Otherwise it is not reset, its headers stay, and no index of the documents is what it shows.
     */
    method BuildFrom(docs: seq<Document>, ratio: Ratio) returns (ghost t: Tables)
      requires AllDefined(docs)
      modifies this
      ensures initialized && version == VersionV1
      ensures IndexOf(t, docs, ratio) && AveragesBuilt(t, ratio) && Spread(t) && size == TablesSize(t)
      ensures documentsIds == t.documentsIds && tokenFrequencies == t.tokenFrequencies
      ensures fields == StampedTables(t, |old(Kept()).headers|).fields
      ensures postingLists == old(Kept()).(entries := t.postingLists)
      ensures old(initialized) || old(postingLists).headers == [] ==> Represents(t)
      ensures (exists u :: Represents(u) && IndexOf(u, docs, ratio) && size == TablesSize(u))
              <==> old(initialized) || old(postingLists).headers == []
    {
      if initialized {
        Reset();
      }
      ColdInitialize();
      ghost var kept, bs := postingLists, [];
      var built, n;
      built, n, t, bs := BuildTables(docs, ratio, postingLists);
      documentsIds, tokenFrequencies, fields, size := built.documentsIds, built.tokenFrequencies, built.fields, n;
      postingLists := postingLists.(entries := built.postingLists);
      NothingStamped(t);
      BuiltOver(t, bs, docs, ratio, kept);
    }

    /** The tables a save writes: a storage that is not initialized loses its fields first. */
    ghost function Saved(t: Tables): Tables
      reads this
    {
      if initialized then t else t.(fields := map[])
    }

    method WriteTables(w: Writer, ghost t: Tables) returns (buffer: bytes, ghost p6: bytes, ghost p4: bytes)
      requires w.Appending() && w.Written() == [] && Represents(t) && |t.documentsIds| < MaxDocuments
      modifies w, w.file
      ensures w.Appending() && |buffer| == 8 && |p6| == 6 && |p4| == 4
      ensures w.Written() == HeaderBytes(HeaderOf(t, version), p6, p4)
                             + (Encode(PutRawValue, t.documentsIds) + Encode(PutFrequency, t.tokenFrequencies))
    {
      HoldsSizes(postingLists, t.postingLists);
      var dataSize := DataSize(postingLists);
      ghost var h := HeaderOf(t, version);
      buffer, p6, p4 :=
          WriteHeader(w, Header(version, |documentsIds|, |fields|, Len(postingLists), dataSize, |tokenFrequencies|));
      var ids, freqs := Encode(PutRawValue, documentsIds), Encode(PutFrequency, tokenFrequencies);
      w.Write(ids);
      w.Write(freqs);
      Together(HeaderBytes(h, p6, p4), ids, freqs);
    }

    /** `SaveTo`: the file is an image of the tables, with every number and every list where the format has it. */
    method SaveTo(ghost t: Tables) returns (file: File, ghost s: Shape)
      requires Represents(t) && |t.documentsIds| < MaxDocuments
      modifies this
      ensures fresh(file) && initialized && Represents(old(Saved(t)))
      ensures s.version == (if old(initialized) then old(version) else VersionV1)
      ensures ShapeOk(old(Saved(t)), s) && file.data == Image(old(Saved(t)), s)
      ensures Layout.FileOf(file.data, old(Saved(t)), s.version, s.order)
    {
      ghost var saved := Saved(t);
      if !initialized {
        ColdInitialize();
      }
      file, s := WriteFile(saved);
      Layout.ImageIsFile(saved, s);
    }

    method WriteFile(ghost t: Tables) returns (file: File, ghost s: Shape)
      requires Represents(t) && |t.documentsIds| < MaxDocuments
      ensures fresh(file) && s.version == version && ShapeOk(t, s) && file.data == Image(t, s)
    {
      file := new File();
      var w := new Writer(file);
      ghost var p6, p4, order, pads;
      var buffer;
      buffer, p6, p4 := WriteTables(w, t);
      order, pads := WriteFields(w, buffer, fields);
      w.Flush();
      s := Shape(version, order, pads, p6, p4);
      WriteToFile(postingLists, w, t.postingLists);
      AllTogether(HeaderBytes(HeaderOf(t, version), p6, p4), Encode(PutRawValue, t.documentsIds),
                  Encode(PutFrequency, t.tokenFrequencies),
                  FieldsImage(t, s), ListsImage(t.postingLists));
    }

    /**
     `Load` on the bytes of a file. Tables whose count is zero are not assigned, and a bare header assigns only the
     version.
     */
    method Load(data: bytes) returns (ok: bool)
      modifies this
      ensures var p := Parse(data);
              && ok == !p.Failed?
              && initialized == p.Loaded?
              && (p.HeaderOnly?
                  ==> version == p.version && size == old(size) && documentsIds == old(documentsIds)
                      && fields == old(fields) && tokenFrequencies == old(tokenFrequencies)
                      && postingLists == old(postingLists))
              && (p.Loaded? ==> version == p.version && size == p.size && fields == p.contents.fields
                                && documentsIds == OrKeep(p.contents.documentsIds, old(documentsIds))
                                && tokenFrequencies == OrKeep(p.contents.tokenFrequencies, old(tokenFrequencies))
                                && postingLists == WithMapped(p.contents.postingLists, old(postingLists)))
    {
      initialized := false;
      if |data| < HeaderSize {
        return false;
      }
      var header, buf := ReadHeader(data[..HeaderSize]), data[HeaderSize..];
      version := header.version;
      if |buf| == 0 {
        return true;
      }
      var rest;
      ok, rest := LoadBody(header, buf);
      if !ok {
        return;
      }
      size := |data| - |rest|;
      initialized := true;
    }

    method LoadBody(header: Header, buf: bytes) returns (ok: bool, rest: bytes)
      modifies this`documentsIds, this`tokenFrequencies, this`fields, this`postingLists
      ensures ok == ParseBody(header, buf).Some?
      ensures ok ==> var (c, r) := ParseBody(header, buf).value;
                     && rest == r && fields == c.fields
                     && documentsIds == OrKeep(c.documentsIds, old(documentsIds))
                     && tokenFrequencies == OrKeep(c.tokenFrequencies, old(tokenFrequencies))
                     && postingLists == WithMapped(c.postingLists, old(postingLists))
    {
      rest := buf;
      var idsSize := header.totalDocuments * DocumentIdSize;
      if |rest| < idsSize {
        return false, rest;
      }
      if idsSize > 0 {
        documentsIds := Decode(GetRawValue, DocumentIdSize, header.totalDocuments, rest);
        rest := rest[idsSize..];
      }
      var freqsSize := header.totalTokenFrequencies * TokenFrequencyEntrySize;
      if |rest| < freqsSize {
        return false, rest;
      }
      if freqsSize > 0 {
        tokenFrequencies := Decode(GetFrequency, TokenFrequencyEntrySize, header.totalTokenFrequencies, rest);
        rest := rest[freqsSize..];
      }
      ok, rest := LoadFieldsAndLists(header, rest);
    }

    method LoadFieldsAndLists(header: Header, buf: bytes) returns (ok: bool, rest: bytes)
      modifies this`fields, this`postingLists
      ensures ok == ParseTail(header, buf).Some?
      ensures ok ==> var (fs, lists, r) := ParseTail(header, buf).value;
                     rest == r && fields == fs && postingLists == WithMapped(lists, old(postingLists))
    {
      var entries := ReadEntries(ParseField, header.fieldCount, buf);
      if entries.None? {
        return false, buf;
      }
      fields, rest := entries.value.0, entries.value.1;
      var lists := ParseLists(header, rest);
      if lists.None? {
        return false, rest;
      }
      postingLists, rest := WithMapped(lists.value.0, postingLists), lists.value.1;
      ok := true;
    }
  }
}
