/**
 Posting lists at the end of a file, in one pass: space for the header table is reserved, headers are written into
 it in batches, and the lists are appended behind it. Saving and merging both end a file this way.
 */
module Regions {
  import opened Bytes
  import opened Codec
  import opened Headers
  import opened Records
  import opened ListTables
  import opened Files

  ghost function ListsImage(ls: seq<bytes>): bytes {
    Encode(PutHeader, HeadersOf(ls)) + Join(ls, |ls|)
  }

  function MaxPostingListHeadersBatch(n: nat): nat {
    if n < 5_000_000 then n else 5_000_000
  }

  /** After `base`, the first `f` bytes of the header table, room for the others, and the lists appended so far. */
  ghost function Tiles(base: bytes, table: bytes, f: nat, data: bytes): bytes
    requires f <= |table|
  {
    base + (table[..f] + (Zeros(|table| - f) + data))
  }

  lemma OverwritePrefix(d: bytes, p: bytes, at: nat, b: bytes)
    requires at + |b| <= |d|
    ensures Overwrite(d, at, b) + p == Overwrite(d + p, at, b) && |Overwrite(d, at, b)| == |d|
  {
  }

  /** A batch lands exactly behind the headers that are there. */
  lemma BatchLands(base: bytes, table: bytes, f: nat, upto: nat, data: bytes)
    requires f <= upto <= |table|
    ensures Overwrite(Tiles(base, table, f, data), |base| + f, table[f..upto]) == Tiles(base, table, upto, data)
  {
  }

  lemma NothingTiled(base: bytes, table: bytes)
    ensures base + Zeros(|table|) == Tiles(base, table, 0, [])
  {
  }

  lemma AllTiled(base: bytes, table: bytes, data: bytes)
    ensures Tiles(base, table, |table|, data) == base + (table + data)
  {
  }

  lemma DataTiled(base: bytes, table: bytes, f: nat, data: bytes, more: bytes)
    requires f <= |table|
    ensures Tiles(base, table, f, data) + more == Tiles(base, table, f, data + more)
  {
  }

  /** Where the two cursors stand: the headers that wait fill the table from `f` to `c`. */
  ghost predicate Cursors(headers: seq<PostingListHeader>, at: nat, base: bytes, table: bytes, f: nat, c: nat) {
    f <= c <= |table| && Encode(PutHeader, headers) == table[f..c] && at == |base| + f
  }

  ghost predicate Room(w: Writer, base: bytes, table: bytes)
    reads w, w.file
  {
    w.Appending() && |base| + |table| <= |w.file.data|
  }

  lemma ChunkLands(d: bytes, p: bytes, base: bytes, table: bytes, f: nat, upto: nat, data: bytes)
    requires f <= upto <= |table| && |base| + |table| <= |d| && d + p == Tiles(base, table, f, data)
    ensures var d' := Overwrite(d, |base| + f, table[f..upto]);
            |d'| == |d| && d' + p == Tiles(base, table, upto, data)
  {
    OverwritePrefix(d, p, |base| + f, table[f..upto]);
    BatchLands(base, table, f, upto, data);
  }

  /** The waiting headers go into the reserved space. */
  method FlushHeaders(w: Writer, headers: seq<PostingListHeader>, at: nat, ghost base: bytes, ghost table: bytes,
                      ghost f: nat, ghost c: nat, ghost data: bytes)
      returns (at': nat)
    requires Room(w, base, table) && Cursors(headers, at, base, table, f, c)
    requires w.Written() == Tiles(base, table, f, data)
    modifies w.file`data
    ensures Room(w, base, table) && w.Written() == Tiles(base, table, c, data) && at' == |base| + c
  {
    at' := FlushChunk(w, Encode(PutHeader, headers), at, base, table, f, c, data);
  }

  method FlushChunk(w: Writer, chunk: bytes, at: nat, ghost base: bytes, ghost table: bytes, ghost f: nat, ghost c: nat,
                    ghost data: bytes)
      returns (at': nat)
    requires f <= c <= |table| && chunk == table[f..c] && at == |base| + f
    requires Room(w, base, table) && w.Written() == Tiles(base, table, f, data)
    modifies w.file`data
    ensures Room(w, base, table) && w.Written() == Tiles(base, table, c, data) && at' == |base| + c
  {
    ChunkLands(w.file.data, w.pending, base, table, f, c, data);
    w.file.WriteAt(chunk, at);
    at' := at + |chunk|;
  }

  lemma SliceSnoc(waiting: bytes, more: bytes, table: bytes, f: nat, c: nat)
    requires f <= c && c + |more| <= |table| && waiting == table[f..c] && table[c..c + |more|] == more
    ensures waiting + more == table[f..c + |more|]
  {
  }

  lemma HeaderWaits(headers: seq<PostingListHeader>, header: PostingListHeader, at: nat, base: bytes, table: bytes,
                    f: nat, c: nat)
    requires Cursors(headers, at, base, table, f, c)
    requires c + PostingListHeaderSize <= |table| && table[c..c + PostingListHeaderSize] == PutHeader(header)
    ensures Cursors(headers + [header], at, base, table, f, c + PostingListHeaderSize)
  {
    EncodeSnoc(PutHeader, headers, header);
    SliceSnoc(Encode(PutHeader, headers), PutHeader(header), table, f, c);
  }

  /** One list: its header joins the batch, a full batch is flushed, and its bytes are appended. */
  method PutList(w: Writer, headers: seq<PostingListHeader>, max: nat, at: nat, offset: nat, list: bytes,
                 ghost base: bytes, ghost table: bytes, ghost f: nat, ghost c: nat, ghost data: bytes)
      returns (headers': seq<PostingListHeader>, at': nat, offset': nat, ghost f': nat)
    requires Room(w, base, table) && Cursors(headers, at, base, table, f, c)
    requires w.Written() == Tiles(base, table, f, data)
    requires c + PostingListHeaderSize <= |table|
    requires table[c..c + PostingListHeaderSize] == PutHeader(PostingListHeader(offset, |list|))
    modifies w, w.file
    ensures Room(w, base, table) && Cursors(headers', at', base, table, f', c + PostingListHeaderSize)
    ensures w.Written() == Tiles(base, table, f', data + list) && offset' == offset + |list|
  {
    HeaderWaits(headers, PostingListHeader(offset, |list|), at, base, table, f, c);
    headers' := headers + [PostingListHeader(offset, |list|)];
    offset' := offset + |list|;
    at', f' := at, f;
    if |headers'| >= max {
      f' := c + PostingListHeaderSize;
      at' := FlushHeaders(w, headers', at, base, table, f, f', data);
      headers' := [];
    }
    DataTiled(base, table, f', data, list);
    w.Write(list);
  }

  /** What the loop over the lists keeps: after `i` of them both cursors stand at list i. */
  ghost predicate Tiling(w: Writer, headers: seq<PostingListHeader>, at: nat, offset: nat, base: bytes, ls: seq<bytes>,
                         f: nat, i: nat)
    reads w, w.file
  {
    var table := Encode(PutHeader, HeadersOf(ls));
    && |table| == |ls| * PostingListHeaderSize && Room(w, base, table)
    && Cursors(headers, at, base, table, f, i * PostingListHeaderSize)
    && w.Written() == Tiles(base, table, f, Join(ls, i)) && offset == |Join(ls, i)|
  }

  /** Record i of the header table. */
  lemma TableAt(ls: seq<bytes>, i: nat)
    requires i < |ls|
    ensures var table := Encode(PutHeader, HeadersOf(ls));
            && i * PostingListHeaderSize + PostingListHeaderSize <= |table|
            && table[i * PostingListHeaderSize..i * PostingListHeaderSize + PostingListHeaderSize]
               == PutHeader(PostingListHeader(|Join(ls, i)|, |ls[i]|))
  {
    EncodeAt(PutHeader, PostingListHeaderSize, HeadersOf(ls), i, [], i * PostingListHeaderSize);
    assert Encode(PutHeader, HeadersOf(ls)) + [] == Encode(PutHeader, HeadersOf(ls));
  }

  method PutNext(w: Writer, headers: seq<PostingListHeader>, max: nat, at: nat, offset: nat, list: bytes,
                 ghost base: bytes, ghost ls: seq<bytes>, ghost f: nat, ghost i: nat)
      returns (headers': seq<PostingListHeader>, at': nat, offset': nat, ghost f': nat)
    requires Tiling(w, headers, at, offset, base, ls, f, i) && i < |ls| && list == ls[i]
    modifies w, w.file
    ensures Tiling(w, headers', at', offset', base, ls, f', i + 1)
  {
    TableAt(ls, i);
    ghost var table := Encode(PutHeader, HeadersOf(ls));
    headers', at', offset',
        f' := PutList(w, headers, max, at, offset, list, base, table, f, i * PostingListHeaderSize, Join(ls, i));
  }

  /** Reserving the table: the appended data will start right behind it. */
  method Reserve(w: Writer, n: nat, ghost ls: seq<bytes>) returns (at: nat)
    requires w.pending == [] && n == |ls|
    modifies w.file
    ensures Tiling(w, [], at, 0, old(w.file.data), ls, 0, 0)
  {
    at := |w.file.data|;
    ghost var base, table := w.file.data, Encode(PutHeader, HeadersOf(ls));
    EncodeLength(PutHeader, PostingListHeaderSize, HeadersOf(ls));
    NothingTiled(base, table);
    w.file.Truncate(at + n * PostingListHeaderSize);
    w.file.Seek(|w.file.data|);
  }

  /** The last batch, then what is still buffered. */
  method Close(w: Writer, headers: seq<PostingListHeader>, at: nat, ghost base: bytes, ghost table: bytes, ghost f: nat,
               ghost data: bytes)
    requires Room(w, base, table) && Cursors(headers, at, base, table, f, |table|)
    requires w.Written() == Tiles(base, table, f, data)
    modifies w, w.file
    ensures w.file.data == base + (table + data)
  {
    if |headers| > 0 {
      var _ := FlushHeaders(w, headers, at, base, table, f, |table|, data);
    }
    AllTiled(base, table, data);
    w.Flush();
  }

  method Finish(w: Writer, headers: seq<PostingListHeader>, at: nat, offset: nat, ghost base: bytes,
                ghost ls: seq<bytes>, ghost f: nat)
    requires Tiling(w, headers, at, offset, base, ls, f, |ls|)
    modifies w, w.file
    ensures w.file.data == base + ListsImage(ls)
  {
    Close(w, headers, at, base, Encode(PutHeader, HeadersOf(ls)), f, Join(ls, |ls|));
  }

  method WriteMapped(headers: bytes, reference: bytes, w: Writer)
    requires w.pending == []
    modifies w, w.file
    ensures w.file.data == old(w.file.data) + (headers + reference)
  {
    w.file.Seek(|w.file.data|);
    w.Write(headers);
    w.Write(reference);
    w.Flush();
  }

  method WriteEntries(entries: seq<bytes>, w: Writer)
    requires w.pending == []
    modifies w, w.file
    ensures w.file.data == old(w.file.data) + ListsImage(entries)
  {
    ghost var base := w.file.data;
    var at := Reserve(w, |entries|, entries);
    var headers, offset := [], 0;
    ghost var f := 0;
    for i := 0 to |entries|
      invariant Tiling(w, headers, at, offset, base, entries, f, i)
    {
      headers, at, offset,
          f := PutNext(w, headers, MaxPostingListHeadersBatch(|entries|), at, offset, entries[i], base, entries, f, i);
    }
    Finish(w, headers, at, offset, base, entries, f);
  }

  /** `PostingLists.WriteToFile`: whichever way the lists are held, the file gains their table and their bytes. */
  method WriteToFile(p: PostingLists, w: Writer, ghost ls: seq<bytes>)
    requires Holds(p, ls) && w.pending == []
    modifies w, w.file
    ensures w.file.data == old(w.file.data) + ListsImage(ls)
  {
    if |p.headers| > 0 {
      WriteMapped(Encode(PutHeader, p.headers), p.reference, w);
    } else if |p.entries| > 0 {
      WriteEntries(p.entries, w);
    }
  }
}
