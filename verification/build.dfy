/** storage/storage.go, `BuildFrom`: from documents to the tables of an index. */
module Build {
  import opened Bytes
  import opened Headers
  import opened Bitmaps
  import opened Records
  import opened Tables
  import opened Blocks
  import opened Documents
  import opened Accumulate
  import opened Totals
  import ListTables

  const HeaderSize := 56

  /** The index of `docs`: the tables are well formed and say exactly what the documents define. */
  ghost predicate IndexOf(t: Tables, docs: seq<Document>, ratio: Ratio) {
    && WellFormed(t, ratio)
    && t.documentsIds == Ids(docs)
    && (forall h :: h in t.fields <==> Named(docs, |docs|, h))
    && (forall h, v :: Entries(t, h, v) == OfDocuments(docs, h, v))
    && (forall h | h in t.fields :: t.fields[h].documentLengths == LengthsOfDocuments(docs, h))
  }

  ghost function FieldSize(): Field -> nat {
    (f: Field) => FieldHeaderSize + DocumentLengthEntrySize * |f.documentLengths| + TokenSize * |f.tokens|
  }

  function ListsSize(ls: seq<bytes>, n: nat): nat
    requires n <= |ls|
  {
    if n == 0 then 0 else ListsSize(ls, n - 1) + PostingListHeaderSize + |ls[n - 1]|
  }

  /** Bytes the tables take in a file. */
  ghost function TablesSize(t: Tables): nat {
    HeaderSize + DocumentIdSize * |t.documentsIds| + TokenFrequencyEntrySize * |t.tokenFrequencies|
    + Total(t.fields, FieldSize()) + ListsSize(t.postingLists, |t.postingLists|)
  }

  ghost function RowOf(pd: PostingData): Row {
    Row(RawValueFrom(pd.value), pd.freqs, Marshal(DocumentsOf(pd.freqs)))
  }

  ghost function RowsOf(ts: seq<PostingData>): seq<Row> {
    seq(|ts|, i requires 0 <= i < |ts| => RowOf(ts[i]))
  }

  ghost function BlockOf(h: uint64, a: Accumulator, ratio: Ratio): Block {
    Block(h, if a.documentsCount > 0 then ratio.built(a.totalLength, a.documentsCount) else 0,
          a.totalLength, a.totalFreqs, a.lengths, RowsOf(a.tokens))
  }

  lemma {:induction false} CountOfEntries(rows: seq<Row>, ts: seq<PostingData>, n: nat)
    requires n <= |ts| && n <= |rows| && forall i | 0 <= i < n :: rows[i].entries == ts[i].freqs
    ensures Count(rows, n) == SumFreqs(ts, n)
  {
    if n > 0 {
      CountOfEntries(rows, ts, n - 1);
    }
  }

  lemma CountOfRows(ts: seq<PostingData>)
    ensures Count(RowsOf(ts), |ts|) == SumFreqs(ts, |ts|)
  {
    CountOfEntries(RowsOf(ts), ts, |ts|);
  }

  lemma {:induction false} ListsSizeSame(xs: seq<bytes>, ys: seq<bytes>, n: nat)
    requires n <= |xs| && n <= |ys| && forall i | 0 <= i < n :: xs[i] == ys[i]
    ensures ListsSize(xs, n) == ListsSize(ys, n)
  {
    if n > 0 {
      ListsSizeSame(xs, ys, n - 1);
    }
  }

  lemma ListsSizeSnoc(ls: seq<bytes>, l: bytes)
    ensures ListsSize(ls + [l], |ls| + 1) == ListsSize(ls, |ls|) + PostingListHeaderSize + |l|
  {
    ListsSizeSame(ls + [l], ls, |ls|);
  }

  /** The reused bitmap of one token. */
  method BitmapOf(freqs: seq<TokenFrequencyEntry>) returns (b: Bitmap)
    ensures b == DocumentsOf(freqs)
  {
    b := {};
    for i := 0 to |freqs|
      invariant b == DocumentsOf(freqs[..i])
    {
      assert freqs[..i + 1] == freqs[..i] + [freqs[i]];
      DocumentsSnoc(freqs[..i], freqs[i]);
      b := b + {freqs[i].documentIndex};
    }
    assert freqs[..|freqs|] == freqs;
  }

  ghost predicate AllAscending(ts: seq<PostingData>) {
    forall i {:trigger FreqsAscending(ts[i].freqs)} | 0 <= i < |ts| :: FreqsAscending(ts[i].freqs)
  }

  /**
   The index a token gets when `kept` headers are still there: `PostingLists.Len` counts those as long as they are more.
   */
  function Stamped(token: Token, kept: nat): Token {
    token.(postingListIndex := if token.postingListIndex < kept then kept else token.postingListIndex)
  }

  function AllStamped(tokens: seq<Token>, kept: nat): seq<Token> {
    seq(|tokens|, i requires 0 <= i < |tokens| => Stamped(tokens[i], kept))
  }

  function StampedField(f: Field, kept: nat): Field {
    f.(tokens := AllStamped(f.tokens, kept))
  }

  /** Tables as they come out of a build that finds `kept` headers in place. */
  function StampedTables(t: Tables, kept: nat): Tables {
    t.(fields := map h | h in t.fields :: StampedField(t.fields[h], kept))
  }

  /** A build that finds none numbers its lists from zero. */
  lemma NothingStamped(t: Tables)
    ensures StampedTables(t, 0) == t
  {
    forall h | h in t.fields
      ensures StampedField(t.fields[h], 0) == t.fields[h]
    {
      assert AllStamped(t.fields[h].tokens, 0) == t.fields[h].tokens;
    }
    assert StampedTables(t, 0).fields == t.fields;
  }

  /** One token: its bitmap, serialized, and its record. */
  method EmitToken(pd: PostingData, pl: nat, fq: nat) returns (token: Token, data: bytes)
    requires FreqsAscending(pd.freqs)
    ensures data == RowOf(pd).list && token == Token(|pd.freqs|, pl, fq, RowOf(pd).value)
  {
    var b := BitmapOf(pd.freqs);
    DocumentsCounted(pd.freqs);
    data := Marshal(b);
    token := Token(|b|, pl, fq, RawValueFrom(pd.value));
  }

  /** The first `i` rows are out: their records, lists and entries, and the bytes of their lists counted. */
  ghost predicate TokensOut(rows: seq<Row>, i: nat, tokens: seq<Token>, lists: seq<bytes>,
                            freqs: seq<TokenFrequencyEntry>, lists': seq<bytes>, freqs': seq<TokenFrequencyEntry>,
                            kept: nat) {
    && i <= |rows|
    && tokens == AllStamped(Number(rows, |lists|, |freqs|), kept)[..i]
    && lists' == lists + Lists(rows)[..i]
    && freqs' == freqs + Flatten(rows, i)
  }

  lemma TokenOut(rows: seq<Row>, i: nat, tokens: seq<Token>, lists: seq<bytes>, freqs: seq<TokenFrequencyEntry>,
                 lists': seq<bytes>, freqs': seq<TokenFrequencyEntry>, kept: nat)
    requires TokensOut(rows, i, tokens, lists, freqs, lists', freqs', kept) && i < |rows|
    ensures TokensOut(rows, i + 1,
                      tokens + [Stamped(Token(|rows[i].entries|, |lists'|, |freqs'|, rows[i].value), kept)], lists,
                          freqs,
                      lists' + [rows[i].list], freqs' + rows[i].entries, kept)
  {
  }

  lemma Whole<X>(s: seq<X>, n: nat)
    requires n == |s|
    ensures s[..n] == s
  {
  }

  lemma AllOut(rows: seq<Row>, tokens: seq<Token>, lists: seq<bytes>, freqs: seq<TokenFrequencyEntry>,
               lists': seq<bytes>, freqs': seq<TokenFrequencyEntry>, kept: nat)
    requires TokensOut(rows, |rows|, tokens, lists, freqs, lists', freqs', kept)
    ensures tokens == AllStamped(Number(rows, |lists|, |freqs|), kept)
    ensures lists' == lists + Lists(rows) && freqs' == freqs + Flatten(rows, |rows|)
  {
    Whole(AllStamped(Number(rows, |lists|, |freqs|), kept), |rows|);
    Whole(Lists(rows), |rows|);
  }

  /** What the loop over the tokens keeps: they are out, and the bytes of their lists are counted. */
  ghost predicate Emitting(rows: seq<Row>, i: nat, tokens: seq<Token>, lists: seq<bytes>,
                           freqs: seq<TokenFrequencyEntry>, size: nat, lists': seq<bytes>,
                           freqs': seq<TokenFrequencyEntry>, size': nat, kept: nat) {
    && TokensOut(rows, i, tokens, lists, freqs, lists', freqs', kept)
    && size' + ListsSize(lists, |lists|) == size + ListsSize(lists', |lists'|)
  }

  method EmitOne(pd: PostingData, ghost rows: seq<Row>, ghost i: nat, tokens: seq<Token>, ghost lists: seq<bytes>,
                 ghost freqs: seq<TokenFrequencyEntry>, ghost size: nat, lists1: seq<bytes>,
                 freqs1: seq<TokenFrequencyEntry>, size1: nat, kept: ListTables.PostingLists)
      returns (tokens': seq<Token>, lists': seq<bytes>, freqs': seq<TokenFrequencyEntry>, size': nat)
    requires FreqsAscending(pd.freqs) && i < |rows| && rows[i] == RowOf(pd)
    requires Emitting(rows, i, tokens, lists, freqs, size, lists1, freqs1, size1, |kept.headers|)
    ensures Emitting(rows, i + 1, tokens', lists, freqs, size, lists', freqs', size', |kept.headers|)
  {
    var token, data := EmitToken(pd, ListTables.Len(kept.(entries := lists1)), |freqs1|);
    TokenOut(rows, i, tokens, lists, freqs, lists1, freqs1, |kept.headers|);
    ListsSizeSnoc(lists1, data);
    size' := size1 + PostingListHeaderSize + |data|;
    lists' := lists1 + [data];
    freqs' := freqs1 + pd.freqs;
    tokens' := tokens + [token];
  }

  /** The tokens of one field in tree order: numbered posting lists, entries appended to the one region. */
  method EmitTokens(ts: seq<PostingData>, lists: seq<bytes>, freqs: seq<TokenFrequencyEntry>, size: nat,
                    kept: ListTables.PostingLists)
      returns (tokens: seq<Token>, lists': seq<bytes>, freqs': seq<TokenFrequencyEntry>, size': nat)
    requires AllAscending(ts)
    ensures tokens == AllStamped(Number(RowsOf(ts), |lists|, |freqs|), |kept.headers|)
    ensures lists' == lists + Lists(RowsOf(ts)) && freqs' == freqs + Flatten(RowsOf(ts), |ts|)
    ensures size' + ListsSize(lists, |lists|) == size + ListsSize(lists', |lists'|)
  {
    tokens, lists', freqs', size' := [], lists, freqs, size;
    for i := 0 to |ts|
      invariant Emitting(RowsOf(ts), i, tokens, lists, freqs, size, lists', freqs', size', |kept.headers|)
    {
      assert FreqsAscending(ts[i].freqs);
      tokens, lists', freqs',
          size' := EmitOne(ts[i], RowsOf(ts), i, tokens, lists, freqs, size, lists', freqs', size', kept);
    }
    AllOut(RowsOf(ts), tokens, lists, freqs, lists', freqs', |kept.headers|);
  }

  /** One field: its averages and its tokens. */
  method EmitField(h: uint64, a: Accumulator, ratio: Ratio, lists: seq<bytes>, freqs: seq<TokenFrequencyEntry>,
                   size: nat, kept: ListTables.PostingLists)
      returns (field: Field, lists': seq<bytes>, freqs': seq<TokenFrequencyEntry>, size': nat)
    requires AccumulatorOk(a) && AllAscending(a.tokens)
    ensures field == StampedField(FieldOf(BlockOf(h, a, ratio), |lists|, |freqs|), |kept.headers|)
    ensures lists' == lists + Lists(RowsOf(a.tokens)) && freqs' == freqs + Flatten(RowsOf(a.tokens), |a.tokens|)
    ensures size' + ListsSize(lists, |lists|) == size + ListsSize(lists', |lists'|)
  {
    var avg := 0;
    if a.documentsCount > 0 {
      avg := ratio.built(a.totalLength, a.documentsCount);
    }
    var tokens;
    tokens, lists', freqs', size' := EmitTokens(a.tokens, lists, freqs, size, kept);
    field := Field(avg, a.totalLength, tokens, a.totalFreqs, a.lengths);
  }

  /** What the accumulators promise about the block of a field over `n` documents. */
  lemma BlockOfAccumulator(docs: seq<Document>, accs: Accumulators, h: uint64, ratio: Ratio)
    requires AllDefined(docs) && Accumulated(accs, docs, |docs|) && h in accs
    ensures AllAscending(accs[h].tokens) && BlockOk(BlockOf(h, accs[h], ratio), |docs|, ratio)
    ensures Counted(BlockOf(h, accs[h], ratio))
    ensures accs[h].lengths == LengthsOfDocuments(docs, h)
    ensures forall v :: RowEntries(RowsOf(accs[h].tokens), v) == OfDocuments(docs, h, v)
  {
    var a, rows := accs[h], RowsOf(accs[h].tokens);
    forall i: nat | i < |a.tokens|
      ensures RowOk(rows[i], |docs|) && RawBytes(rows[i].value) == a.tokens[i].value
      ensures FreqsAscending(a.tokens[i].freqs)
    {
      RowOfData(docs, accs, h, i);
    }
    assert AccumulatedLengths(accs, h) == LengthsOfDocuments(docs, h);
    DocumentLengthsAscend(docs, h);
    CountOfRows(a.tokens);
    forall v
      ensures RowEntries(rows, v) == OfDocuments(docs, h, v)
    {
      RowEntriesOfData(docs, accs, h, v);
    }
  }

  lemma RowOfData(docs: seq<Document>, accs: Accumulators, h: uint64, i: nat)
    requires AllDefined(docs) && Accumulated(accs, docs, |docs|) && h in accs && i < |accs[h].tokens|
    ensures var pd := accs[h].tokens[i];
            RowOk(RowOf(pd), |docs|) && RawBytes(RowOf(pd).value) == pd.value && FreqsAscending(pd.freqs)
            && pd.freqs == OfDocuments(docs, h, pd.value)
  {
    var pd := accs[h].tokens[i];
    assert AccumulatorOk(accs[h]) && HasData(accs[h].tokens, pd.value, i);
    DataEntriesAt(accs[h].tokens, pd.value, i);
    assert AccumulatedEntries(accs, h, pd.value) == OfDocuments(docs, h, pd.value);
    DocumentEntriesAscend(docs, h, pd.value);
    UnmarshalOfMarshal(DocumentsOf(pd.freqs));
  }

  lemma RowEntriesOfData(docs: seq<Document>, accs: Accumulators, h: uint64, v: bytes)
    requires AllDefined(docs) && Accumulated(accs, docs, |docs|) && h in accs
    requires forall i | 0 <= i < |accs[h].tokens| ::
             RawBytes(RowsOf(accs[h].tokens)[i].value) == accs[h].tokens[i].value
    ensures RowEntries(RowsOf(accs[h].tokens), v) == OfDocuments(docs, h, v)
  {
    var ts, rows := accs[h].tokens, RowsOf(accs[h].tokens);
    assert AccumulatedEntries(accs, h, v) == OfDocuments(docs, h, v);
    assert AccumulatorOk(accs[h]);
    RowEntriesOfTokens(ts, rows, v);
  }

  lemma RowEntriesOfTokens(ts: seq<PostingData>, rows: seq<Row>, v: bytes)
    requires DataSorted(ts) && rows == RowsOf(ts)
    requires forall i | 0 <= i < |ts| :: RawBytes(rows[i].value) == ts[i].value
    ensures RowEntries(rows, v) == DataEntries(ts, v)
  {
    if i: nat :| HasData(ts, v, i) {
      DataEntriesAt(ts, v, i);
      assert HasRow(rows, v, i);
      RowEntriesAt(rows, i);
    } else {
      DataEntriesNone(ts, v);
      forall i: nat
        ensures !HasRow(rows, v, i)
      {
        assert !HasData(ts, v, i);
      }
    }
  }

  /** The blocks emitted so far are those of the accumulators that are gone. */
  ghost predicate Emitted(bs: seq<Block>, accs: Accumulators, remaining: Accumulators, ratio: Ratio) {
    && Hashes(bs) + remaining.Keys == accs.Keys && Hashes(bs) !! remaining.Keys
    && (forall h | h in remaining :: remaining[h] == accs[h])
    && (forall k | 0 <= k < |bs| :: bs[k].hash in accs && bs[k] == BlockOf(bs[k].hash, accs[bs[k].hash], ratio))
  }

  lemma EmittedSnoc(bs: seq<Block>, accs: Accumulators, remaining: Accumulators, ratio: Ratio, h: uint64)
    requires Emitted(bs, accs, remaining, ratio) && h in remaining && HashesDistinct(bs)
    ensures Emitted(bs + [BlockOf(h, accs[h], ratio)], accs, remaining - {h}, ratio)
  {
    HashesSnoc(bs, BlockOf(h, accs[h], ratio));
  }

  lemma SizeEmitted(t: Tables, b: Block, remaining: Accumulators, h: uint64, ratio: Ratio)
    requires h in remaining && AccumulatorOk(remaining[h]) && b == BlockOf(h, remaining[h], ratio) && h !in t.fields
    ensures TablesSize(WithBlock(t, b)) + Total(remaining - {h}, AccumulatorSize())
            + ListsSize(t.postingLists, |t.postingLists|)
            == TablesSize(t) + Total(remaining, AccumulatorSize())
               + ListsSize(WithBlock(t, b).postingLists, |WithBlock(t, b).postingLists|)
  {
    TotalWithout(remaining, AccumulatorSize(), h);
    TotalUpdate(t.fields, FieldSize(), h, FieldOf(b, |t.postingLists|, |t.tokenFrequencies|));
    CountOfRows(remaining[h].tokens);
  }

  /** Where the loop over the fields stands: what is out is laid out and counted, what is left is as accumulated. */
  ghost predicate Building(t: Tables, remaining: Accumulators, size: nat, bs: seq<Block>, docs: seq<Document>,
                           accs: Accumulators, ratio: Ratio) {
    && LaidOut(t, bs) && t.documentsIds == Ids(docs) && Emitted(bs, accs, remaining, ratio)
    && size == TablesSize(t) + Total(remaining, AccumulatorSize())
  }

  lemma BuildingNext(t: Tables, remaining: Accumulators, size: nat, bs: seq<Block>, docs: seq<Document>,
                     accs: Accumulators, ratio: Ratio, h: uint64, size': nat)
    requires Building(t, remaining, size, bs, docs, accs, ratio) && h in remaining && AccumulatorOk(accs[h])
    requires var b := BlockOf(h, accs[h], ratio);
             size' + ListsSize(t.postingLists, |t.postingLists|)
                 == size + ListsSize(WithBlock(t, b).postingLists, |WithBlock(t, b).postingLists|)
    ensures var b := BlockOf(h, accs[h], ratio);
            Building(WithBlock(t, b), remaining - {h}, size', bs + [b], docs, accs, ratio)
  {
    var b := BlockOf(h, accs[h], ratio);
    assert h !in t.fields;
    SizeEmitted(t, b, remaining, h, ratio);
    LaidOutSnoc(t, bs, b);
    EmittedSnoc(bs, accs, remaining, ratio, h);
  }

  /** One field leaves the accumulators and joins the tables. */
  method EmitNext(t: Tables, remaining: Accumulators, ratio: Ratio, size: nat, kept: ListTables.PostingLists,
                  ghost plain: Tables, ghost bs: seq<Block>, ghost docs: seq<Document>, ghost accs: Accumulators)
      returns (t': Tables, remaining': Accumulators, size': nat, ghost plain': Tables, ghost bs': seq<Block>)
    requires AllDefined(docs) && Accumulated(accs, docs, |docs|) && remaining.Keys != {}
    requires Building(plain, remaining, size, bs, docs, accs, ratio) && t == StampedTables(plain, |kept.headers|)
    ensures Building(plain', remaining', size', bs', docs, accs, ratio) && t' == StampedTables(plain', |kept.headers|)
    ensures |remaining'.Keys| < |remaining.Keys|
  {
    var h :| h in remaining.Keys;
    BlockOfAccumulator(docs, accs, h, ratio);
    ghost var b := BlockOf(h, accs[h], ratio);
    var field, lists, freqs;
    field, lists, freqs, size' := EmitField(h, remaining[h], ratio, t.postingLists, t.tokenFrequencies, size, kept);
    t' := Tables(t.documentsIds, freqs, t.fields[h := field], lists);
    remaining' := remaining - {h};
    bs' := bs + [b];
    plain' := WithBlock(plain, b);
    StampedWithBlock(plain, b, |kept.headers|);
    BuildingNext(plain, remaining, size, bs, docs, accs, ratio, h, size');
  }

  lemma StampedWithBlock(t: Tables, b: Block, kept: nat)
    ensures var u := WithBlock(t, b);
            StampedTables(u, kept) == Tables(t.documentsIds, u.tokenFrequencies,
              StampedTables(t,
                            kept).fields[b.hash :=
                                StampedField(FieldOf(b, |t.postingLists|, |t.tokenFrequencies|), kept)], u.postingLists)
  {
  }

  lemma NothingOut(ids: seq<RawValue>, docs: seq<Document>, accs: Accumulators, ratio: Ratio, size: nat)
    requires ids == Ids(docs) && size == HeaderSize + DocumentIdSize * |ids| + Total(accs, AccumulatorSize())
    ensures Building(Tables(ids, [], map[], []), accs, size, [], docs, accs, ratio)
  {
    var none: map<uint64, Field> := map[];
    assert Total(none, FieldSize()) == 0;
  }

  lemma AllOfThem(t: Tables, remaining: Accumulators, size: nat, bs: seq<Block>, docs: seq<Document>,
                  accs: Accumulators, ratio: Ratio)
    requires AllDefined(docs) && Accumulated(accs, docs, |docs|)
    requires Building(t, remaining, size, bs, docs, accs, ratio) && remaining.Keys == {}
    ensures IndexOf(t, docs, ratio) && LaidOut(t, bs) && size == TablesSize(t) && AveragesBuilt(t, ratio)
    ensures Spread(t)
  {
    assert remaining == map[] && Total(remaining, AccumulatorSize()) == 0;
    BuiltIndex(t, bs, docs, accs, ratio);
    LaidOutSpread(t, bs, ratio);
    forall h | h in t.fields && t.fields[h].documentLengths != []
      ensures t.fields[h].avgDocumentLength
              == ratio.built(t.fields[h].totalDocumentsLength, |t.fields[h].documentLengths|)
    {
      var k: nat :| k < |bs| && bs[k].hash == h;
      assert BlockAt(t, bs, k) && AccumulatorOk(accs[h]);
    }
  }

  /** The averages that a build leaves behind, where there is a length. */
  ghost predicate AveragesBuilt(t: Tables, ratio: Ratio) {
    forall h | h in t.fields && t.fields[h].documentLengths != [] ::
      t.fields[h].avgDocumentLength == ratio.built(t.fields[h].totalDocumentsLength, |t.fields[h].documentLengths|)
  }

  /**
   `BuildFrom` over its documents; the fields come in whatever order the map yields them. Headers that were `kept` are
   counted with the new lists, and spoil the index of `plain` that would be built without them.
   */
  method BuildTables(docs: seq<Document>, ratio: Ratio, kept: ListTables.PostingLists)
      returns (t: Tables, size: nat, ghost plain: Tables, ghost bs: seq<Block>)
    requires AllDefined(docs)
    ensures IndexOf(plain, docs, ratio) && LaidOut(plain, bs) && AveragesBuilt(plain, ratio) && Spread(plain)
    ensures size == TablesSize(plain) && t == StampedTables(plain, |kept.headers|)
  {
    var ids, accs;
    ids, accs, size := AddDocuments(docs, HeaderSize);
    t := Tables(ids, [], map[], []);
    plain, bs := t, [];
    assert StampedTables(plain, |kept.headers|).fields == map[];
    NothingOut(ids, docs, accs, ratio, size);
    var remaining := accs;
    while remaining.Keys != {}
      invariant Building(plain, remaining, size, bs, docs, accs, ratio) && t == StampedTables(plain, |kept.headers|)
      decreases |remaining.Keys|
    {
      t, remaining, size, plain, bs := EmitNext(t, remaining, ratio, size, kept, plain, bs, docs, accs);
    }
    AllOfThem(plain, remaining, size, bs, docs, accs, ratio);
  }

  lemma BuiltIndex(t: Tables, bs: seq<Block>, docs: seq<Document>, accs: Accumulators, ratio: Ratio)
    requires AllDefined(docs) && Accumulated(accs, docs, |docs|)
    requires LaidOut(t, bs) && t.documentsIds == Ids(docs) && Emitted(bs, accs, map[], ratio)
    ensures IndexOf(t, docs, ratio)
  {
    forall k: nat | k < |bs|
      ensures BlockOk(bs[k], |docs|, ratio) && Counted(bs[k])
    {
      BlockOfAccumulator(docs, accs, bs[k].hash, ratio);
    }
    LaidOutWellFormed(t, bs, ratio);
    forall h, v
      ensures Entries(t, h, v) == OfDocuments(docs, h, v)
    {
      BuiltEntries(t, bs, docs, accs, ratio, h, v);
    }
    forall h | h in t.fields
      ensures t.fields[h].documentLengths == LengthsOfDocuments(docs, h)
    {
      var k: nat :| k < |bs| && bs[k].hash == h;
      BlockOfAccumulator(docs, accs, h, ratio);
      assert BlockAt(t, bs, k);
    }
  }

  lemma BuiltEntries(t: Tables, bs: seq<Block>, docs: seq<Document>, accs: Accumulators, ratio: Ratio, h: uint64,
                     v: bytes)
    requires AllDefined(docs) && Accumulated(accs, docs, |docs|)
    requires LaidOut(t, bs) && Emitted(bs, accs, map[], ratio)
    requires forall k, v | 0 <= k < |bs| :: Entries(t, bs[k].hash, v) == RowEntries(bs[k].rows, v)
    ensures Entries(t, h, v) == OfDocuments(docs, h, v)
  {
    if h in accs {
      var k: nat :| k < |bs| && bs[k].hash == h;
      BlockOfAccumulator(docs, accs, h, ratio);
    } else {
      assert AccumulatedEntries(accs, h, v) == OfDocuments(docs, h, v);
    }
  }
}
