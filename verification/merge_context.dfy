/**
 storage/merge.go, `MergeContext` and the second pass: token records numbered by two running cursors, and a queue
 of posting lists to come.
 */
module MergeContexts {
  import opened Bytes
  import opened Codec
  import opened Collecting
  import opened Headers
  import opened Options
  import opened Parsing
  import opened Records
  import opened Bitmaps
  import opened Blocks
  import opened Shifts
  import opened Files
  import opened Zipping
  import opened Merged
  import opened MergeWalk

  /** A posting list to come: the lists of the two storages it is made from, -1 for none. */
  datatype Pending = Pending(indexA: int, indexB: int)

  /** The list a queue entry stands for; none when it names no list of either storage. */
  ghost function ListOf(la: seq<bytes>, lb: seq<bytes>, offset: uint32): Pending -> Option<bytes> {
    (q: Pending) =>
      if 0 <= q.indexA < |la| && 0 <= q.indexB < |lb| then
        Some(Marshal(Unmarshal(la[q.indexA]) + ShiftSet(Unmarshal(lb[q.indexB]), offset)))
      else if 0 <= q.indexA < |la| && q.indexB == -1 then Some(la[q.indexA])
      else if q.indexA == -1 && 0 <= q.indexB < |lb| then Some(Marshal(ShiftSet(Unmarshal(lb[q.indexB]), offset)))
      else None
  }

  ghost function Somes(ls: seq<bytes>): seq<Option<bytes>> {
    seq(|ls|, i requires 0 <= i < |ls| => Some(ls[i]))
  }

  /** The posting lists that the tokens of `ts` point to are those of the rows. */
  ghost predicate ListRead(row: Row, token: Token, lists: seq<bytes>) {
    token.postingListIndex < |lists| && lists[token.postingListIndex] == row.list
  }

  ghost predicate ListsRead(rows: seq<Row>, ts: seq<Token>, lists: seq<bytes>) {
    |rows| == |ts| && forall i {:trigger ListRead(rows[i], ts[i], lists)} | 0 <= i < |ts| ::
        ListRead(rows[i], ts[i], lists)
  }

  /** One table of tokens with the rows it stands for in a storage. */
  ghost predicate Reads(rows: seq<Row>, ts: seq<Token>, freqs: seq<TokenFrequencyEntry>, lists: seq<bytes>) {
    RowsRead(rows, ts, freqs) && ListsRead(rows, ts, lists)
  }

  function TokenAt(ts: seq<Token>, i: int): Option<Token> {
    if 0 <= i < |ts| then Some(ts[i]) else None
  }

  /** What the record of a merged token keeps from its one or two tokens. */
  method Combine(tokenA: Option<Token>, tokenB: Option<Token>) returns (count: nat, value: RawValue, q: Pending)
    requires tokenA.Some? || tokenB.Some?
    ensures count == CountOf(tokenA) + CountOf(tokenB) && value == ValueOf(tokenA, tokenB)
    ensures q == Pending(ListIndexOf(tokenA), ListIndexOf(tokenB))
  {
    if tokenA.Some? && tokenB.Some? {
      count, value := tokenA.value.frequencyCount + tokenB.value.frequencyCount, tokenA.value.value;
      q := Pending(tokenA.value.postingListIndex, tokenB.value.postingListIndex);
    } else if tokenA.Some? {
      count, value, q := tokenA.value.frequencyCount, tokenA.value.value, Pending(tokenA.value.postingListIndex, -1);
    } else {
      count, value, q := tokenB.value.frequencyCount, tokenB.value.value, Pending(-1, tokenB.value.postingListIndex);
    }
  }

  class MergeContext {
    const w: Writer
    const offset: uint32
    var buffer: bytes
    var postingListCursor: nat
    var frequenciesCursor: nat
    var postingListCount: nat
    var pending: seq<Pending>

    constructor (writer: Writer, documentOffset: uint32)
      ensures w == writer && offset == documentOffset && |buffer| == 8
      ensures postingListCursor == frequenciesCursor == postingListCount == 0 && pending == []
    {
      w, offset, buffer := writer, documentOffset, Zeros(8);
      postingListCursor, frequenciesCursor, postingListCount, pending := 0, 0, 0, [];
    }

    /** The lists that the queue stands for. */
    ghost function Queued(listOf: Pending -> Option<bytes>): seq<Option<bytes>>
      reads this
    {
      MapSeq(pending, listOf)
    }

    /** The first `k` rows are written as tokens from where the cursors stood, and their lists are queued. */
    ghost predicate TokensWritten(base: bytes, rows: seq<Row>, pl: nat, fq: nat, listOf: Pending -> Option<bytes>,
                                  before: seq<Option<bytes>>, k: nat)
      reads this, w, w.file
    {
      && k <= |rows| && w.Appending()
      && w.Written() == base + TokensImage(PutToken, rows, pl, fq, k)
      && postingListCursor == pl + k && frequenciesCursor == fq + Count(rows, k)
      && Queued(listOf) == before + FirstLists(rows, k)
    }

    /** One token record at the cursors, which move on; its list is queued. */
    method Emit(count: nat, value: RawValue, q: Pending)
      requires w.Appending()
      modifies this`postingListCursor, this`frequenciesCursor, this`pending, w, w.file
      ensures w.Appending()
      ensures w.Written()
              == old(w.Written()) + PutToken(Token(count, old(postingListCursor), old(frequenciesCursor), value))
      ensures postingListCursor == old(postingListCursor) + 1 && frequenciesCursor == old(frequenciesCursor) + count
      ensures pending == old(pending) + [q]
    {
      var token := Token(count, postingListCursor, frequenciesCursor, value);
      postingListCursor := postingListCursor + 1;
      frequenciesCursor := frequenciesCursor + count;
      pending := pending + [q];
      w.Write(PutToken(token));
    }

    /** `writeCollisionToken`, which also serves the fields of one storage alone. */
    method WriteToken(tokenA: Option<Token>, tokenB: Option<Token>)
      requires w.Appending() && (tokenA.Some? || tokenB.Some?)
      modifies this`postingListCursor, this`frequenciesCursor, this`pending, w, w.file
      ensures w.Appending()
      ensures w.Written()
              == old(w.Written())
                  + PutToken(Token(CountOf(tokenA) + CountOf(tokenB), old(postingListCursor), old(frequenciesCursor),
                                                               ValueOf(tokenA, tokenB)))
      ensures postingListCursor == old(postingListCursor) + 1
      ensures frequenciesCursor == old(frequenciesCursor) + (CountOf(tokenA) + CountOf(tokenB))
      ensures pending == old(pending) + [Pending(ListIndexOf(tokenA), ListIndexOf(tokenB))]
    {
      var count, value, q := Combine(tokenA, tokenB);
      Emit(count, value, q);
    }

    /** The record of row `k`, from the one or two tokens it comes from. */
    method EmitRow(tokenA: Option<Token>, tokenB: Option<Token>, ghost base: bytes, ghost rows: seq<Row>, ghost pl: nat,
                   ghost fq: nat, ghost listOf: Pending -> Option<bytes>, ghost before: seq<Option<bytes>>,
                   ghost k: nat)
      requires TokensWritten(base, rows, pl, fq, listOf, before, k) && k < |rows|
      requires ComesFrom(rows[k], tokenA, tokenB, listOf)
      modifies this`postingListCursor, this`frequenciesCursor, this`pending, w, w.file
      ensures TokensWritten(base, rows, pl, fq, listOf, before, k + 1)
    {
      QueueNext(pending, Pending(ListIndexOf(tokenA), ListIndexOf(tokenB)), listOf, before, FirstLists(rows, k),
                Some(rows[k].list));
      Associative(base, TokensImage(PutToken, rows, pl, fq, k),
                  PutToken(Token(|rows[k].entries|, pl + k, fq + Count(rows, k), rows[k].value)));
      WriteToken(tokenA, tokenB);
    }

    /** One step of the walk of the second pass. */
    method WriteRow(p: Pair, ts: seq<Token>, us: seq<Token>, ghost base: bytes, ghost rs: seq<Row>, ghost ss: seq<Row>,
                    ghost pl: nat, ghost fq: nat, ghost fa: seq<TokenFrequencyEntry>,
                    ghost fb: seq<TokenFrequencyEntry>, ghost la: seq<bytes>, ghost lb: seq<bytes>,
                    ghost before: seq<Option<bytes>>, ghost k: nat)
      requires Reads(rs, ts, fa, la) && Reads(ss, us, fb, lb)
      requires TokensWritten(base, MergeRows(rs, ss, offset), pl, fq, ListOf(la, lb, offset), before, k)
      requires k < |MergeRows(rs, ss, offset)| && Zipped(Keys(rs), Keys(ss))[k] == p && PairOk(Keys(rs), Keys(ss), p)
      modifies this`postingListCursor, this`frequenciesCursor, this`pending, w, w.file
      ensures TokensWritten(base, MergeRows(rs, ss, offset), pl, fq, ListOf(la, lb, offset), before, k + 1)
    {
      RowOfPair(rs, ss, offset, p, ts, us, fa, fb, la, lb);
      assert MergeRows(rs, ss, offset)[k] == MergedRow(rs, ss, offset, p);
      EmitRow(TokenAt(ts, p.a), TokenAt(us, p.b), base, MergeRows(rs, ss, offset), pl, fq, ListOf(la, lb, offset),
              before, k);
    }
  }

  lemma QueueNext(queue: seq<Pending>, q: Pending, listOf: Pending -> Option<bytes>, before: seq<Option<bytes>>,
                  done: seq<Option<bytes>>, list: Option<bytes>)
    requires MapSeq(queue, listOf) == before + done && listOf(q) == list
    ensures MapSeq(queue + [q], listOf) == before + (done + [list])
  {
    assert MapSeq(queue + [q], listOf) == MapSeq(queue, listOf) + [listOf(q)];
  }

  /** A merged row against the tokens it is made from. */
  ghost predicate ComesFrom(row: Row, ta: Option<Token>, tb: Option<Token>, listOf: Pending -> Option<bytes>) {
    && (ta.Some? || tb.Some?)
    && |row.entries| == CountOf(ta) + CountOf(tb) && row.value == ValueOf(ta, tb)
    && listOf(Pending(ListIndexOf(ta), ListIndexOf(tb))) == Some(row.list)
  }

  /** The records of the first `k` rows. */
  ghost function TokensImage(put: Token -> bytes, rows: seq<Row>, pl: nat, fq: nat, k: nat): bytes
    requires k <= |rows|
  {
    if k == 0 then []
    else TokensImage(put, rows, pl, fq, k - 1)
         + put(Token(|rows[k - 1].entries|, pl + (k - 1), fq + Count(rows, k - 1), rows[k - 1].value))
  }

  ghost function FirstLists(rows: seq<Row>, k: nat): seq<Option<bytes>>
    requires k <= |rows|
  {
    if k == 0 then [] else FirstLists(rows, k - 1) + [Some(rows[k - 1].list)]
  }

  lemma {:induction false} TokensEncoded(put: Token -> bytes, rows: seq<Row>, pl: nat, fq: nat, k: nat)
    requires k <= |rows|
    ensures TokensImage(put, rows, pl, fq, k) == Encode(put, Number(rows, pl, fq)[..k])
    ensures FirstLists(rows, k) == Somes(Lists(rows))[..k]
  {
    if k > 0 {
      TokensEncoded(put, rows, pl, fq, k - 1);
      EncodeNext(put, Number(rows, pl, fq), k - 1);
    }
  }

  function CountOf(token: Option<Token>): nat {
    if token.Some? then token.value.frequencyCount else 0
  }

  function ListIndexOf(token: Option<Token>): int {
    if token.Some? then token.value.postingListIndex else -1
  }

  function ValueOf(tokenA: Option<Token>, tokenB: Option<Token>): RawValue
    requires tokenA.Some? || tokenB.Some?
  {
    if tokenA.Some? then tokenA.value.value else tokenB.value.value
  }

  /** The record and the queued list of a step are those of its merged row. */
  lemma RowOfPair(rs: seq<Row>, ss: seq<Row>, offset: uint32, p: Pair, ts: seq<Token>, us: seq<Token>,
                  fa: seq<TokenFrequencyEntry>, fb: seq<TokenFrequencyEntry>, la: seq<bytes>, lb: seq<bytes>)
    requires Reads(rs, ts, fa, la) && Reads(ss, us, fb, lb) && PairOk(Keys(rs), Keys(ss), p)
    ensures ComesFrom(MergedRow(rs, ss, offset, p), TokenAt(ts, p.a), TokenAt(us, p.b), ListOf(la, lb, offset))
  {
    if p.a >= 0 {
      assert TokenReads(rs[p.a], ts[p.a], fa) && ListRead(rs[p.a], ts[p.a], la);
    }
    if p.b >= 0 {
      assert TokenReads(ss[p.b], us[p.b], fb) && ListRead(ss[p.b], us[p.b], lb);
    }
  }
}
