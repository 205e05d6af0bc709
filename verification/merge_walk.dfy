/** storage/merge.go: the walks over two token tables, and the frequency entries written along them. */
module MergeWalk {
  import opened Bytes
  import opened Codec
  import opened Headers
  import opened Records
  import opened Blocks
  import opened Shifts
  import opened Files
  import opened Zipping
  import opened Merged
  import opened Parsing

  /** The rows `rows` are what the tokens of `f` select from `freqs`. */
  ghost predicate TokenReads(row: Row, token: Token, freqs: seq<TokenFrequencyEntry>) {
    && row.value == token.value
    && token.frequenciesIndex + token.frequencyCount <= |freqs|
    && freqs[token.frequenciesIndex..token.frequenciesIndex + token.frequencyCount] == row.entries
  }

  ghost predicate RowsRead(rows: seq<Row>, ts: seq<Token>, freqs: seq<TokenFrequencyEntry>) {
    |rows| == |ts| && forall i {:trigger TokenReads(rows[i], ts[i], freqs)} | 0 <= i < |ts| ::
        TokenReads(rows[i], ts[i], freqs)
  }

  /** The switch that every walk over two token tables makes. */
  method NextPair(ts: seq<Token>, us: seq<Token>, i: nat, j: nat, ghost xs: seq<bytes>, ghost ys: seq<bytes>)
      returns (p: Pair)
    requires i <= |ts| && j <= |us| && (i < |ts| || j < |us|)
    requires |xs| == |ts| && |ys| == |us|
    requires (i < |ts| ==> xs[i] == ts[i].Bytes()) && (j < |us| ==> ys[j] == us[j].Bytes())
    ensures p == Head(xs, ys, i, j)
  {
    if i >= |ts| {
      p := Pair(-1, j);
    } else if j >= |us| {
      p := Pair(i, -1);
    } else {
      var c := Compare(ts[i].Bytes(), us[j].Bytes());
      if c == 0 {
        p := Pair(i, j);
      } else if c == -1 {
        p := Pair(i, -1);
      } else {
        p := Pair(-1, j);
      }
    }
  }

  ghost function TokenKeys(ts: seq<Token>): seq<bytes> {
    seq(|ts|, i requires 0 <= i < |ts| => ts[i].Bytes())
  }

  lemma KeysOfRows(rows: seq<Row>, ts: seq<Token>, freqs: seq<TokenFrequencyEntry>)
    requires RowsRead(rows, ts, freqs)
    ensures TokenKeys(ts) == Keys(rows)
  {
    forall i | 0 <= i < |ts|
      ensures TokenKeys(ts)[i] == Keys(rows)[i]
    {
      assert TokenReads(rows[i], ts[i], freqs);
    }
  }

  /** `CountTokensBetweenCollisionFields`: the tokens two fields have between them. */
  method CountTokensBetweenCollisionFields(ts: seq<Token>, us: seq<Token>) returns (count: nat)
    ensures count == |Zipped(TokenKeys(ts), TokenKeys(us))|
  {
    count := 0;
    var i: nat, j: nat := 0, 0;
    ghost var xs, ys := TokenKeys(ts), TokenKeys(us);
    while i < |ts| || j < |us|
      invariant Standing(xs, ys, count, i, j)
      decreases |ts| - i + |us| - j
    {
      var p := NextPair(ts, us, i, j, xs, ys);
      Step(xs, ys, count, i, j);
      count := count + 1;
      i := if p.a >= 0 then i + 1 else i;
      j := if p.b >= 0 then j + 1 else j;
    }
  }

  lemma EncodeNext<T>(f: T -> bytes, xs: seq<T>, i: nat)
    requires i < |xs|
    ensures Encode(f, xs[..i + 1]) == Encode(f, xs[..i]) + f(xs[i])
  {
    assert xs[..i + 1] == xs[..i] + [xs[i]];
    EncodeSnoc(f, xs[..i], xs[i]);
  }

  lemma Longer<X>(base: seq<X>, done: seq<X>, a: seq<X>, b: seq<X>)
    ensures base + done + a + b == base + (done + (a + b))
  {
  }

  /** Entries of the second storage, written with their documents renumbered. */
  method WriteShifted(w: Writer, freqs: seq<TokenFrequencyEntry>, offset: uint32)
    requires w.Appending()
    modifies w, w.file
    ensures w.Appending() && w.Written() == old(w.Written()) + Encode(PutFrequency, Shift(freqs, offset))
  {
    ghost var base, shifted := w.Written(), Shift(freqs, offset);
    for i := 0 to |freqs|
      invariant w.Appending() && w.Written() == base + Encode(PutFrequency, shifted[..i])
    {
      var d, f := PutUint32(Add32(offset, freqs[i].documentIndex)), PutUint32(freqs[i].frequency);
      w.Write(d);
      w.Write(f);
      EncodeNext(PutFrequency, shifted, i);
      Longer(base, Encode(PutFrequency, shifted[..i]), d, f);
    }
    assert shifted[..|freqs|] == shifted;
  }

  function TokenSlice(freqs: seq<TokenFrequencyEntry>, token: Token): seq<TokenFrequencyEntry>
    requires token.frequenciesIndex + token.frequencyCount <= |freqs|
  {
    freqs[token.frequenciesIndex..token.frequenciesIndex + token.frequencyCount]
  }

  /** The two tables of tokens and the entries behind them, with the rows they stand for. */
  ghost predicate Walks(ts: seq<Token>, us: seq<Token>, fa: seq<TokenFrequencyEntry>, fb: seq<TokenFrequencyEntry>,
                        rs: seq<Row>, ss: seq<Row>) {
    RowsRead(rs, ts, fa) && RowsRead(ss, us, fb)
  }

  /** The entries of one step of the walk. */
  method WritePair(w: Writer, p: Pair, ts: seq<Token>, us: seq<Token>, fa: seq<TokenFrequencyEntry>,
                   fb: seq<TokenFrequencyEntry>, offset: uint32, ghost rs: seq<Row>, ghost ss: seq<Row>)
    requires w.Appending() && Walks(ts, us, fa, fb, rs, ss) && PairOk(Keys(rs), Keys(ss), p)
    modifies w, w.file
    ensures w.Appending() && w.Written() == old(w.Written()) + Encode(PutFrequency, MergedEntries(rs, ss, offset, p))
  {
    ghost var base := w.Written();
    ghost var left, right := if p.a >= 0 then rs[p.a].entries
        else [], Shift(if p.b >= 0 then ss[p.b].entries else [], offset);
    if p.a >= 0 {
      assert TokenReads(rs[p.a], ts[p.a], fa);
      w.Write(Encode(PutFrequency, TokenSlice(fa, ts[p.a])));
    }
    assert w.Written() == base + Encode(PutFrequency, left);
    if p.b >= 0 {
      assert TokenReads(ss[p.b], us[p.b], fb);
      WriteShifted(w, TokenSlice(fb, us[p.b]), offset);
    }
    EncodeConcat(PutFrequency, left, right);
    Associative(base, Encode(PutFrequency, left), Encode(PutFrequency, right));
  }

  /** After `k` steps: where the walk stands, and that the entries of the first `k` rows are written. */
  ghost predicate Walked(w: Writer, base: bytes, rs: seq<Row>, ss: seq<Row>, offset: uint32, k: nat, i: nat, j: nat)
    reads w, w.file
  {
    && w.Appending() && Standing(Keys(rs), Keys(ss), k, i, j)
    && w.Written() == base + Encode(PutFrequency, Flatten(MergeRows(rs, ss, offset), k))
  }

  /** The entries of row `k` follow those of the rows before it. */
  lemma EntriesNext(rs: seq<Row>, ss: seq<Row>, offset: uint32, k: nat, p: Pair)
    requires k < |MergeRows(rs, ss, offset)| && Zipped(Keys(rs), Keys(ss))[k] == p && PairOk(Keys(rs), Keys(ss), p)
    ensures Encode(PutFrequency, Flatten(MergeRows(rs, ss, offset), k + 1))
            == Encode(PutFrequency, Flatten(MergeRows(rs, ss, offset), k))
                + Encode(PutFrequency, MergedEntries(rs, ss, offset, p))
  {
    var rows := MergeRows(rs, ss, offset);
    assert rows[k].entries == MergedEntries(rs, ss, offset, p);
    EncodeConcat(PutFrequency, Flatten(rows, k), rows[k].entries);
  }

  method WalkOn(w: Writer, p: Pair, ts: seq<Token>, us: seq<Token>, fa: seq<TokenFrequencyEntry>,
                fb: seq<TokenFrequencyEntry>, offset: uint32, ghost base: bytes, ghost rs: seq<Row>, ghost ss: seq<Row>,
                ghost k: nat, i: nat, j: nat)
      returns (i': nat, j': nat)
    requires Walked(w, base, rs, ss, offset, k, i, j) && Walks(ts, us, fa, fb, rs, ss)
    requires (i < |rs| || j < |ss|) && p == Head(Keys(rs), Keys(ss), i, j)
    modifies w, w.file
    ensures Walked(w, base, rs, ss, offset, k + 1, i', j')
    ensures i' == After(i, p.a) && j' == After(j, p.b)
  {
    Step(Keys(rs), Keys(ss), k, i, j);
    ZippedOk(Keys(rs), Keys(ss), k);
    WritePair(w, p, ts, us, fa, fb, offset, rs, ss);
    EntriesNext(rs, ss, offset, k, p);
    Associative(base, Encode(PutFrequency, Flatten(MergeRows(rs, ss, offset), k)),
                Encode(PutFrequency, MergedEntries(rs, ss, offset, p)));
    i' := if p.a >= 0 then i + 1 else i;
    j' := if p.b >= 0 then j + 1 else j;
  }

  lemma WalkStarts(w: Writer, rs: seq<Row>, ss: seq<Row>, offset: uint32)
    requires w.Appending()
    ensures Walked(w, w.Written(), rs, ss, offset, 0, 0, 0)
  {
  }

  lemma WalkEnds(w: Writer, base: bytes, rs: seq<Row>, ss: seq<Row>, offset: uint32, k: nat)
    requires Walked(w, base, rs, ss, offset, k, |rs|, |ss|)
    ensures k == |MergeRows(rs, ss, offset)|
    ensures w.Written() == base + Encode(PutFrequency, Flatten(MergeRows(rs, ss, offset), k))
  {
  }

  /** First pass over a field that both storages have: the entries of every token, and how many tokens there are. */
  method PrepareCollision(w: Writer, ts: seq<Token>, us: seq<Token>, fa: seq<TokenFrequencyEntry>,
                          fb: seq<TokenFrequencyEntry>, offset: uint32, ghost rs: seq<Row>, ghost ss: seq<Row>)
      returns (count: nat)
    requires w.Appending() && Walks(ts, us, fa, fb, rs, ss)
    modifies w, w.file
    ensures w.Appending() && count == |MergeRows(rs, ss, offset)|
    ensures w.Written() == old(w.Written()) + Encode(PutFrequency, Flatten(MergeRows(rs, ss, offset), count))
  {
    ghost var base := w.Written();
    KeysOfRows(rs, ts, fa);
    KeysOfRows(ss, us, fb);
    count := 0;
    WalkStarts(w, rs, ss, offset);
    var i: nat, j: nat := 0, 0;
    while i < |ts| || j < |us|
      invariant Walked(w, base, rs, ss, offset, count, i, j)
      decreases |ts| - i + |us| - j
    {
      var p := NextPair(ts, us, i, j, Keys(rs), Keys(ss));
      i, j := WalkOn(w, p, ts, us, fa, fb, offset, base, rs, ss, count, i, j);
      count := count + 1;
    }
    WalkEnds(w, base, rs, ss, offset, count);
  }

  method LeftStep(w: Writer, ts: seq<Token>, fa: seq<TokenFrequencyEntry>, i: nat, ghost base: bytes,
                  ghost offset: uint32, ghost rs: seq<Row>)
    requires RowsRead(rs, ts, fa) && i < |ts| && Walked(w, base, rs, [], offset, i, i, 0)
    modifies w, w.file
    ensures Walked(w, base, rs, [], offset, i + 1, i + 1, 0)
  {
    ghost var p := Pair(i, -1);
    assert TokenReads(rs[i], ts[i], fa);
    Step(Keys(rs), Keys([]), i, i, 0);
    EntriesNext(rs, [], offset, i, p);
    assert MergedEntries(rs, [], offset, p) == rs[i].entries;
    Associative(base, Encode(PutFrequency, Flatten(MergeRows(rs, [], offset), i)), Encode(PutFrequency, rs[i].entries));
    w.Write(Encode(PutFrequency, TokenSlice(fa, ts[i])));
  }

  /** First pass over a field of the first storage alone. */
  method PrepareLeft(w: Writer, ts: seq<Token>, fa: seq<TokenFrequencyEntry>, ghost offset: uint32, ghost rs: seq<Row>)
      returns (count: nat)
    requires w.Appending() && RowsRead(rs, ts, fa)
    modifies w, w.file
    ensures w.Appending() && count == |MergeRows(rs, [], offset)|
    ensures w.Written() == old(w.Written()) + Encode(PutFrequency, Flatten(MergeRows(rs, [], offset), count))
  {
    ghost var base := w.Written();
    WalkStarts(w, rs, [], offset);
    count := |ts|;
    for i := 0 to |ts|
      invariant Walked(w, base, rs, [], offset, i, i, 0)
    {
      LeftStep(w, ts, fa, i, base, offset, rs);
    }
    WalkEnds(w, base, rs, [], offset, count);
  }

  method RightStep(w: Writer, us: seq<Token>, fb: seq<TokenFrequencyEntry>, j: nat, offset: uint32, ghost base: bytes,
                   ghost ss: seq<Row>)
    requires RowsRead(ss, us, fb) && j < |us| && Walked(w, base, [], ss, offset, j, 0, j)
    modifies w, w.file
    ensures Walked(w, base, [], ss, offset, j + 1, 0, j + 1)
  {
    ghost var p := Pair(-1, j);
    assert TokenReads(ss[j], us[j], fb);
    Step(Keys([]), Keys(ss), j, 0, j);
    EntriesNext([], ss, offset, j, p);
    assert MergedEntries([], ss, offset, p) == Shift(ss[j].entries, offset);
    Associative(base, Encode(PutFrequency, Flatten(MergeRows([], ss, offset), j)),
                Encode(PutFrequency, Shift(ss[j].entries, offset)));
    WriteShifted(w, TokenSlice(fb, us[j]), offset);
  }

  /** First pass over a field of the second storage alone. */
  method PrepareRight(w: Writer, us: seq<Token>, fb: seq<TokenFrequencyEntry>, offset: uint32, ghost ss: seq<Row>)
      returns (count: nat)
    requires w.Appending() && RowsRead(ss, us, fb)
    modifies w, w.file
    ensures w.Appending() && count == |MergeRows([], ss, offset)|
    ensures w.Written() == old(w.Written()) + Encode(PutFrequency, Flatten(MergeRows([], ss, offset), count))
  {
    ghost var base := w.Written();
    WalkStarts(w, [], ss, offset);
    count := |us|;
    for j := 0 to |us|
      invariant Walked(w, base, [], ss, offset, j, 0, j)
    {
      RightStep(w, us, fb, j, offset, base, ss);
    }
    WalkEnds(w, base, [], ss, offset, count);
  }
}
