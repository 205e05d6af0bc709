/** What a keyword stands for, exact or fuzzy, in terms of the documents alone. */
module Keywords {
  import opened Bytes
  import opened Headers
  import opened Bitmaps
  import opened Tables
  import opened Documents
  import opened Build
  import opened Clauses
  import opened Having

  lemma ExactIsAmong(ts: seq<Token>, v: bytes)
    ensures Exact(ts, v) <==> Among(ts, v)
  {
    if i: nat :| i < |ts| && ts[i].Bytes() == v {
      assert HasToken(ts, v, i);
    }
    if i: nat :| HasToken(ts, v, i) {
      assert ts[i].Bytes() == v;
    }
  }

  ghost predicate StrictlyUp(ws: seq<bytes>) {
    forall i, j | 0 <= i < j < |ws| :: Less(ws[i], ws[j])
  }

  /** The tokens of the field before v that are within reach of the keyword. */
  ghost predicate ReachedBefore(docs: seq<Document>, h: uint64, kw: Keyword, maxK: int, v: bytes, ws: seq<bytes>) {
    StrictlyUp(ws) && forall w :: w in ws <==> Occurs(docs, h, w) && InReach(kw, maxK, w) && Less(w, v)
  }

  /**
   What a keyword stands for in a field: itself, when some document has it there; or else the first m tokens (10 when m
   is 0) that are within the fuzziness of the keyword and within the most that is searched for.
   */
  ghost predicate Stands(docs: seq<Document>, h: uint64, kw: Keyword, maxK: int, m: int, v: bytes) {
    if Occurs(docs, h, kw.value) then v == kw.value
    else
      && m >= 0 && Occurs(docs, h, v) && InReach(kw, maxK, v)
      && exists ws :: |ws| < (if m == 0 then 10 else m) && ReachedBefore(docs, h, kw, maxK, v, ws)
  }

  lemma Distinct(ws: seq<bytes>)
    requires StrictlyUp(ws)
    ensures |Elements(ws)| == |ws|
  {
    if ws != [] {
      var n := |ws| - 1;
      Distinct(ws[..n]);
      assert Elements(ws) == Elements(ws[..n]) + {ws[n]} by {
        forall w | w in Elements(ws)
          ensures w in Elements(ws[..n]) + {ws[n]}
        {
          var i :| 0 <= i < |ws| && ws[i] == w;
          assert i < n ==> ws[..n][i] == w;
        }
      }
      forall i | 0 <= i < n
        ensures ws[..n][i] != ws[n]
      {
        LessTotal(ws[i], ws[n]);
      }
    }
  }

  lemma FewerElements(xs: set<bytes>, ys: set<bytes>)
    requires xs <= ys
    ensures |xs| <= |ys|
  {
    assert xs + (ys - xs) == ys;
  }

  /** Different tokens that all come before v are no more than those that do. */
  lemma NoMoreThan(xs: seq<bytes>, ws: seq<bytes>)
    requires StrictlyUp(xs) && StrictlyUp(ws) && forall x | x in xs :: x in ws
    ensures |xs| <= |ws|
  {
    Distinct(xs);
    Distinct(ws);
    forall x | x in Elements(xs)
      ensures x in Elements(ws)
    {
      var i :| 0 <= i < |xs| && xs[i] == x;
      assert xs[i] in xs;
      var j :| 0 <= j < |ws| && ws[j] == x;
    }
    FewerElements(Elements(xs), Elements(ws));
  }

  /** The bytes of the tokens at ascending positions of a sorted table. */
  ghost function BytesAt(ts: seq<Token>, at: seq<nat>): seq<bytes>
    requires forall j | 0 <= j < |at| :: at[j] < |ts|
  {
    seq(|at|, j requires 0 <= j < |at| => ts[at[j]].Bytes())
  }

  /** The positions of a table whose tokens are within reach, up to where `at` is complete. */
  ghost predicate Complete(ts: seq<Token>, kw: Keyword, maxK: int, at: seq<nat>, n: nat) {
    && (forall j | 0 <= j < |at| :: at[j] < |ts| && at[j] < n && InReach(kw, maxK, ts[at[j]].Bytes()))
    && (forall i, j | 0 <= i < j < |at| :: at[i] < at[j])
    && forall i: nat | i < n && i < |ts| && InReach(kw, maxK, ts[i].Bytes()) :: i in at
  }

  lemma UpInSorted(ts: seq<Token>, at: seq<nat>)
    requires Tokens.Sorted(ts) && (forall j | 0 <= j < |at| :: at[j] < |ts|)
    requires forall i, j | 0 <= i < j < |at| :: at[i] < at[j]
    ensures StrictlyUp(BytesAt(ts, at))
  {
  }

  /** The tokens at those positions are those of the field before token n that are within reach. */
  lemma CompleteReached(s: Searcher, docs: seq<Document>, ratio: Ratio, h: uint64, kw: Keyword, at: seq<nat>, n: nat)
    requires IndexOf(s.tables, docs, ratio) && h in s.tables.fields && n < |s.tables.fields[h].tokens|
    requires Complete(s.tables.fields[h].tokens, kw, s.maxK, at, n)
    ensures var ts := s.tables.fields[h].tokens;
            ReachedBefore(docs, h, kw, s.maxK, ts[n].Bytes(), BytesAt(ts, at))
  {
    var ts := s.tables.fields[h].tokens;
    var v, ws := ts[n].Bytes(), BytesAt(ts, at);
    SortedTokens(s, ratio, h);
    UpInSorted(ts, at);
    forall w
      ensures w in ws <==> Occurs(docs, h, w) && InReach(kw, s.maxK, w) && Less(w, v)
    {
      AmongIsOccurs(s, docs, ratio, h, w);
      CompleteAt(ts, kw, s.maxK, at, n, w);
    }
  }

  lemma CompleteAt(ts: seq<Token>, kw: Keyword, maxK: int, at: seq<nat>, n: nat, w: bytes)
    requires Tokens.Sorted(ts) && n < |ts| && Complete(ts, kw, maxK, at, n)
    ensures w in BytesAt(ts, at) <==> Among(ts, w) && InReach(kw, maxK, w) && Less(w, ts[n].Bytes())
  {
    var ws := BytesAt(ts, at);
    if w in ws {
      var j :| 0 <= j < |ws| && ws[j] == w;
      assert HasToken(ts, w, at[j]);
    }
    if Among(ts, w) && InReach(kw, maxK, w) && Less(w, ts[n].Bytes()) {
      var i: nat :| HasToken(ts, w, i);
      NotBelow(ts, i, n);
      assert i in at;
      var j :| 0 <= j < |at| && at[j] == i;
      assert ws[j] == w;
    }
  }

  lemma NotBelow(ts: seq<Token>, i: nat, n: nat)
    requires Tokens.Sorted(ts) && i < |ts| && n < |ts| && Less(ts[i].Bytes(), ts[n].Bytes())
    ensures i < n
  {
    LessTotal(ts[i].Bytes(), ts[n].Bytes());
  }

  lemma EarlierAmong(at: seq<nat>, j: nat, i: nat)
    requires j < |at| && i in at && i < at[j] && forall k, l | 0 <= k < l < |at| :: at[k] < at[l]
    ensures i in at[..j]
  {
    var l: nat :| l < |at| && at[l] == i;
    AmongFirst(at, j);
  }

  /** Nothing within reach is left out before a token that is returned. */
  lemma ReturnedAt(s: Searcher, ts: seq<Token>, kw: Keyword, out: seq<Token>, at: seq<nat>, j: nat, i: nat)
    requires s.FirstInReach(ts, kw, out, at) && j < |at| && i < at[j] && i < |ts|
    requires InReach(kw, s.maxK, ts[i].Bytes())
    ensures i in at
  {
  }

  lemma CompleteUpTo(s: Searcher, ts: seq<Token>, kw: Keyword, out: seq<Token>, at: seq<nat>, j: nat)
    requires s.FirstInReach(ts, kw, out, at) && j < |at|
    ensures Complete(ts, kw, s.maxK, at[..j], at[j])
  {
    forall i: nat | i < at[j] && i < |ts| && InReach(kw, s.maxK, ts[i].Bytes())
      ensures i in at[..j]
    {
      ReturnedAt(s, ts, kw, out, at, j, i);
      EarlierAmong(at, j, i);
    }
  }

  /** What is returned for a fuzzy keyword is what it stands for. */
  lemma ReturnedStands(s: Searcher, docs: seq<Document>, ratio: Ratio, h: uint64, kw: Keyword, out: seq<Token>,
                       at: seq<nat>, j: nat)
    requires IndexOf(s.tables, docs, ratio) && h in s.tables.fields && !Occurs(docs, h, kw.value) && s.m >= 0
    requires s.FirstInReach(s.tables.fields[h].tokens, kw, out, at) && j < |out|
    ensures Stands(docs, h, kw, s.maxK, s.m, out[j].Bytes())
  {
    var ts := s.tables.fields[h].tokens;
    assert HasToken(ts, out[j].Bytes(), at[j]);
    AmongIsOccurs(s, docs, ratio, h, out[j].Bytes());
    CompleteUpTo(s, ts, kw, out, at, j);
    CompleteReached(s, docs, ratio, h, kw, at[..j], at[j]);
    assert |BytesAt(ts, at[..j])| == j;
  }

  lemma BytesBefore(ts: seq<Token>, at: seq<nat>, n: nat, w: bytes)
    requires Tokens.Sorted(ts) && n < |ts| && (forall j | 0 <= j < |at| :: at[j] < n) && w in BytesAt(ts, at)
    ensures Less(w, ts[n].Bytes())
  {
  }

  lemma ReturnedBefore(s: Searcher, docs: seq<Document>, ratio: Ratio, h: uint64, kw: Keyword, out: seq<Token>,
                       at: seq<nat>, j: nat)
    requires IndexOf(s.tables, docs, ratio) && h in s.tables.fields && j < |at|
    requires s.FirstInReach(s.tables.fields[h].tokens, kw, out, at)
    ensures Occurs(docs, h, out[j].Bytes()) && InReach(kw, s.maxK, out[j].Bytes())
    ensures BytesAt(s.tables.fields[h].tokens, at)[j] == out[j].Bytes()
  {
    var ts := s.tables.fields[h].tokens;
    assert HasToken(ts, out[j].Bytes(), at[j]);
    AmongIsOccurs(s, docs, ratio, h, out[j].Bytes());
  }

  /** A table in which enough tokens come first has no room for another. */
  lemma NoRoom(s: Searcher, docs: seq<Document>, ratio: Ratio, h: uint64, kw: Keyword, out: seq<Token>, at: seq<nat>,
               n: nat, ws: seq<bytes>)
    requires IndexOf(s.tables, docs, ratio) && h in s.tables.fields && n < |s.tables.fields[h].tokens|
    requires s.FirstInReach(s.tables.fields[h].tokens, kw, out, at) && forall j | 0 <= j < |at| :: at[j] < n
    requires ReachedBefore(docs, h, kw, s.maxK, s.tables.fields[h].tokens[n].Bytes(), ws)
    ensures |out| <= |ws|
  {
    var ts := s.tables.fields[h].tokens;
    var xs := BytesAt(ts, at);
    SortedTokens(s, ratio, h);
    forall x | x in xs
      ensures x in ws
    {
      var j :| 0 <= j < |xs| && xs[j] == x;
      ReturnedBefore(s, docs, ratio, h, kw, out, at, j);
      BytesBefore(ts, at, n, x);
    }
    UpInSorted(ts, at);
    NoMoreThan(xs, ws);
  }

  /** And everything it stands for is returned. */
  lemma StandsIsReturned(s: Searcher, docs: seq<Document>, ratio: Ratio, h: uint64, kw: Keyword, out: seq<Token>,
                         at: seq<nat>, v: bytes)
    requires IndexOf(s.tables, docs, ratio) && h in s.tables.fields && !Occurs(docs, h, kw.value)
    requires s.FirstInReach(s.tables.fields[h].tokens, kw, out, at) && Stands(docs, h, kw, s.maxK, s.m, v)
    ensures Among(out, v)
  {
    var ts := s.tables.fields[h].tokens;
    AmongIsOccurs(s, docs, ratio, h, v);
    var n: nat :| HasToken(ts, v, n);
    if n in at {
      var j: nat :| j < |at| && at[j] == n;
      assert HasToken(out, v, j);
    } else {
      var ws :| |ws| < (if s.m == 0 then 10 else s.m) && ReachedBefore(docs, h, kw, s.maxK, v, ws);
      NoRoom(s, docs, ratio, h, kw, out, at, n, ws);
    }
  }

  lemma OnlyToken(out: seq<Token>, v: bytes)
    requires |out| == 1
    ensures Among(out, v) <==> v == out[0].Bytes()
  {
    assert HasToken(out, out[0].Bytes(), 0);
  }

  lemma ExactIn(s: Searcher, docs: seq<Document>, ratio: Ratio, h: uint64, v: bytes)
    requires IndexOf(s.tables, docs, ratio) && h in s.tables.fields
    ensures Exact(s.tables.fields[h].tokens, v) <==> Occurs(docs, h, v)
  {
    AmongIsOccurs(s, docs, ratio, h, v);
    ExactIsAmong(s.tables.fields[h].tokens, v);
  }

  lemma FuzzyStands(s: Searcher, docs: seq<Document>, ratio: Ratio, h: uint64, kw: Keyword, out: seq<Token>, v: bytes)
    requires IndexOf(s.tables, docs, ratio) && h in s.tables.fields && !Occurs(docs, h, kw.value)
    requires s.ResolvesTo(s.tables.fields[h].tokens, kw, out)
    ensures Among(out, v) <==> Stands(docs, h, kw, s.maxK, s.m, v)
  {
    var ts := s.tables.fields[h].tokens;
    ExactIn(s, docs, ratio, h, kw.value);
    if kw.fuzzy > 0 && s.maxK > 0 && s.m >= 0 {
      var at :| s.FirstInReach(ts, kw, out, at);
      if j: nat :| HasToken(out, v, j) {
        ReturnedStands(s, docs, ratio, h, kw, out, at, j);
      }
      if Stands(docs, h, kw, s.maxK, s.m, v) {
        StandsIsReturned(s, docs, ratio, h, kw, out, at, v);
      }
    }
  }

  /** In every field a keyword resolves to exactly the tokens it stands for, in terms of the documents. */
  lemma KeywordStands(s: Searcher, docs: seq<Document>, ratio: Ratio, h: uint64, kw: Keyword, v: bytes)
    requires IndexOf(s.tables, docs, ratio)
    ensures Among(s.ScopedTokens(h, kw), v) <==> Stands(docs, h, kw, s.maxK, s.m, v)
  {
    if h in s.tables.fields {
      s.KeywordResolves(s.tables.fields[h].tokens, kw);
      if Occurs(docs, h, kw.value) {
        ExactIn(s, docs, ratio, h, kw.value);
        OnlyToken(s.ScopedTokens(h, kw), v);
      } else {
        FuzzyStands(s, docs, ratio, h, kw, s.ScopedTokens(h, kw), v);
      }
    } else {
      AmongIsOccurs(s, docs, ratio, h, kw.value);
      AmongIsOccurs(s, docs, ratio, h, v);
    }
  }

  lemma TokensOfTable(s: Searcher, h: uint64, kw: Keyword)
    requires h in s.tables.fields
    ensures forall t | t in s.ScopedTokens(h, kw) :: t in s.tables.fields[h].tokens
  {
    s.KeywordResolves(s.tables.fields[h].tokens, kw);
  }

  /** Document `d` has a token that the keyword stands for in the field. */
  ghost predicate HasKeyword(docs: seq<Document>, d: uint32, h: uint64, kw: Keyword, maxK: int, m: int) {
    exists v :: Stands(docs, h, kw, maxK, m, v) && Has(docs, d, h, v)
  }

  /** The keyword stands for something in the field. */
  ghost predicate Found(docs: seq<Document>, h: uint64, kw: Keyword, maxK: int, m: int) {
    exists v :: Stands(docs, h, kw, maxK, m, v)
  }

  lemma KeywordHas(s: Searcher, docs: seq<Document>, ratio: Ratio, h: uint64, kw: Keyword, d: uint32)
    requires IndexOf(s.tables, docs, ratio)
    ensures s.Posted(s.ScopedTokens(h, kw), d) <==> HasKeyword(docs, d, h, kw, s.maxK, s.m)
  {
    forall v
      ensures Among(s.ScopedTokens(h, kw), v) <==> Stands(docs, h, kw, s.maxK, s.m, v)
    {
      KeywordStands(s, docs, ratio, h, kw, v);
    }
    if h in s.tables.fields {
      TokensOfTable(s, h, kw);
      PostedIsHas(s, docs, ratio, h, s.ScopedTokens(h, kw), d);
    } else if v :| Stands(docs, h, kw, s.maxK, s.m, v) && Has(docs, d, h, v) {
      HasIsAmong(s, docs, ratio, h, v, d);
    }
  }

  lemma KeywordIsFound(s: Searcher, docs: seq<Document>, ratio: Ratio, h: uint64, kw: Keyword)
    requires IndexOf(s.tables, docs, ratio)
    ensures h in s.tables.fields && s.ScopedTokens(h, kw) != [] <==> Found(docs, h, kw, s.maxK, s.m)
  {
    var ts := s.ScopedTokens(h, kw);
    if ts != [] {
      assert HasToken(ts, ts[0].Bytes(), 0);
      KeywordStands(s, docs, ratio, h, kw, ts[0].Bytes());
    }
    if v :| Stands(docs, h, kw, s.maxK, s.m, v) {
      KeywordStands(s, docs, ratio, h, kw, v);
    }
  }

  /** A keyword that is not searched fuzzily stands for itself. */
  lemma PlainKeyword(docs: seq<Document>, h: uint64, kw: Keyword, maxK: int, m: int, d: uint32)
    requires kw.fuzzy <= 0 || maxK <= 0 || m < 0
    ensures HasKeyword(docs, d, h, kw, maxK, m) <==> Has(docs, d, h, kw.value)
    ensures Found(docs, h, kw, maxK, m) <==> Occurs(docs, h, kw.value)
  {
    if Has(docs, d, h, kw.value) {
      assert Stands(docs, h, kw, maxK, m, kw.value);
    }
    if Occurs(docs, h, kw.value) {
      assert Stands(docs, h, kw, maxK, m, kw.value);
    }
  }
}
