/** storage/storage.go, `PostingLists`: lists kept in memory, or a header table over one region of the file. */
module ListTables {
  import opened Bytes
  import opened Collecting
  import opened Headers

  /** Headers over `reference` once loaded, `entries` when built; loading over built lists keeps both. */
  datatype PostingLists = PostingLists(headers: seq<PostingListHeader>, reference: bytes, entries: seq<bytes>)

  ghost function ListAt(ls: seq<bytes>): nat -> bytes {
    (i: nat) => if i < |ls| then ls[i] else []
  }

  /** The lists end to end. */
  ghost function Join(ls: seq<bytes>, n: nat): bytes {
    Collect(n, ListAt(ls))
  }

  ghost function HeadersOf(ls: seq<bytes>): seq<PostingListHeader> {
    seq(|ls|, i requires 0 <= i < |ls| => PostingListHeader(|Join(ls, i)|, |ls[i]|))
  }

  function SumOfLengths(hs: seq<PostingListHeader>, n: nat): nat
    requires n <= |hs|
  {
    if n == 0 then 0 else SumOfLengths(hs, n - 1) + hs[n - 1].length
  }

  function SumOfSizes(ls: seq<bytes>, n: nat): nat
    requires n <= |ls|
  {
    if n == 0 then 0 else SumOfSizes(ls, n - 1) + |ls[n - 1]|
  }

  ghost predicate GetOk(p: PostingLists, i: nat) {
    if |p.headers| > 0 then i < |p.headers| && p.headers[i].offset + p.headers[i].length <= |p.reference|
        else i < |p.entries|
  }

  /** `Get`; the headers come first. */
  function Get(p: PostingLists, i: nat): bytes
    requires GetOk(p, i)
  {
    if |p.headers| > 0 then p.reference[p.headers[i].offset..p.headers[i].offset + p.headers[i].length]
        else p.entries[i]
  }

  function Len(p: PostingLists): nat {
    if |p.headers| > |p.entries| then |p.headers| else |p.entries|
  }

  /** `DataSize`. */
  method DataSize(p: PostingLists) returns (n: nat)
    ensures n == if |p.headers| > 0 then SumOfLengths(p.headers, |p.headers|) else SumOfSizes(p.entries, |p.entries|)
  {
    n := 0;
    if |p.headers| > 0 {
      for i := 0 to |p.headers|
        invariant n == SumOfLengths(p.headers, i)
      {
        n := n + p.headers[i].length;
      }
      return;
    }
    for i := 0 to |p.entries|
      invariant n == SumOfSizes(p.entries, i)
    {
      n := n + |p.entries[i]|;
    }
  }

  /** `p` holds the lists `ls`; when mapped, through the header table that belongs to them. */
  ghost predicate Holds(p: PostingLists, ls: seq<bytes>) {
    if |p.headers| > 0 then p.headers == HeadersOf(ls) && p.reference == Join(ls, |ls|) && |p.entries| <= |ls|
        else p.entries == ls
  }

  /** Offsets are prefix sums and regions are gap-free, so every list is read back. */
  lemma HoldsGet(p: PostingLists, ls: seq<bytes>, i: nat)
    requires Holds(p, ls) && i < |ls|
    ensures GetOk(p, i) && Get(p, i) == ls[i]
  {
    CollectPiece(i, |ls|, ListAt(ls));
  }

  lemma {:induction false} SizesOfLists(ls: seq<bytes>, n: nat)
    requires n <= |ls|
    ensures SumOfSizes(ls, n) == |Join(ls, n)|
  {
    if n > 0 {
      SizesOfLists(ls, n - 1);
    }
  }

  lemma {:induction false} LengthsOfHeaders(ls: seq<bytes>, n: nat)
    requires n <= |ls|
    ensures SumOfLengths(HeadersOf(ls), n) == |Join(ls, n)|
  {
    if n > 0 {
      LengthsOfHeaders(ls, n - 1);
    }
  }

  /** What a holder of `ls` reports is what `ls` has. */
  lemma HoldsSizes(p: PostingLists, ls: seq<bytes>)
    requires Holds(p, ls)
    ensures Len(p) == |ls|
    ensures |p.headers| > 0 ==> SumOfLengths(p.headers, |p.headers|) == |Join(ls, |ls|)|
    ensures |p.headers| == 0 ==> SumOfSizes(p.entries, |p.entries|) == |Join(ls, |ls|)|
  {
    LengthsOfHeaders(ls, |ls|);
    SizesOfLists(ls, |ls|);
  }

  /** Two regions never overlap, and the last one ends the data. */
  lemma RegionsTile(ls: seq<bytes>, i: nat)
    requires i < |ls|
    ensures HeadersOf(ls)[i].offset == if i == 0 then 0 else HeadersOf(ls)[i - 1].offset + HeadersOf(ls)[i - 1].length
    ensures i == |ls| - 1 ==> HeadersOf(ls)[i].offset + HeadersOf(ls)[i].length == |Join(ls, |ls|)|
  {
  }
}
