/** Work partitioning of main.js (main.js:67-73): the discovered list is cut
    into `numCPUs` contiguous slices of `ceil(N / numCPUs)` items each; the
    last slices may be short or empty. */
module Partition {

  import opened Seqs

  /** `Math.ceil(n / k)` for a positive `k`. */
  function CeilDiv(n: nat, k: nat): (c: nat)
    requires k > 0
    ensures c * k >= n
    ensures n > 0 ==> (c - 1) * k < n
    ensures n == 0 ==> c == 0
    ensures n > 0 ==> c > 0
  {
    (n + k - 1) / k
  }

  /** `s.slice(start, end)` for non-negative arguments: both ends are clamped
      to the length, and a start at or past the end gives the empty list. */
  function Slice<T>(s: seq<T>, start: nat, end: nat): (r: seq<T>)
    ensures start <= end ==> r == s[Min(start, |s|)..Min(end, |s|)]
    ensures start >= |s| ==> r == []
    ensures end <= start ==> r == []
  {
    var b := Min(start, |s|);
    var e := Min(end, |s|);
    if b <= e then s[b..e] else []
  }

  /** Where chunk i starts: `i * chunkSize`, clamped to the list. */
  function Bound(n: nat, k: nat, i: nat): (b: nat)
    requires k > 0
    ensures b <= n
  {
    Min(i * CeilDiv(n, k), n)
  }

  lemma BoundMonotone(n: nat, k: nat, i: nat, j: nat)
    requires k > 0 && i <= j
    ensures Bound(n, k, i) <= Bound(n, k, j)
  {
    var c := CeilDiv(n, k);
    assert i * c <= j * c by {
      assert j * c == i * c + (j - i) * c;
    }
  }

  /** The last bound is the end of the list: the chunks cover everything. */
  lemma BoundAtEnd(n: nat, k: nat)
    requires k > 0
    ensures Bound(n, k, k) == n
  {
  }

  /** Chunk i, `animeList.slice(i * chunkSize, (i + 1) * chunkSize)`: the
      part of the list between two consecutive bounds. */
  function Chunk<T>(list: seq<T>, k: nat, i: nat): (chunk: seq<T>)
    requires k > 0
    ensures Bound(|list|, k, i) <= Bound(|list|, k, i + 1)
    ensures chunk == list[Bound(|list|, k, i)..Bound(|list|, k, i + 1)]
  {
    var c := CeilDiv(|list|, k);
    assert (i + 1) * c == i * c + c;
    BoundMonotone(|list|, k, i, i + 1);
    Slice(list, i * c, (i + 1) * c)
  }

  /** A chunk holds at most `ceil(N / k)` items, and none once it starts
      past the end of the list. */
  lemma ChunkBetweenBounds<T>(list: seq<T>, k: nat, i: nat)
    requires k > 0
    ensures |Chunk(list, k, i)| <= CeilDiv(|list|, k)
    ensures i * CeilDiv(|list|, k) >= |list| ==> Chunk(list, k, i) == []
  {
    var c := CeilDiv(|list|, k);
    assert (i + 1) * c == i * c + c;
  }

  /** The chunk that holds position p, `p / ceil(N / k)`: it exists and p
      lies between its bounds. */
  function ChunkIndex(n: nat, k: nat, p: nat): (i: nat)
    requires k > 0 && p < n
    ensures i < k
    ensures Bound(n, k, i) <= p < Bound(n, k, i + 1)
  {
    var c := CeilDiv(n, k);
    var i := p / c;
    assert p == i * c + p % c;
    assert (i + 1) * c == i * c + c;
    i
  }

  /** Where position p sits inside its chunk, counted from 0: the position
      a worker numbers the item's video by. */
  function ChunkPosition(n: nat, k: nat, p: nat): (j: nat)
    requires k > 0 && p < n
    ensures j < CeilDiv(n, k)
    ensures Bound(n, k, ChunkIndex(n, k, p)) + j == p
  {
    var i := ChunkIndex(n, k, p);
    assert (i + 1) * CeilDiv(n, k) == i * CeilDiv(n, k) + CeilDiv(n, k);
    p - Bound(n, k, i)
  }

  /** The item at position p is the one at its chunk position in its chunk. */
  lemma PositionInChunk<T>(list: seq<T>, k: nat, p: nat)
    requires k > 0 && p < |list|
    ensures ChunkPosition(|list|, k, p) < |Chunk(list, k, ChunkIndex(|list|, k, p))|
    ensures Chunk(list, k, ChunkIndex(|list|, k, p))[ChunkPosition(|list|, k, p)] == list[p]
  {
  }

  /** With at least as many CPUs as items, every chunk holds one item or
      none, so every item sits at position 0 of its chunk. */
  lemma {:induction false} OneItemPerChunk(n: nat, k: nat, p: nat)
    requires 0 < n <= k && p < n
    ensures CeilDiv(n, k) == 1
    ensures ChunkIndex(n, k, p) == p
    ensures ChunkPosition(n, k, p) == 0
  {
    var a := n + k - 1;
    assert a == k + (n - 1) && n - 1 < k;
    assert a / k == 1;
    assert ChunkIndex(n, k, p) == p / 1 == p;
  }

  /** Concatenating the first i chunks gives the list up to bound i. */
  lemma {:induction false} ChunksPrefix<T>(list: seq<T>, k: nat, chunks: seq<seq<T>>, i: nat)
    requires k > 0 && i <= |chunks|
    requires forall j :: 0 <= j < i ==> chunks[j] == Chunk(list, k, j)
    ensures Flatten(chunks[..i]) == list[..Bound(|list|, k, i)]
  {
    if i > 0 {
      ChunksPrefix(list, k, chunks, i - 1);
      ChunkBetweenBounds(list, k, i - 1);
      assert chunks[..i] == chunks[..i - 1] + [chunks[i - 1]];
      FlattenSnoc(chunks[..i - 1], chunks[i - 1]);
    }
  }

  /** The chunks, in order, give back the list exactly, and none holds
      more than `ceil(N / k)` items. */
  lemma ChunksCover<T>(list: seq<T>, k: nat, chunks: seq<seq<T>>)
    requires k > 0 && |chunks| == k
    requires forall j :: 0 <= j < k ==> chunks[j] == Chunk(list, k, j)
    ensures forall j :: 0 <= j < k ==> |chunks[j]| <= CeilDiv(|list|, k)
    ensures Flatten(chunks) == list
  {
    forall j | 0 <= j < k
      ensures |chunks[j]| <= CeilDiv(|list|, k)
    {
      ChunkBetweenBounds(list, k, j);
    }
    ChunksPrefix(list, k, chunks, k);
    assert chunks[..k] == chunks;
  }

  /** The partition loop (main.js:67-73). One chunk per CPU, each the slice
      of the list that the CPU's worker receives; in order they give back the
      list exactly, every item once. With no CPU reported the loop does not
      run and no chunk is made. */
  method Split<T>(animeList: seq<T>, numCPUs: nat) returns (chunks: seq<seq<T>>)
    ensures |chunks| == numCPUs
    ensures forall i :: 0 <= i < numCPUs ==> chunks[i] == Chunk(animeList, numCPUs, i)
    ensures numCPUs > 0 ==> Flatten(chunks) == animeList
    ensures numCPUs > 0 ==> forall i :: 0 <= i < numCPUs ==> |chunks[i]| <= CeilDiv(|animeList|, numCPUs)
  {
    // With no CPU, `Math.ceil(N / 0)` is never used: the loop does not run.
    var chunkSize := if numCPUs == 0 then 0 else CeilDiv(|animeList|, numCPUs);
    chunks := [];
    for i := 0 to numCPUs
      invariant |chunks| == i
      invariant forall j :: 0 <= j < i ==> chunks[j] == Chunk(animeList, numCPUs, j)
    {
      var chunk := Slice(animeList, i * chunkSize, (i + 1) * chunkSize);
      chunks := chunks + [chunk];
    }
    if numCPUs > 0 {
      ChunksCover(animeList, numCPUs, chunks);
    }
  }

}
