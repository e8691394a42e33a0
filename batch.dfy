/** The whole batch of main.js (main.js:67-77): the listing is split into
    one chunk per CPU, each worker processes its chunk, and the lists they
    post are merged by index. Every item's outcomes are given once, for the
    whole listing, and each worker sees those of its own chunk. */
module Batch {

  import opened Wrappers
  import opened Seqs
  import opened Text
  import opened Listing
  import opened Report
  import opened Partition
  import opened Worker
  import opened Merge

  /** The list each worker posts, in worker order (the order of `promises`). */
  function Messages(animeList: seq<Anime>, numCPUs: nat, outcomes: seq<ItemOutcome>, runs: seq<WorkerRun>): (messages: seq<seq<Row>>)
    requires |outcomes| == |animeList| && |runs| == numCPUs
    ensures |messages| == numCPUs
  {
    seq(numCPUs, i requires 0 <= i < numCPUs =>
      WorkerMessage(Chunk(animeList, numCPUs, i), Chunk(outcomes, numCPUs, i), runs[i]))
  }

  /** The rows written to the spreadsheet, in order (main.js:76-85). */
  function BatchReport(animeList: seq<Anime>, numCPUs: nat, outcomes: seq<ItemOutcome>, runs: seq<WorkerRun>): (report: seq<Row>)
    requires |outcomes| == |animeList| && |runs| == numCPUs
    ensures SortedByIndex(report)
    ensures multiset(report) == multiset(Flatten(Messages(animeList, numCPUs, outcomes, runs)))
  {
    MergeResults(Messages(animeList, numCPUs, outcomes, runs))
  }

  /** Every list is strictly ascending and its indices lie in its own band
      [bounds[j], bounds[j + 1]); the bands follow each other. */
  ghost predicate Banded(lists: seq<seq<Row>>, bounds: seq<nat>) {
    && |bounds| == |lists| + 1
    && (forall j :: 0 <= j < |lists| ==> bounds[j] <= bounds[j + 1])
    && (forall j :: 0 <= j < |lists| ==> StrictlySortedByIndex(lists[j]))
    && (forall j, r :: 0 <= j < |lists| && r in lists[j] ==> bounds[j] <= r.index < bounds[j + 1])
  }

  /** Appending a strictly ascending list whose indices lie in [lo, hi) to
      a strictly ascending list below lo gives a strictly ascending list
      below hi. */
  lemma AppendBands(before: seq<Row>, last: seq<Row>, lo: nat, hi: nat)
    requires StrictlySortedByIndex(before) && StrictlySortedByIndex(last)
    requires forall r :: r in before ==> r.index < lo
    requires forall r :: r in last ==> lo <= r.index < hi
    requires lo <= hi
    ensures StrictlySortedByIndex(before + last)
    ensures forall r :: r in before + last ==> r.index < hi
  {
    var rows := before + last;
    forall a, b | 0 <= a < b < |rows|
      ensures rows[a].index < rows[b].index
    {
      if b < |before| {
        assert rows[a] == before[a] && rows[b] == before[b];
      } else if a >= |before| {
        assert rows[a] == last[a - |before|] && rows[b] == last[b - |before|];
      } else {
        assert rows[a] in before && rows[b] in last;
      }
    }
  }

  /** Banded lists flatten to a strictly ascending list; the first i of them
      stay below bounds[i]. */
  lemma {:induction false} FlattenBands(lists: seq<seq<Row>>, bounds: seq<nat>, i: nat)
    requires Banded(lists, bounds) && i <= |lists|
    ensures StrictlySortedByIndex(Flatten(lists[..i]))
    ensures forall r :: r in Flatten(lists[..i]) ==> r.index < bounds[i]
  {
    if i == 0 {
      assert lists[..0] == [];
    } else {
      FlattenBands(lists, bounds, i - 1);
      assert lists[..i] == lists[..i - 1] + [lists[i - 1]];
      FlattenSnoc(lists[..i - 1], lists[i - 1]);
      AppendBands(Flatten(lists[..i - 1]), lists[i - 1], bounds[i - 1], bounds[i]);
    }
  }

  /** In banded lists, an index of band i can only be found in list i. */
  lemma BandMember(lists: seq<seq<Row>>, bounds: seq<nat>, i: nat, p: nat)
    requires Banded(lists, bounds) && i < |lists| && bounds[i] <= p < bounds[i + 1]
    ensures HasIndex(Flatten(lists), p) <==> HasIndex(lists[i], p)
  {
    if HasIndex(Flatten(lists), p) {
      var r :| r in Flatten(lists) && r.index == p;
      FlattenMember(lists, r);
      var i' :| 0 <= i' < |lists| && r in lists[i'];
      assert bounds[i'] <= p < bounds[i' + 1];
      if i' < i {
        BandsOrdered(bounds, i', i);
      } else if i < i' {
        BandsOrdered(bounds, i, i');
      }
    }
    if HasIndex(lists[i], p) {
      var r :| r in lists[i] && r.index == p;
      FlattenMember(lists, r);
    }
  }

  /** The band after band i ends no later than any later band starts. */
  lemma {:induction false} BandsOrdered(bounds: seq<nat>, i: nat, j: nat)
    requires forall k :: 0 <= k < |bounds| - 1 ==> bounds[k] <= bounds[k + 1]
    requires i < j < |bounds|
    ensures bounds[i + 1] <= bounds[j]
    decreases j - i
  {
    if j > i + 1 {
      BandsOrdered(bounds, i, j - 1);
    }
  }

  /** The chunk bounds of the partition, one more than there are CPUs. */
  function ChunkBounds(n: nat, numCPUs: nat): (bounds: seq<nat>)
    requires numCPUs > 0
    ensures |bounds| == numCPUs + 1
    ensures forall j :: 0 <= j <= numCPUs ==> bounds[j] == Bound(n, numCPUs, j)
  {
    seq(numCPUs + 1, j requires 0 <= j <= numCPUs => Bound(n, numCPUs, j))
  }

  /** Worker i posts either nothing or the rows of the segment its chunk
      covers. */
  lemma MessageIsSegment(animeList: seq<Anime>, numCPUs: nat, outcomes: seq<ItemOutcome>, runs: seq<WorkerRun>, i: nat)
    requires |outcomes| == |animeList| && |runs| == numCPUs && i < numCPUs
    ensures var lo, hi := Bound(|animeList|, numCPUs, i), Bound(|animeList|, numCPUs, i + 1);
      && lo <= hi
      && Messages(animeList, numCPUs, outcomes, runs)[i]
         == if runs[i].launchOk && runs[i].closeOk then RunChunk(animeList[lo..hi], outcomes[lo..hi]).rows else []
  {
  }

  /** The workers' lists are banded by the chunk bounds, and every row in
      them is the row of the listing item with its index. */
  lemma {:induction false} MessagesBanded(animeList: seq<Anime>, numCPUs: nat, outcomes: seq<ItemOutcome>, runs: seq<WorkerRun>)
    requires Indexed(animeList) && |outcomes| == |animeList| && |runs| == numCPUs && numCPUs > 0
    ensures Banded(Messages(animeList, numCPUs, outcomes, runs), ChunkBounds(|animeList|, numCPUs))
    ensures forall i, r :: 0 <= i < numCPUs && r in Messages(animeList, numCPUs, outcomes, runs)[i] ==>
      r.index < |animeList| && RowOf(animeList[r.index], outcomes[r.index]) == Some(r)
  {
    var messages := Messages(animeList, numCPUs, outcomes, runs);
    var bounds := ChunkBounds(|animeList|, numCPUs);
    forall i | 0 <= i < numCPUs
      ensures bounds[i] <= bounds[i + 1]
      ensures StrictlySortedByIndex(messages[i])
      ensures forall r: Row :: r in messages[i] ==>
        bounds[i] <= r.index < bounds[i + 1] && RowOf(animeList[r.index], outcomes[r.index]) == Some(r)
    {
      MessageIsSegment(animeList, numCPUs, outcomes, runs, i);
      SegmentSorted(animeList, outcomes, bounds[i], bounds[i + 1]);
      SegmentFaithful(animeList, outcomes, bounds[i], bounds[i + 1]);
    }
  }

  /** The final sort leaves the workers' lists in the order they were
      posted: the report is their concatenation. */
  lemma ReportIsConcatenation(animeList: seq<Anime>, numCPUs: nat, outcomes: seq<ItemOutcome>, runs: seq<WorkerRun>)
    requires Indexed(animeList) && |outcomes| == |animeList| && |runs| == numCPUs
    ensures StrictlySortedByIndex(Flatten(Messages(animeList, numCPUs, outcomes, runs)))
    ensures BatchReport(animeList, numCPUs, outcomes, runs) == Flatten(Messages(animeList, numCPUs, outcomes, runs))
  {
    var messages := Messages(animeList, numCPUs, outcomes, runs);
    if numCPUs > 0 {
      MessagesBanded(animeList, numCPUs, outcomes, runs);
      FlattenBands(messages, ChunkBounds(|animeList|, numCPUs), numCPUs);
      assert messages[..numCPUs] == messages;
    }
    SortKeepsSorted(Flatten(messages));
  }

  /** Discovery order survives the batch: the report is strictly ascending
      by index, so no item appears twice, it is the workers' lists in the
      order they were posted, and every row is the row of the listing item
      with its index. */
  lemma ReportInDiscoveryOrder(animeList: seq<Anime>, numCPUs: nat, outcomes: seq<ItemOutcome>, runs: seq<WorkerRun>)
    requires Indexed(animeList) && |outcomes| == |animeList| && |runs| == numCPUs
    ensures var report := BatchReport(animeList, numCPUs, outcomes, runs);
      && StrictlySortedByIndex(report)
      && report == Flatten(Messages(animeList, numCPUs, outcomes, runs))
      && forall r :: r in report ==> r.index < |animeList| && RowOf(animeList[r.index], outcomes[r.index]) == Some(r)
  {
    var messages := Messages(animeList, numCPUs, outcomes, runs);
    ReportIsConcatenation(animeList, numCPUs, outcomes, runs);
    if numCPUs > 0 {
      MessagesBanded(animeList, numCPUs, outcomes, runs);
      forall r: Row | r in Flatten(messages)
        ensures r.index < |animeList| && RowOf(animeList[r.index], outcomes[r.index]) == Some(r)
      {
        FlattenMember(messages, r);
      }
    }
  }

  /** Item p has a row in the report exactly when it has one in the list of
      worker i, the worker whose chunk holds p. */
  lemma FoundInOwnWorker(animeList: seq<Anime>, numCPUs: nat, outcomes: seq<ItemOutcome>, runs: seq<WorkerRun>, i: nat, p: nat)
    requires Indexed(animeList) && |outcomes| == |animeList| && |runs| == numCPUs
    requires i < numCPUs && Bound(|animeList|, numCPUs, i) <= p < Bound(|animeList|, numCPUs, i + 1)
    ensures HasIndex(BatchReport(animeList, numCPUs, outcomes, runs), p)
      <==> HasIndex(Messages(animeList, numCPUs, outcomes, runs)[i], p)
  {
    ReportIsConcatenation(animeList, numCPUs, outcomes, runs);
    MessagesBanded(animeList, numCPUs, outcomes, runs);
    BandMember(Messages(animeList, numCPUs, outcomes, runs), ChunkBounds(|animeList|, numCPUs), i, p);
  }

  /** Which items the report holds: item p has a row exactly when the worker
      of its chunk launched and closed its browser and p's thumbnail, detail
      and episode-list steps succeeded. */
  lemma ReportHoldsItem(animeList: seq<Anime>, numCPUs: nat, outcomes: seq<ItemOutcome>, runs: seq<WorkerRun>, p: nat)
    requires Indexed(animeList) && |outcomes| == |animeList| && |runs| == numCPUs
    requires numCPUs > 0 && p < |animeList|
    ensures HasIndex(BatchReport(animeList, numCPUs, outcomes, runs), p) <==>
      && runs[ChunkIndex(|animeList|, numCPUs, p)].launchOk
      && runs[ChunkIndex(|animeList|, numCPUs, p)].closeOk
      && RowStepsOk(outcomes[p])
  {
    var n := |animeList|;
    var i := ChunkIndex(n, numCPUs, p);
    var lo, hi := Bound(n, numCPUs, i), Bound(n, numCPUs, i + 1);
    FoundInOwnWorker(animeList, numCPUs, outcomes, runs, i, p);
    MessageIsSegment(animeList, numCPUs, outcomes, runs, i);
    SegmentPresence(animeList, outcomes, lo, hi, p);
  }

  /** A completed item's video is among the files its own worker writes,
      named by the item's position inside its chunk. */
  lemma ItemWritesVideo(animeList: seq<Anime>, numCPUs: nat, outcomes: seq<ItemOutcome>, p: nat)
    requires |outcomes| == |animeList| && numCPUs > 0 && p < |animeList|
    requires ItemEvent(animeList[p], outcomes[p]).Completed?
    ensures var i := ChunkIndex(|animeList|, numCPUs, p);
      VideoFileName(animeList[p].title, ChunkPosition(|animeList|, numCPUs, p))
        in RunChunk(Chunk(animeList, numCPUs, i), Chunk(outcomes, numCPUs, i)).files
  {
    var n := |animeList|;
    var i := ChunkIndex(n, numCPUs, p);
    var j := ChunkPosition(n, numCPUs, p);
    var chunk, outs := Chunk(animeList, numCPUs, i), Chunk(outcomes, numCPUs, i);
    PositionInChunk(animeList, numCPUs, p);
    PositionInChunk(outcomes, numCPUs, p);
    FilesPerItem(chunk, outs);
    var perItem := PerItemFiles(chunk, outs);
    assert perItem[j] == ItemFiles(animeList[p], j, outcomes[p]);
    assert VideoFileName(animeList[p].title, j) in perItem[j];
    FlattenMember(perItem, VideoFileName(animeList[p].title, j));
  }

  /** Video names collide across workers: with at least as many CPUs as
      items, item p goes to worker p at position 0, so two completed items
      with the same title are written by their two workers under the same
      video file name. */
  lemma VideoNamesCollide(animeList: seq<Anime>, numCPUs: nat, outcomes: seq<ItemOutcome>, p: nat, q: nat)
    requires |outcomes| == |animeList| && |animeList| <= numCPUs && p < |animeList| && q < |animeList|
    requires animeList[p].title == animeList[q].title
    requires ItemEvent(animeList[p], outcomes[p]).Completed? && ItemEvent(animeList[q], outcomes[q]).Completed?
    ensures ChunkIndex(|animeList|, numCPUs, p) == p && ChunkIndex(|animeList|, numCPUs, q) == q
    ensures VideoFileName(animeList[p].title, 0) in RunChunk(Chunk(animeList, numCPUs, p), Chunk(outcomes, numCPUs, p)).files
    ensures VideoFileName(animeList[p].title, 0) in RunChunk(Chunk(animeList, numCPUs, q), Chunk(outcomes, numCPUs, q)).files
  {
    OneItemPerChunk(|animeList|, numCPUs, p);
    OneItemPerChunk(|animeList|, numCPUs, q);
    ItemWritesVideo(animeList, numCPUs, outcomes, p);
    ItemWritesVideo(animeList, numCPUs, outcomes, q);
  }

  /** With no CPU reported no worker runs and the report is empty. */
  lemma NoWorkerNoReport(animeList: seq<Anime>, outcomes: seq<ItemOutcome>)
    requires |outcomes| == |animeList|
    ensures BatchReport(animeList, 0, outcomes, []) == []
  {
  }

}
