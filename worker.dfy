/** The worker thread of main.js (main.js:93-256): for every item of its
    chunk it downloads the thumbnail, opens the detail page, reads the episode
    list, appends the report row, then follows the latest episode to the
    player frame and the video and downloads the video. Every network and
    browser step is an outcome given as input. */
module Worker {

  import opened Wrappers
  import opened Seqs
  import opened Text
  import opened Listing
  import opened Report

  /** The steps of one item, in the order they run. */
  datatype Step =
    | ThumbnailDownload   // GET the thumbnail and stream it to its file (main.js:113-131)
    | DetailPage          // open the detail page (main.js:134-137)
    | EpisodeList         // read the episode anchors (main.js:140-146)
    | EpisodePage         // open the latest episode (main.js:160-163)
    | PlayerFrame         // wait for `table iframe` and read its src (main.js:166-169)
    | PlayerPage          // open the frame's page (main.js:172-175)
    | VideoElement        // wait for `#lelevideo` and read its src (main.js:176-180)
    | VideoRequest        // GET the video (main.js:189-193)
    | VideoDownload       // stream the video to its file (main.js:218-237)

  /** The answer to the video GET: it fails, or it carries the parsed
      `content-length` header (None when the header is absent or not a
      number, `parseInt` giving NaN). */
  datatype VideoResponse = RequestFailed | Response(contentLength: Option<int>)

  /** What the network and the browser did for one item: whether each step
      succeeded, and the episode hrefs the list query returned (None when the
      query itself failed). */
  datatype ItemOutcome = ItemOutcome(
    thumbnailOk: bool,
    detailOk: bool,
    episodeHrefs: Option<seq<string>>,
    episodePageOk: bool,
    frameFound: bool,
    playerPageOk: bool,
    videoFound: bool,
    videoResponse: VideoResponse,
    videoWriteOk: bool)

  /** How an item ended: caught at a step (main.js:240-246), video skipped for
      want of a length (main.js:200-205), or completed. */
  datatype Event = Failed(index: nat, step: Step) | VideoSkipped(index: nat) | Completed(index: nat)

  /** What a worker accumulates over its chunk: the rows it will post, one
      event per item, and the files written completely, in order. */
  datatype ChunkLog = ChunkLog(rows: seq<Row>, events: seq<Event>, files: seq<string>)

  /** `!totalLength`: a missing, unparsable or zero length skips the video. */
  predicate LengthKnown(length: Option<int>) {
    length.Some? && length.value != 0
  }

  /** The three steps before the row is appended. */
  predicate RowStepsOk(o: ItemOutcome) {
    o.thumbnailOk && o.detailOk && o.episodeHrefs.Some?
  }

  /** The item got as far as the video request and the request answered. */
  predicate VideoReached(o: ItemOutcome) {
    && RowStepsOk(o)
    && LatestEpisodeLink(o.episodeHrefs.value).Some?
    && o.episodePageOk && o.frameFound && o.playerPageOk && o.videoFound
    && o.videoResponse.Response?
  }

  /** The row of an item, present once its first three steps succeeded. */
  function RowOf(a: Anime, o: ItemOutcome): (row: Option<Row>)
    ensures row.Some? <==> RowStepsOk(o)
    ensures row.Some? ==>
      && row.value.index == a.index && row.value.title == a.title
      && row.value.thumbnail == a.thumbnail && row.value.updateStatus == a.updateStatus
      && row.value.latestEpisodeLink == LatestEpisodeLink(o.episodeHrefs.value)
  {
    if RowStepsOk(o) then
      Some(Row(a.index, a.title, a.thumbnail, a.updateStatus, LatestEpisodeLink(o.episodeHrefs.value)))
    else None
  }

  /** The state machine of one item: the first step that fails, in order,
      ends it. Opening the latest episode fails whenever the link is
      undefined, whatever the browser would do. */
  function ItemEvent(a: Anime, o: ItemOutcome): (e: Event)
    ensures e.index == a.index
    ensures !RowStepsOk(o) <==> e.Failed? && e.step in {ThumbnailDownload, DetailPage, EpisodeList}
    ensures e.VideoSkipped? <==> VideoReached(o) && !LengthKnown(o.videoResponse.contentLength)
    ensures e.Completed? <==> VideoReached(o) && LengthKnown(o.videoResponse.contentLength) && o.videoWriteOk
  {
    if !o.thumbnailOk then Failed(a.index, ThumbnailDownload)
    else if !o.detailOk then Failed(a.index, DetailPage)
    else if o.episodeHrefs.None? then Failed(a.index, EpisodeList)
    else if LatestEpisodeLink(o.episodeHrefs.value).None? || !o.episodePageOk then Failed(a.index, EpisodePage)
    else if !o.frameFound then Failed(a.index, PlayerFrame)
    else if !o.playerPageOk then Failed(a.index, PlayerPage)
    else if !o.videoFound then Failed(a.index, VideoElement)
    else if o.videoResponse.RequestFailed? then Failed(a.index, VideoRequest)
    else if !LengthKnown(o.videoResponse.contentLength) then VideoSkipped(a.index)
    else if !o.videoWriteOk then Failed(a.index, VideoDownload)
    else Completed(a.index)
  }

  /** The files item `a` at chunk position `position` leaves complete: its
      thumbnail once downloaded, and its video when it completes. */
  function ItemFiles(a: Anime, position: nat, o: ItemOutcome): (files: seq<string>)
    ensures |files| <= 2
    ensures !o.thumbnailOk ==> files == []
    ensures o.thumbnailOk ==> |files| >= 1 && files[0] == ImageFileName(a.title)
    ensures |files| == 2 <==> ItemEvent(a, o).Completed?
    ensures |files| == 2 ==> files[1] == VideoFileName(a.title, position)
    ensures ItemEvent(a, o).VideoSkipped? ==> files == [ImageFileName(a.title)]
  {
    if !o.thumbnailOk then []
    else if ItemEvent(a, o).Completed? then [ImageFileName(a.title), VideoFileName(a.title, position)]
    else [ImageFileName(a.title)]
  }

  function OptionToSeq<T>(x: Option<T>): (s: seq<T>)
    ensures |s| <= 1
    ensures x.None? ==> s == []
    ensures x.Some? ==> s == [x.value]
  {
    if x.Some? then [x.value] else []
  }

  /** The log after the items of `chunk`, one after the other. */
  function RunChunk(chunk: seq<Anime>, outcomes: seq<ItemOutcome>): (log: ChunkLog)
    requires |outcomes| == |chunk|
    ensures |log.events| == |chunk|
    ensures |log.rows| <= |chunk|
    ensures |log.files| <= 2 * |chunk|
    decreases |chunk|
  {
    if chunk == [] then ChunkLog([], [], [])
    else
      var n := |chunk| - 1;
      var before := RunChunk(chunk[..n], outcomes[..n]);
      ChunkLog(before.rows + OptionToSeq(RowOf(chunk[n], outcomes[n])),
               before.events + [ItemEvent(chunk[n], outcomes[n])],
               before.files + ItemFiles(chunk[n], n, outcomes[n]))
  }

  lemma RunChunkStep(chunk: seq<Anime>, outcomes: seq<ItemOutcome>, i: nat)
    requires |outcomes| == |chunk| && i < |chunk|
    ensures var before := RunChunk(chunk[..i], outcomes[..i]);
      RunChunk(chunk[..i + 1], outcomes[..i + 1])
      == ChunkLog(before.rows + OptionToSeq(RowOf(chunk[i], outcomes[i])),
                  before.events + [ItemEvent(chunk[i], outcomes[i])],
                  before.files + ItemFiles(chunk[i], i, outcomes[i]))
  {
    assert chunk[..i + 1][..i] == chunk[..i];
    assert outcomes[..i + 1][..i] == outcomes[..i];
  }

  /** The try block for one item (main.js:111-239): each failing step
      throws and ends the item there. The row is appended right after the
      episode list is read, before the episode, player and video steps, so it
      is kept whatever happens to them. */
  method ProcessItem(anime: Anime, i: nat, o: ItemOutcome) returns (row: Option<Row>, event: Event, written: seq<string>)
    ensures row == RowOf(anime, o)
    ensures event == ItemEvent(anime, o)
    ensures written == ItemFiles(anime, i, o)
  {
    row, written := None, [];
    var imageFileName := ImageFileName(anime.title);
    if !o.thumbnailOk {
      return row, Failed(anime.index, ThumbnailDownload), written;
    }
    written := written + [imageFileName];
    if !o.detailOk {
      return row, Failed(anime.index, DetailPage), written;
    }
    if o.episodeHrefs.None? {
      return row, Failed(anime.index, EpisodeList), written;
    }
    var latestEpisodeLink := LatestEpisodeLink(o.episodeHrefs.value);
    row := Some(Row(anime.index, anime.title, anime.thumbnail, anime.updateStatus, latestEpisodeLink));
    if latestEpisodeLink.None? || !o.episodePageOk {
      return row, Failed(anime.index, EpisodePage), written;
    }
    if !o.frameFound {
      return row, Failed(anime.index, PlayerFrame), written;
    }
    if !o.playerPageOk {
      return row, Failed(anime.index, PlayerPage), written;
    }
    if !o.videoFound {
      return row, Failed(anime.index, VideoElement), written;
    }
    var videoFileName := VideoFileName(anime.title, i);
    if o.videoResponse.RequestFailed? {
      return row, Failed(anime.index, VideoRequest), written;
    }
    var totalLength := o.videoResponse.contentLength;
    if !LengthKnown(totalLength) {
      return row, VideoSkipped(anime.index), written;
    }
    if !o.videoWriteOk {
      return row, Failed(anime.index, VideoDownload), written;
    }
    written := written + [videoFileName];
    event := Completed(anime.index);
  }

  /** The item loop of a worker (main.js:104-247): whatever step fails for
      one item, the catch logs it and the loop goes on with the next item. */
  method ProcessChunk(animeList: seq<Anime>, outcomes: seq<ItemOutcome>)
      returns (results: seq<Row>, events: seq<Event>, files: seq<string>)
    requires |outcomes| == |animeList|
    ensures ChunkLog(results, events, files) == RunChunk(animeList, outcomes)
    ensures |events| == |animeList|
    ensures forall i :: 0 <= i < |animeList| ==> events[i] == ItemEvent(animeList[i], outcomes[i])
  {
    results, events, files := [], [], [];
    for i := 0 to |animeList|
      invariant ChunkLog(results, events, files) == RunChunk(animeList[..i], outcomes[..i])
    {
      RunChunkStep(animeList, outcomes, i);
      var row, event, written := ProcessItem(animeList[i], i, outcomes[i]);
      results := results + OptionToSeq(row);
      events := events + [event];
      files := files + written;
    }
    assert animeList[..|animeList|] == animeList;
    assert outcomes[..|outcomes|] == outcomes;
    EventPerItem(animeList, outcomes);
  }

  /** Failure isolation: there is one event per item, in chunk order, and
      the event of item j depends on item j's outcome alone, so a failure
      never stops the items after it. */
  lemma {:induction false} EventPerItem(chunk: seq<Anime>, outcomes: seq<ItemOutcome>)
    requires |outcomes| == |chunk|
    ensures |RunChunk(chunk, outcomes).events| == |chunk|
    ensures forall j :: 0 <= j < |chunk| ==> RunChunk(chunk, outcomes).events[j] == ItemEvent(chunk[j], outcomes[j])
    decreases |chunk|
  {
    if chunk != [] {
      var n := |chunk| - 1;
      EventPerItem(chunk[..n], outcomes[..n]);
    }
  }

  /** A row is appended for an item exactly when its thumbnail, detail and
      episode-list steps succeed: a failure at one of those three ends the
      item without a row, any later failure or a skipped video leaves it. */
  lemma RowIffEarlyStepsOk(a: Anime, o: ItemOutcome)
    ensures RowOf(a, o).Some? <==> !(ItemEvent(a, o).Failed? && ItemEvent(a, o).step in {ThumbnailDownload, DetailPage, EpisodeList})
    ensures ItemEvent(a, o).Completed? ==> RowOf(a, o).Some?
  {
  }

  /** Every row comes from one item of the chunk, and every item whose first
      three steps succeed has its row among them. */
  lemma {:induction false} RowsFromItems(chunk: seq<Anime>, outcomes: seq<ItemOutcome>)
    requires |outcomes| == |chunk|
    ensures forall r :: r in RunChunk(chunk, outcomes).rows ==>
      exists j :: 0 <= j < |chunk| && RowOf(chunk[j], outcomes[j]) == Some(r)
    ensures forall j :: 0 <= j < |chunk| && RowStepsOk(outcomes[j]) ==>
      RowOf(chunk[j], outcomes[j]).value in RunChunk(chunk, outcomes).rows
    decreases |chunk|
  {
    if chunk != [] {
      var n := |chunk| - 1;
      RowsFromItems(chunk[..n], outcomes[..n]);
      var rows := RunChunk(chunk, outcomes).rows;
      var before := RunChunk(chunk[..n], outcomes[..n]).rows;
      forall r | r in rows
        ensures exists j :: 0 <= j < |chunk| && RowOf(chunk[j], outcomes[j]) == Some(r)
      {
        if r in before {
          var j :| 0 <= j < n && RowOf(chunk[..n][j], outcomes[..n][j]) == Some(r);
          assert RowOf(chunk[j], outcomes[j]) == Some(r);
        } else {
          assert RowOf(chunk[n], outcomes[n]) == Some(r);
        }
      }
      forall j | 0 <= j < |chunk| && RowStepsOk(outcomes[j])
        ensures RowOf(chunk[j], outcomes[j]).value in rows
      {
        if j < n {
          assert chunk[..n][j] == chunk[j] && outcomes[..n][j] == outcomes[j];
        }
      }
    }
  }

  /** Rows come out in chunk order: when the chunk's indices increase, so do
      the indices of its rows. */
  lemma {:induction false} RowsInChunkOrder(chunk: seq<Anime>, outcomes: seq<ItemOutcome>)
    requires |outcomes| == |chunk|
    requires forall i, j :: 0 <= i < j < |chunk| ==> chunk[i].index < chunk[j].index
    ensures StrictlySortedByIndex(RunChunk(chunk, outcomes).rows)
    decreases |chunk|
  {
    if chunk != [] {
      var n := |chunk| - 1;
      RowsInChunkOrder(chunk[..n], outcomes[..n]);
      RowsFromItems(chunk[..n], outcomes[..n]);
      var before := RunChunk(chunk[..n], outcomes[..n]).rows;
      forall r | r in before
        ensures r.index < chunk[n].index
      {
        var j :| 0 <= j < n && RowOf(chunk[..n][j], outcomes[..n][j]) == Some(r);
        assert chunk[..n][j] == chunk[j];
      }
      var rows := RunChunk(chunk, outcomes).rows;
      forall i, k | 0 <= i < k < |rows|
        ensures rows[i].index < rows[k].index
      {
        if k >= |before| {
          assert rows[i] in before;
        }
      }
    }
  }

  /** With the chunk's indices distinct, an index has a row exactly when
      that item's first three steps succeed. */
  lemma RowPresence(chunk: seq<Anime>, outcomes: seq<ItemOutcome>, j: nat)
    requires |outcomes| == |chunk| && j < |chunk|
    requires forall i, k :: 0 <= i < |chunk| && 0 <= k < |chunk| && i != k ==> chunk[i].index != chunk[k].index
    ensures HasIndex(RunChunk(chunk, outcomes).rows, chunk[j].index) <==> RowStepsOk(outcomes[j])
  {
    RowsFromItems(chunk, outcomes);
    var rows := RunChunk(chunk, outcomes).rows;
    if HasIndex(rows, chunk[j].index) {
      var r :| r in rows && r.index == chunk[j].index;
      var i :| 0 <= i < |chunk| && RowOf(chunk[i], outcomes[i]) == Some(r);
      assert i == j;
    }
    if RowStepsOk(outcomes[j]) {
      assert RowOf(chunk[j], outcomes[j]).value in rows;
    }
  }

  /** The items of a segment [lo, hi) of an indexed listing carry the
      indices lo, lo + 1, ..., so they increase along the segment. */
  lemma SegmentIndices(animeList: seq<Anime>, lo: nat, hi: nat)
    requires Indexed(animeList) && lo <= hi <= |animeList|
    ensures forall j :: 0 <= j < hi - lo ==> animeList[lo..hi][j].index == lo + j
    ensures forall i, k :: 0 <= i < k < hi - lo ==> animeList[lo..hi][i].index < animeList[lo..hi][k].index
  {
  }

  /** Run on a segment of an indexed listing, a worker's rows are strictly
      ascending by index. */
  lemma SegmentSorted(animeList: seq<Anime>, outcomes: seq<ItemOutcome>, lo: nat, hi: nat)
    requires Indexed(animeList) && |outcomes| == |animeList| && lo <= hi <= |animeList|
    ensures StrictlySortedByIndex(RunChunk(animeList[lo..hi], outcomes[lo..hi]).rows)
  {
    SegmentIndices(animeList, lo, hi);
    RowsInChunkOrder(animeList[lo..hi], outcomes[lo..hi]);
  }

  /** Run on the segment [lo, hi) of an indexed listing, a worker's rows
      carry indices of the segment only, and each is the row of the listing
      item with its index. */
  lemma SegmentFaithful(animeList: seq<Anime>, outcomes: seq<ItemOutcome>, lo: nat, hi: nat)
    requires Indexed(animeList) && |outcomes| == |animeList| && lo <= hi <= |animeList|
    ensures forall r :: r in RunChunk(animeList[lo..hi], outcomes[lo..hi]).rows ==>
      lo <= r.index < hi && RowOf(animeList[r.index], outcomes[r.index]) == Some(r)
  {
    RowsFromItems(animeList[lo..hi], outcomes[lo..hi]);
    forall r | r in RunChunk(animeList[lo..hi], outcomes[lo..hi]).rows
      ensures lo <= r.index < hi && RowOf(animeList[r.index], outcomes[r.index]) == Some(r)
    {
      SegmentItemRow(animeList, outcomes, lo, hi, r);
    }
  }

  /** A row made from an item of a segment is the row of the listing item
      with its index, which lies in the segment. */
  lemma SegmentItemRow(animeList: seq<Anime>, outcomes: seq<ItemOutcome>, lo: nat, hi: nat, r: Row)
    requires Indexed(animeList) && |outcomes| == |animeList| && lo <= hi <= |animeList|
    requires exists j :: 0 <= j < hi - lo && RowOf(animeList[lo..hi][j], outcomes[lo..hi][j]) == Some(r)
    ensures lo <= r.index < hi && RowOf(animeList[r.index], outcomes[r.index]) == Some(r)
  {
    var j :| 0 <= j < hi - lo && RowOf(animeList[lo..hi][j], outcomes[lo..hi][j]) == Some(r);
    assert animeList[lo..hi][j] == animeList[lo + j];
  }

  /** Run on the segment [lo, hi) of an indexed listing, index p of the
      segment has a row exactly when p's first three steps succeed. */
  lemma SegmentPresence(animeList: seq<Anime>, outcomes: seq<ItemOutcome>, lo: nat, hi: nat, p: nat)
    requires Indexed(animeList) && |outcomes| == |animeList| && lo <= p < hi <= |animeList|
    ensures HasIndex(RunChunk(animeList[lo..hi], outcomes[lo..hi]).rows, p) <==> RowStepsOk(outcomes[p])
  {
    var chunk, outs := animeList[lo..hi], outcomes[lo..hi];
    SegmentIndices(animeList, lo, hi);
    RowPresence(chunk, outs, p - lo);
    assert chunk[p - lo].index == p && outs[p - lo] == outcomes[p];
  }

  /** The row steps' outcomes decide the rows: whatever later steps and the
      content length do, the worker posts the same rows. */
  lemma {:induction false} LateOutcomesIrrelevant(chunk: seq<Anime>, outcomes: seq<ItemOutcome>, others: seq<ItemOutcome>)
    requires |outcomes| == |chunk| && |others| == |chunk|
    requires forall j :: 0 <= j < |chunk| ==>
      outcomes[j].thumbnailOk == others[j].thumbnailOk && outcomes[j].detailOk == others[j].detailOk
      && outcomes[j].episodeHrefs == others[j].episodeHrefs
    ensures RunChunk(chunk, outcomes).rows == RunChunk(chunk, others).rows
    decreases |chunk|
  {
    if chunk != [] {
      var n := |chunk| - 1;
      LateOutcomesIrrelevant(chunk[..n], outcomes[..n], others[..n]);
    }
  }

  /** The files of each item of the chunk, item j's named with its chunk
      position j. */
  function PerItemFiles(chunk: seq<Anime>, outcomes: seq<ItemOutcome>): (perItem: seq<seq<string>>)
    requires |outcomes| == |chunk|
    ensures |perItem| == |chunk|
    ensures forall j :: 0 <= j < |chunk| ==> perItem[j] == ItemFiles(chunk[j], j, outcomes[j])
  {
    seq(|chunk|, j requires 0 <= j < |chunk| => ItemFiles(chunk[j], j, outcomes[j]))
  }

  /** The loop's files are, in chunk order, the files each item writes:
      item j's thumbnail and, on completion, its video named by position j. */
  lemma {:induction false} FilesPerItem(chunk: seq<Anime>, outcomes: seq<ItemOutcome>)
    requires |outcomes| == |chunk|
    ensures RunChunk(chunk, outcomes).files == Flatten(PerItemFiles(chunk, outcomes))
    decreases |chunk|
  {
    if chunk != [] {
      var n := |chunk| - 1;
      FilesPerItem(chunk[..n], outcomes[..n]);
      var before := PerItemFiles(chunk[..n], outcomes[..n]);
      var all := PerItemFiles(chunk, outcomes);
      assert all == before + [ItemFiles(chunk[n], n, outcomes[n])];
      FlattenSnoc(before, ItemFiles(chunk[n], n, outcomes[n]));
    }
  }

  /** Every file the worker writes has a name free of `/ : * ? " < > |`. */
  lemma {:induction false} FilesAreSafe(chunk: seq<Anime>, outcomes: seq<ItemOutcome>)
    requires |outcomes| == |chunk|
    ensures forall f :: f in RunChunk(chunk, outcomes).files ==> IsSafe(f)
    decreases |chunk|
  {
    if chunk != [] {
      var n := |chunk| - 1;
      FilesAreSafe(chunk[..n], outcomes[..n]);
    }
  }

  /** Whether the worker got its browser (main.js:97-102) and closed it
      (main.js:249); both run inside the outer try. */
  datatype WorkerRun = WorkerRun(launchOk: bool, closeOk: bool)

  /** The list a worker posts: its rows, or `[]` when the outer try fails
      (main.js:250-253). */
  function WorkerMessage(chunk: seq<Anime>, outcomes: seq<ItemOutcome>, run: WorkerRun): (message: seq<Row>)
    requires |outcomes| == |chunk|
    ensures !(run.launchOk && run.closeOk) ==> message == []
    ensures forall r :: r in message ==> exists j :: 0 <= j < |chunk| && RowOf(chunk[j], outcomes[j]) == Some(r)
    ensures run.launchOk && run.closeOk ==>
      forall j :: 0 <= j < |chunk| && RowStepsOk(outcomes[j]) ==> RowOf(chunk[j], outcomes[j]).value in message
  {
    RowsFromItems(chunk, outcomes);
    if run.launchOk && run.closeOk then RunChunk(chunk, outcomes).rows else []
  }

  /** One worker (main.js:93-256): the item loop runs only once the browser is
      up; a failure outside the loop, including closing the browser after it,
      makes the worker post `[]` and drops the rows it had. */
  method RunWorker(animeList: seq<Anime>, outcomes: seq<ItemOutcome>, run: WorkerRun)
      returns (message: seq<Row>, events: seq<Event>)
    requires |outcomes| == |animeList|
    ensures !run.launchOk ==> message == [] && events == []
    ensures run.launchOk ==> events == RunChunk(animeList, outcomes).events
    ensures message == WorkerMessage(animeList, outcomes, run)
    ensures run.launchOk && run.closeOk ==> message == RunChunk(animeList, outcomes).rows
  {
    if !run.launchOk {
      return [], [];
    }
    var results, files;
    results, events, files := ProcessChunk(animeList, outcomes);
    if !run.closeOk {
      return [], events;
    }
    message := results;
  }

}
