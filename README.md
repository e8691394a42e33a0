# node-pachong: a verified model of the scraper's core

node-pachong scrapes the Japanese-animation catalog page of
`https://www.857yhdm.com`. This project models the deterministic core of its
two scrapers in Dafny and proves properties of that model.

`main.js` is the parallel scraper. It reads the first two catalog boxes into
indexed items and cuts the list into one contiguous chunk per CPU. Each chunk
has at most `ceil(N / numCPUs)` items, and the last chunks may be short or
empty. Every worker thread then handles its chunk item by
item:

- it downloads the thumbnail to `<sanitised title>.jpg`;
- it opens the detail page, reads the episode anchors and appends a report row
  holding the last episode's absolute link;
- it follows that episode to the player frame and the `#lelevideo` element;
- it downloads the video to `<sanitised title> 第<n>集.mp4`, where `<n>` is
  the item's position in its chunk plus one. Two items with the same title
  at the same position of different chunks therefore get the same video name.

A step that fails with an error the item's `catch` receives ends only that
item. A download stream that breaks mid-transfer is an exception, described
under "## Left out". A missing content length skips the video.
A failure outside the item loop, including closing the browser, makes the
worker post an empty list. The main thread flattens the workers' lists and
sorts them by index to form the report.

`dongman.js` is the sequential variant. It reads up to twenty boxes, with the
status text trimmed, and visits each detail page. It builds one JSON entry per
item, with `""` where there is no episode. A failed navigation aborts the run.

The network, the browser, the file system and the thread pool are not
modelled. What they answer is an input: a `Box` per catalog element, an
`ItemOutcome` per item, a `WorkerRun` per worker, and an optional episode list
per dongman.js page.

Modules:

- `Wrappers`: `Option`.
- `Seqs`: `Flatten`, which models `Array.prototype.flat`.
- `Text`: the title sanitiser, the file names, decimal rendering and `String.prototype.trim`.
- `Dom`: the records a page query yields.
- `Listing`: the catalog extraction and the latest-episode choice of main.js.
- `Partition`: the chunking.
- `Worker`: the item state machine, the item loop and the worker.
- `Report` and `Merge`: the report rows and the merge.
- `Batch`: the whole batch.
- `Dongman`: dongman.js.

## Model

| member | source | states |
|---|---|---|
| Text.Sanitise | main.js:113-116 | the result has the title's length, every forbidden character `/ : * ? " < > \|` becomes `_`, every other character is kept, and no forbidden character remains |
| Text.SanitiseIdempotent | main.js:113-116 | sanitising a sanitised title changes nothing |
| Text.SanitiseKeepsSafe | main.js:181-184 | a title already free of forbidden characters is left unchanged |
| Text.Decimal | main.js:184 | the rendering of a number is a non-empty string of decimal digits |
| Text.DecimalRoundTrip | main.js:184 | reading the decimal rendering back gives the number |
| Text.DecimalInjective | main.js:184 | different numbers render differently |
| Text.ImageFileName | main.js:113-117 | the image name is the sanitised title followed by `.jpg`, has no forbidden character, and its length is the title's plus four |
| Text.VideoFileName | main.js:181-185 | the video name is the sanitised title, ` 第`, the decimal of position + 1 and `集.mp4`, and has no forbidden character |
| Text.VideoFileNamesDistinct | main.js:181-184 | two positions in one chunk give different video names for the same title |
| Text.Leading | dongman.js:34 | the counted prefix is whitespace only and the next character is not whitespace |
| Text.Trailing | dongman.js:34 | the counted suffix is whitespace only and the character before it is not whitespace |
| Text.Trim | dongman.js:34 | the result is a contiguous part of the input, only whitespace is removed on either side, and the result neither starts nor ends with whitespace |
| Text.TrimIdempotent | dongman.js:34 | trimming twice is trimming once |
| Text.TrimCases | dongman.js:34 | a string without whitespace at either end is kept whole, and an all-whitespace string becomes empty |
| Dom.OrEmpty | main.js:56-58 | an absent element reads as `""`, and a present one as its value |
| Listing.FromBox | main.js:51-60 | the item carries the given index, the thumbnail and the status or `""`, and the anchor's title and href, both `""` without an anchor |
| Listing.ExtractListing | main.js:49-62 | at most two items, in box order, each built from its own box and indexed by its position |
| Listing.EpisodeLinks | main.js:140-146 | one link per anchor, in order, each the origin followed by the anchor's href |
| Listing.LatestEpisodeLink | main.js:147-148 | the latest link is undefined exactly when there is no anchor, and otherwise is the origin followed by the last anchor's href |
| Listing.LatestFollowsAppend | main.js:147-148 | appending an anchor makes it the latest, whatever came before |
| Partition.CeilDiv | main.js:68 | the chunk size is the least number c with c × numCPUs ≥ N, and positive for a non-empty list |
| Partition.Slice | main.js:71 | `slice` clamps both ends to the list, and a start at or past the end, or an end at or before the start, gives `[]` |
| Partition.Bound | main.js:71 | a chunk boundary never lies past the end of the list |
| Partition.BoundMonotone | main.js:68-71 | chunk boundaries never decrease |
| Partition.BoundAtEnd | main.js:68-73 | the boundary after the last CPU's chunk is the end of the list |
| Partition.Chunk | main.js:71 | chunk i is exactly the part of the list between boundaries i and i + 1 |
| Partition.ChunkBetweenBounds | main.js:68-71 | a chunk holds at most `ceil(N / numCPUs)` items, and none when it starts past the end |
| Partition.ChunkIndex | main.js:68-71 | position p lies in chunk `p / ceil(N / numCPUs)`, which is one of the numCPUs chunks |
| Partition.ChunkPosition | main.js:106-107 | an item's position inside its chunk is below the chunk size, and its chunk's start plus that position is its listing position |
| Partition.PositionInChunk | main.js:71 | the chunk holding item p has it at p's chunk position |
| Partition.OneItemPerChunk | main.js:68-71 | with at least as many CPUs as items, the chunk size is 1 and every item is at position 0 of its chunk |
| Partition.ChunksPrefix | main.js:70-72 | the first i chunks, concatenated, are the list up to boundary i |
| Partition.ChunksCover | main.js:67-73 | all the chunks, concatenated, are the whole list, and none exceeds the chunk size |
| Partition.Split | main.js:67-73 | the loop makes one chunk per CPU, chunk i is `Chunk(i)`, and with at least one CPU the chunks concatenate to the list with none larger than the chunk size |
| Worker.ItemEvent | main.js:111-246 | the event carries the item's index; the item fails at one of the first three steps exactly when those steps did not all succeed; the video is skipped exactly when the item reached an answered video request without a usable length; the item completes exactly when it had a length and the file was written |
| Worker.ItemFiles | main.js:113-131 | without the thumbnail no file is written; otherwise the image comes first; a second file, the video named by the chunk position, exists exactly when the item completes; a skipped video leaves the image alone |
| Worker.RunChunk | main.js:104-247 | running a chunk gives one event per item, at most one row per item and at most two files per item |
| Worker.PerItemFiles | main.js:106-107 | one file list per item of the chunk, item j's being the files it writes at chunk position j |
| Worker.FilesPerItem | main.js:106-237 | the loop's files are, in chunk order, the files each item writes, with item j's video named by its position j |
| Worker.RowOf | main.js:150-157 | an item has a row exactly when its thumbnail, detail and episode-list steps succeed, and the row copies the item's index, title, thumbnail and status and holds the latest link |
| Worker.ProcessItem | main.js:111-239 | the item's try block gives the item's row, its event and the files it completes |
| Worker.ProcessChunk | main.js:104-247 | the loop's rows, events and files are those of running the items in chunk order, with one event per item that depends on that item's outcome alone |
| Worker.EventPerItem | main.js:240-246 | one event per item, in order, and item j's event depends only on item j's outcome, so a failure never stops the items after it |
| Worker.RowIffEarlyStepsOk | main.js:150-163 | a row exists exactly when the item did not fail at the thumbnail, detail or episode-list step, and a completed item always has one |
| Worker.RowsFromItems | main.js:150-157 | every row comes from an item of the chunk, and every item whose first three steps succeed has its row |
| Worker.RowsInChunkOrder | main.js:106-157 | with the chunk's indices increasing, the rows' indices strictly increase |
| Worker.RowPresence | main.js:106-157 | with no index repeated in the chunk, an item's index is among the rows exactly when its first three steps succeed |
| Worker.SegmentSorted | main.js:71 | a worker's rows for a segment of the listing strictly increase by index |
| Worker.SegmentFaithful | main.js:71 | a worker's rows for a segment carry indices of that segment only, each the row of the listing item with that index |
| Worker.SegmentPresence | main.js:71 | a position of the segment has a row exactly when its first three steps succeed |
| Worker.LateOutcomesIrrelevant | main.js:150-157 | the rows depend only on the thumbnail, detail and episode-list outcomes, not on the episode, player or video steps |
| Worker.FilesAreSafe | main.js:113-118 | no file the worker writes has a forbidden character in its name |
| Worker.WorkerMessage | main.js:249-253 | a worker that fails outside the loop posts `[]`; every posted row is the row of an item of its chunk; a worker that closes its browser posts the row of every item whose first three steps succeeded |
| Worker.RunWorker | main.js:93-256 | without a browser, no event and an empty message; otherwise the chunk's events; and the message is the rows only when the browser also closes, else `[]` |
| Merge.InsertByIndex | main.js:77 | insertion adds the row once and keeps the others |
| Merge.SortByIndex | main.js:77 | the sorted list is ascending by index and is a permutation of the input |
| Merge.SortStrict | main.js:77 | without repeated indices the sorted list is strictly ascending |
| Merge.MergeResults | main.js:76-77 | the report is the workers' rows, each as often as posted, ascending by index, and strictly so when no index repeats |
| Merge.SortKeepsSorted | main.js:77 | sorting an ascending list leaves it unchanged |
| Merge.SortedPermutationsEqual | main.js:77 | two ascending orderings of the same rows with distinct indices are equal, so the sorted report is unique |
| Merge.MergeOrderIndependent | main.js:76-77 | with distinct indices, the report does not depend on the order of the workers' lists |
| Seqs.Flatten | main.js:77 | flattening no lists gives `[]`, and flattening one list gives that list |
| Seqs.FlattenAppend | main.js:77 | flattening two runs of lists one after the other concatenates their flattenings |
| Seqs.FlattenMember | main.js:77 | a row is in the flattened list exactly when it is in one of the workers' lists |
| Seqs.FlattenPermutation | main.js:76-77 | rearranging the lists does not change the flattened rows as a multiset |
| Batch.Messages | main.js:67-76 | there is one message per CPU |
| Batch.MessageIsSegment | main.js:71-72 | worker i posts the rows of the listing segment between boundaries i and i + 1, or `[]` |
| Batch.MessagesBanded | main.js:67-77 | each worker's list is strictly ascending, lies within its own chunk's band, and holds only the listing's rows |
| Batch.BatchReport | main.js:67-85 | the report is ascending by index and holds exactly the rows the workers posted, each as often as posted |
| Batch.ReportIsConcatenation | main.js:76-77 | the final sort leaves the workers' lists in the order posted: the report is their concatenation |
| Batch.ReportInDiscoveryOrder | main.js:67-85 | the report is strictly ascending by index, so no item appears twice; it equals the flattened messages; each row is the row of the listing item with its index |
| Batch.FoundInOwnWorker | main.js:70-77 | an item is in the report exactly when it is in its own worker's list |
| Batch.ReportHoldsItem | main.js:67-77 | item p is in the report exactly when its chunk's worker launched and closed its browser and p's first three steps succeeded |
| Batch.ItemWritesVideo | main.js:181-237 | a completed item's video is among the files its own worker writes, named by the item's position inside its chunk |
| Batch.VideoNamesCollide | main.js:181-185 | with at least as many CPUs as items, item p goes to worker p; two completed items with the same title are then written by their two workers under the same video file name, with number 1 |
| Batch.NoWorkerNoReport | main.js:67-77 | with zero CPUs the report is empty |
| Dongman.ExtractListing | dongman.js:24-40 | at most twenty items, in box order, each built from its own box |
| Dongman.FromBox | dongman.js:28-38 | the item's thumbnail is the image or `""`, and its status the trimmed label or `""`; without an anchor, title and detail URL are `""`; with one, the title is the anchor's and the detail URL is the resolved, non-empty `new URL(href, origin).href` |
| Dongman.ListingFields | dongman.js:28-38 | a missing title, image or status reads as `""`; a status is trimmed; the detail URL is empty exactly when the box has no title anchor |
| Dongman.LatestLinkAgrees | dongman.js:54-62 | dongman.js picks main.js's link whenever there is an episode, and `""` where main.js has `undefined` |
| Dongman.LatestLink | dongman.js:54-62 | the link is `""` without an episode anchor, and otherwise the origin followed by the last anchor's href |
| Dongman.BuildJson | dongman.js:43-76 | JSON exists exactly when every detail page opened; it then has one entry per item, in order, copying title, thumbnail and status, with the item's latest link |

## Left out

- script.js is not part of this model.
- Puppeteer, axios streaming, the progress bar, the random waits and the console output are not modelled. Their effects are the outcome inputs.
- The date-named output folder, the XLSX workbook and its column layout, and the JSON serialisation are left out. The model stops at the ordered rows and the entries.
- Worker.ItemFiles: partial files are not tracked. The image stream is opened before the download, and a failed request can leave an empty file.
- `thumbnailOk` and `videoWriteOk` model a request failure, or a write error once the writer's `error` listener is attached. Three outcomes are not captured:
  - A download that breaks mid-transfer. The downloads are piped into the writer (main.js:124, main.js:222), and `pipe` does not pass an error of the download stream on to the writer, so the item never reaches its `catch`. The worker hangs or dies on the unhandled error, never posts its list, and no report is written.
  - A download that ends early without an error. The writer finishes, and the cut-short file counts as complete.
  - An image file that cannot be opened. Its writer is created at main.js:118, but its `error` listener is attached only at main.js:130, after the `await` at main.js:119. An open failure, such as a sanitised title too long for a file name, is therefore an uncaught error: the worker dies, `runWorker` rejects (main.js:266) and no report is written. The video writer's listeners are attached in the same tick as its creation (main.js:218-231), so it has no such gap.
- An item whose box has no title anchor has the detail URL `""`. `page.goto("")` always throws, so in main.js the item fails at the detail page and in dongman.js the run aborts. The model does not force this: `detailOk` and the dongman.js page outcome stay free inputs for such an item.
- `getAttribute` returning `null` is not modelled. A present element is taken to yield a string.
- `new URL(href, origin).href` in dongman.js is the parameter `resolve`. Its result is only required to be non-empty.
- Page navigation is otherwise not modelled. `page.goto(undefined)` for an item without episodes counts as a failure at the episode-page step.
- The thread pool and `Promise.all` are left out, and each worker's message is taken as delivered. In main.js, a worker that exits abnormally makes `runWorker` reject; `Promise.all` then rejects and no report is written at all. Only the failures the worker catches itself, which end in `postMessage([])`, are modelled.
- Merge.SortByIndex: the stability of `Array.prototype.sort` is not stated. Indices in a report are distinct, and for distinct indices the sorted result is proved unique (Merge.SortedPermutationsEqual).
- `os.cpus().length` is a parameter `numCPUs`. With zero CPUs, `Math.ceil(N / 0)` is never used, because the loop does not run.
- Integer overflow is not a concern in the model. Indices and counts are small, and JavaScript numbers are exact in that range.
