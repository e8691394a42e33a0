/** The sequential variant, dongman.js: it reads up to twenty catalog boxes,
    opens each detail page in turn and collects one JSON entry per item. */
module Dongman {

  import opened Wrappers
  import opened Seqs
  import opened Text
  import opened Dom
  import Listing

  /** dongman.js keeps the first twenty catalog boxes (dongman.js:26). */
  const MaxItems: nat := 20

  /** The text of an absolute URL, which is never empty. */
  type AbsoluteUrl = s: string | s != [] witness "/"

  /** One listing item of dongman.js (dongman.js:31-38); it has no index. */
  datatype Anime = Anime(title: string, thumbnail: string, updateStatus: string, detailUrl: string)

  /** One entry of `jsonData` (dongman.js:65-70). */
  datatype Entry = Entry(title: string, thumb: string, status: string, latestLink: string)

  /** The record built for one box (dongman.js:28-38). `resolve` stands for
      `new URL(href, origin).href`, library behaviour taken as given. */
  function FromBox(box: Box, resolve: string -> AbsoluteUrl): (a: Anime)
    ensures a.thumbnail == OrEmpty(box.thumbnail)
    ensures a.updateStatus == Trim(OrEmpty(box.statusText))
    ensures box.titleAnchor.None? ==> a.title == "" && a.detailUrl == ""
    ensures box.titleAnchor.Some? ==>
      a.title == box.titleAnchor.value.title && a.detailUrl == resolve(box.titleAnchor.value.href) && a.detailUrl != ""
  {
    match box.titleAnchor
    case None => Anime("", OrEmpty(box.thumbnail), Trim(OrEmpty(box.statusText)), "")
    case Some(anchor) => Anime(anchor.title, OrEmpty(box.thumbnail), Trim(OrEmpty(box.statusText)), resolve(anchor.href))
  }

  /** `Array.from(boxes).slice(0, 20).map(...)` (dongman.js:24-40): at most
      twenty items, in document order. */
  function ExtractListing(boxes: seq<Box>, resolve: string -> AbsoluteUrl): (items: seq<Anime>)
    ensures |items| == Min(|boxes|, MaxItems)
    ensures forall p :: 0 <= p < |items| ==> items[p] == FromBox(boxes[p], resolve)
  {
    var n := Min(|boxes|, MaxItems);
    seq(n, p requires 0 <= p < n => FromBox(boxes[p], resolve))
  }

  /** What each item of the listing holds: a missing title, image or status
      reads as the empty string, a present status is trimmed, and the detail
      URL is empty exactly when the box has no title anchor. */
  lemma ListingFields(boxes: seq<Box>, resolve: string -> AbsoluteUrl, p: nat)
    requires p < Min(|boxes|, MaxItems)
    ensures var a := ExtractListing(boxes, resolve)[p];
      && (boxes[p].titleAnchor.None? ==> a.title == "")
      && (boxes[p].titleAnchor.Some? ==> a.title == boxes[p].titleAnchor.value.title)
      && (boxes[p].thumbnail.None? ==> a.thumbnail == "")
      && (boxes[p].thumbnail.Some? ==> a.thumbnail == boxes[p].thumbnail.value)
      && (boxes[p].statusText.None? ==> a.updateStatus == "")
      && (boxes[p].statusText.Some? ==> a.updateStatus == Trim(boxes[p].statusText.value))
      && (a.detailUrl == "" <==> boxes[p].titleAnchor.None?)
  {
    var a := ExtractListing(boxes, resolve)[p];
    if boxes[p].titleAnchor.Some? {
      var url: AbsoluteUrl := resolve(boxes[p].titleAnchor.value.href);
      assert a.detailUrl == url;
    }
  }

  /** The latest-episode link (dongman.js:54-62): the origin followed by the
      href of the last episode anchor, or "" when there is none. */
  function LatestLink(hrefs: seq<string>): (link: string)
    ensures hrefs == [] ==> link == ""
    ensures hrefs != [] ==> link == Origin + hrefs[|hrefs| - 1]
  {
    var latest := if hrefs == [] then None else Some(hrefs[|hrefs| - 1]);
    match latest
    case Some(href) => Origin + href
    case None => ""
  }

  /** Both variants pick the same episode: dongman.js's link is main.js's
      whenever there is an episode, and "" where main.js has `undefined`. */
  lemma LatestLinkAgrees(hrefs: seq<string>)
    ensures hrefs == [] ==> LatestLink(hrefs) == "" && Listing.LatestEpisodeLink(hrefs) == None
    ensures hrefs != [] ==> Listing.LatestEpisodeLink(hrefs) == Some(LatestLink(hrefs))
  {
  }

  /** The main loop of dongman.js (dongman.js:43-76). `pages[i]` is the
      episode list of item i's detail page, None when opening the page or
      reading the list throws; nothing catches that, so the run stops and no
      JSON is produced. Otherwise there is one entry per item, in order, with
      title, thumbnail and status copied from the item. */
  method BuildJson(animeList: seq<Anime>, pages: seq<Option<seq<string>>>) returns (jsonData: Option<seq<Entry>>)
    requires |pages| == |animeList|
    ensures jsonData.Some? <==> forall i :: 0 <= i < |pages| ==> pages[i].Some?
    ensures jsonData.Some? ==> |jsonData.value| == |animeList|
    ensures jsonData.Some? ==> forall i :: 0 <= i < |animeList| ==>
      && jsonData.value[i].title == animeList[i].title
      && jsonData.value[i].thumb == animeList[i].thumbnail
      && jsonData.value[i].status == animeList[i].updateStatus
      && jsonData.value[i].latestLink == LatestLink(pages[i].value)
  {
    var entries: seq<Entry> := [];
    for i := 0 to |animeList|
      invariant |entries| == i
      invariant forall j :: 0 <= j < i ==> pages[j].Some?
      invariant forall j :: 0 <= j < i ==>
        entries[j] == Entry(animeList[j].title, animeList[j].thumbnail, animeList[j].updateStatus, LatestLink(pages[j].value))
    {
      var anime := animeList[i];
      if pages[i].None? {
        return None;
      }
      var latestEpisodeLink := LatestLink(pages[i].value);
      entries := entries + [Entry(anime.title, anime.thumbnail, anime.updateStatus, latestEpisodeLink)];
    }
    jsonData := Some(entries);
  }

}
