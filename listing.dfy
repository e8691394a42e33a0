/** The catalog listing and the latest-episode selection of main.js. */
module Listing {

  import opened Wrappers
  import opened Seqs
  import opened Dom

  /** main.js keeps only the first two catalog boxes (main.js:50). */
  const MaxItems: nat := 2

  /** One discovered item; `index` is its position in the listing and fixes
      the order of the final report. */
  datatype Anime = Anime(index: nat, title: string, thumbnail: string, updateStatus: string, detailUrl: string)

  /** The record built for the box at position `index` (main.js:51-60). */
  function FromBox(index: nat, box: Box): (a: Anime)
    ensures a.index == index
    ensures a.thumbnail == OrEmpty(box.thumbnail) && a.updateStatus == OrEmpty(box.statusText)
    ensures box.titleAnchor.None? ==> a.title == "" && a.detailUrl == ""
    ensures box.titleAnchor.Some? ==> a.title == box.titleAnchor.value.title && a.detailUrl == box.titleAnchor.value.href
  {
    match box.titleAnchor
    case None => Anime(index, "", OrEmpty(box.thumbnail), OrEmpty(box.statusText), "")
    case Some(anchor) => Anime(index, anchor.title, OrEmpty(box.thumbnail), OrEmpty(box.statusText), anchor.href)
  }

  /** Every item carries its own position as its index. */
  predicate Indexed(items: seq<Anime>) {
    forall p :: 0 <= p < |items| ==> items[p].index == p
  }

  /** `boxes.slice(0, 2).map((box, index) => ...)` (main.js:49-62): at most
      two items, in document order, the item at position p built from box p
      with index p. */
  function ExtractListing(boxes: seq<Box>): (items: seq<Anime>)
    ensures |items| == Min(|boxes|, MaxItems)
    ensures Indexed(items)
    ensures forall p :: 0 <= p < |items| ==> items[p] == FromBox(p, boxes[p])
  {
    var n := Min(|boxes|, MaxItems);
    seq(n, p requires 0 <= p < n => FromBox(p, boxes[p]))
  }

  /** The episode hrefs mapped to absolute links (main.js:140-146). */
  function EpisodeLinks(hrefs: seq<string>): (links: seq<string>)
    ensures |links| == |hrefs|
    ensures forall j :: 0 <= j < |hrefs| ==> links[j] == Origin + hrefs[j]
  {
    seq(|hrefs|, j requires 0 <= j < |hrefs| => Origin + hrefs[j])
  }

  /** `links[links.length - 1]` (main.js:147-148): the origin followed by the
      href of the LAST episode anchor, or `undefined` (None) exactly when
      there is no anchor. */
  function LatestEpisodeLink(hrefs: seq<string>): (link: Option<string>)
    ensures link.None? <==> hrefs == []
    ensures hrefs != [] ==> link == Some(Origin + hrefs[|hrefs| - 1])
  {
    var links := EpisodeLinks(hrefs);
    if |links| == 0 then None else Some(links[|links| - 1])
  }

  /** Appending an episode anchor changes the latest link to that anchor's,
      whatever came before: the selection is by position, not by content. */
  lemma LatestFollowsAppend(hrefs: seq<string>, href: string)
    ensures LatestEpisodeLink(hrefs + [href]) == Some(Origin + href)
  {
  }

}
