/** What the page queries return, as plain records. A catalog box is the
    `.myui-vodlist__box` element; its optional parts are the title anchor
    (`h4 a`), the thumbnail anchor (`a[data-original]`) and the status label
    (`.pic-text.text-right`). An episode list is the sequence of `href`
    attributes of the episode anchors, in document order. */
module Dom {

  import opened Wrappers

  /** The origin prepended to every episode `href` (main.js:144, dongman.js:59). */
  const Origin: string := "https://www.857yhdm.com"

  /** The title anchor: its `title` attribute and its resolved `href` property. */
  datatype TitleAnchor = TitleAnchor(title: string, href: string)

  /** One catalog box. `thumbnail` is the `data-original` attribute of the
      thumbnail anchor, `statusText` the label's `innerText`. */
  datatype Box = Box(titleAnchor: Option<TitleAnchor>, thumbnail: Option<string>, statusText: Option<string>)

  /** `element ? value : ""`: an absent element reads as the empty string. */
  function OrEmpty(field: Option<string>): (r: string)
    ensures field.None? ==> r == ""
    ensures field.Some? ==> r == field.value
  {
    match field
    case None => ""
    case Some(v) => v
  }

}
