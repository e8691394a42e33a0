/** The rows a worker posts and the report is built from (main.js:150-156). */
module Report {

  import opened Wrappers

  /** A report row. The latest link is `undefined` (None) when the detail page
      lists no episode. */
  datatype Row = Row(index: nat, title: string, thumbnail: string, updateStatus: string, latestEpisodeLink: Option<string>)

  /** Ascending by index, equal indices allowed. */
  predicate SortedByIndex(rows: seq<Row>) {
    forall i, j :: 0 <= i < j < |rows| ==> rows[i].index <= rows[j].index
  }

  /** Strictly ascending by index: no index appears twice. */
  predicate StrictlySortedByIndex(rows: seq<Row>) {
    forall i, j :: 0 <= i < j < |rows| ==> rows[i].index < rows[j].index
  }

  /** No two positions hold rows with the same index. */
  predicate DistinctIndices(rows: seq<Row>) {
    forall i, j :: 0 <= i < |rows| && 0 <= j < |rows| && i != j ==> rows[i].index != rows[j].index
  }

  /** Some row carries index p. */
  predicate HasIndex(rows: seq<Row>, p: nat) {
    exists r :: r in rows && r.index == p
  }

}
