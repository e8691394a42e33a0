/** Result merging of main.js (main.js:76-77): the lists the workers post are
    flattened and sorted by discovery index, `sort((a, b) => a.index - b.index)`.
    The sort is modelled as a stable insertion sort: each row is placed before
    the first row whose index is not smaller. */
module Merge {

  import opened Seqs
  import opened Report

  /** Puts `r` in front of the first row of `rows` with an index at least its own. */
  function InsertByIndex(r: Row, rows: seq<Row>): (t: seq<Row>)
    ensures |t| == |rows| + 1
    ensures multiset(t) == multiset(rows) + multiset{r}
    ensures t[0] == r || (rows != [] && t[0] == rows[0])
  {
    if rows == [] || r.index <= rows[0].index then [r] + rows
    else
      assert rows == [rows[0]] + rows[1..];
      [rows[0]] + InsertByIndex(r, rows[1..])
  }

  /** Inserting adds `r` and nothing else. */
  lemma {:induction false} InsertMembers(r: Row, rows: seq<Row>)
    ensures forall x :: x in InsertByIndex(r, rows) ==> x == r || x in rows
  {
    if rows != [] && r.index > rows[0].index {
      InsertMembers(r, rows[1..]);
    }
  }

  /** Inserting into an ascending list keeps it ascending. */
  lemma {:induction false} InsertKeepsSorted(r: Row, rows: seq<Row>)
    requires SortedByIndex(rows)
    ensures SortedByIndex(InsertByIndex(r, rows))
  {
    if rows != [] && r.index > rows[0].index {
      var tail := rows[1..];
      InsertKeepsSorted(r, tail);
      InsertMembers(r, tail);
      var t' := InsertByIndex(r, tail);
      assert forall x :: x in tail ==> rows[0].index <= x.index;
      assert forall x :: x in t' ==> rows[0].index <= x.index;
    }
  }

  /** Inserting a new index into a strictly ascending list keeps it strictly
      ascending. */
  lemma {:induction false} InsertKeepsStrict(r: Row, rows: seq<Row>)
    requires StrictlySortedByIndex(rows)
    requires forall x :: x in rows ==> x.index != r.index
    ensures StrictlySortedByIndex(InsertByIndex(r, rows))
  {
    if rows != [] && r.index > rows[0].index {
      var tail := rows[1..];
      InsertKeepsStrict(r, tail);
      InsertMembers(r, tail);
      var t' := InsertByIndex(r, tail);
      assert forall x :: x in tail ==> rows[0].index < x.index;
      assert forall x :: x in t' ==> rows[0].index < x.index;
    }
  }

  /** Without repeated indices, the rest of the list repeats no index and
      none of it shares the first row's index. */
  lemma DistinctTail(rows: seq<Row>)
    requires rows != [] && DistinctIndices(rows)
    ensures DistinctIndices(rows[1..])
    ensures forall x :: x in rows[1..] ==> x.index != rows[0].index
  {
    forall x | x in rows[1..]
      ensures x.index != rows[0].index
    {
      var k :| 0 <= k < |rows[1..]| && rows[1..][k] == x;
      assert rows[k + 1] == x;
    }
  }

  /** Sorting by index: the result is ascending and holds the same rows as
      many times as the input. */
  function SortByIndex(rows: seq<Row>): (sorted: seq<Row>)
    ensures multiset(sorted) == multiset(rows)
    ensures SortedByIndex(sorted)
  {
    if rows == [] then []
    else
      assert rows == [rows[0]] + rows[1..];
      var tail := SortByIndex(rows[1..]);
      InsertKeepsSorted(rows[0], tail);
      InsertByIndex(rows[0], tail)
  }

  /** Without repeated indices the sorted list is strictly ascending. */
  lemma {:induction false} SortStrict(rows: seq<Row>)
    ensures DistinctIndices(rows) ==> StrictlySortedByIndex(SortByIndex(rows))
  {
    if rows != [] && DistinctIndices(rows) {
      var tail := SortByIndex(rows[1..]);
      DistinctTail(rows);
      SortStrict(rows[1..]);
      assert forall x :: x in tail ==> x in multiset(rows[1..]);
      InsertKeepsStrict(rows[0], tail);
    }
  }

  /** `results.flat().sort(...)` (main.js:77). */
  function MergeResults(results: seq<seq<Row>>): (report: seq<Row>)
    ensures multiset(report) == multiset(Flatten(results))
    ensures SortedByIndex(report)
    ensures DistinctIndices(Flatten(results)) ==> StrictlySortedByIndex(report)
  {
    SortStrict(Flatten(results));
    SortByIndex(Flatten(results))
  }

  /** A list already in ascending order is left as it is. */
  lemma {:induction false} SortKeepsSorted(rows: seq<Row>)
    requires SortedByIndex(rows)
    ensures SortByIndex(rows) == rows
  {
    if rows != [] {
      SortKeepsSorted(rows[1..]);
    }
  }

  /** Of two orderings of the same rows, the first strictly ascending and
      the second ascending, the first rows agree. */
  lemma SameFirst(a: seq<Row>, b: seq<Row>)
    requires a != [] && multiset(a) == multiset(b)
    requires StrictlySortedByIndex(a) && SortedByIndex(b)
    ensures b != [] && a[0] == b[0]
  {
    assert a[0] in multiset(b);
    assert b != [];
    assert b[0] in multiset(a);
    var j :| 0 <= j < |b| && b[j] == a[0];
    var i :| 0 <= i < |a| && a[i] == b[0];
    assert b[0].index <= a[0].index;
    assert a[0].index <= b[0].index;
    assert i == 0;
  }

  /** Two orderings of the same rows, the first strictly ascending and the
      second ascending, are the same list. */
  lemma {:induction false} SortedPermutationsEqual(a: seq<Row>, b: seq<Row>)
    requires multiset(a) == multiset(b)
    requires StrictlySortedByIndex(a) && SortedByIndex(b)
    ensures a == b
    decreases |a|
  {
    if a == [] {
      assert |b| == |multiset(b)| == 0;
    } else {
      SameFirst(a, b);
      assert a == [a[0]] + a[1..];
      assert b == [b[0]] + b[1..];
      calc {
        multiset(a[1..]);
        multiset(a) - multiset{a[0]};
        multiset(b) - multiset{b[0]};
        multiset(b[1..]);
      }
      SortedPermutationsEqual(a[1..], b[1..]);
    }
  }

  /** The report does not depend on the order in which the workers' lists
      arrive: any rearrangement of them merges to the same report, provided
      no index is repeated. */
  lemma MergeOrderIndependent(results: seq<seq<Row>>, arrived: seq<seq<Row>>)
    requires multiset(arrived) == multiset(results)
    requires DistinctIndices(Flatten(results))
    ensures MergeResults(arrived) == MergeResults(results)
  {
    FlattenPermutation(arrived, results);
    SortedPermutationsEqual(MergeResults(results), MergeResults(arrived));
  }

}
