/** Sequence helpers: `Array.prototype.flat()` on a list of lists, and `Math.min`. */
module Seqs {

  function Min(a: int, b: int): int {
    if a <= b then a else b
  }

  /** `lists.flat()`: the lists concatenated in order. */
  function Flatten<T>(lists: seq<seq<T>>): (r: seq<T>)
    ensures lists == [] ==> r == []
    ensures |lists| == 1 ==> r == lists[0]
  {
    if lists == [] then [] else lists[0] + Flatten(lists[1..])
  }

  lemma {:induction false} FlattenAppend<T>(a: seq<seq<T>>, b: seq<seq<T>>)
    ensures Flatten(a + b) == Flatten(a) + Flatten(b)
  {
    if a == [] {
      assert a + b == b;
    } else {
      assert (a + b)[1..] == a[1..] + b;
      FlattenAppend(a[1..], b);
    }
  }

  /** Appending one list to the list of lists appends its elements. */
  lemma FlattenSnoc<T>(a: seq<seq<T>>, x: seq<T>)
    ensures Flatten(a + [x]) == Flatten(a) + x
  {
    FlattenAppend(a, [x]);
  }

  /** An element of the flattened list comes from one of the lists, and back. */
  lemma {:induction false} FlattenMember<T>(lists: seq<seq<T>>, x: T)
    ensures x in Flatten(lists) <==> exists i :: 0 <= i < |lists| && x in lists[i]
  {
    if lists != [] {
      FlattenMember(lists[1..], x);
      if x in lists[0] {
        assert 0 < |lists| && x in lists[0];
      }
      if exists i :: 1 <= i < |lists| && x in lists[i] {
        var i :| 1 <= i < |lists| && x in lists[i];
        assert x in lists[1..][i - 1];
      }
    }
  }

  /** Reordering the lists does not change which elements, with their
      multiplicities, the flattened list holds. */
  lemma {:induction false} FlattenPermutation<T>(p: seq<seq<T>>, q: seq<seq<T>>)
    requires multiset(p) == multiset(q)
    ensures multiset(Flatten(p)) == multiset(Flatten(q))
    decreases |p|
  {
    if p == [] {
      assert |q| == |multiset(q)| == 0;
    } else {
      var x := p[0];
      assert x in multiset(q);
      var j :| 0 <= j < |q| && q[j] == x;
      var rest := q[..j] + q[j + 1..];
      assert q == q[..j] + [x] + q[j + 1..];
      assert p == [x] + p[1..];
      calc {
        multiset(p[1..]);
        multiset(p) - multiset{x};
        multiset(q) - multiset{x};
        { assert multiset(q) == multiset(q[..j]) + multiset{x} + multiset(q[j + 1..]); }
        multiset(rest);
      }
      FlattenPermutation(p[1..], rest);
      FlattenAppend(q[..j] + [x], q[j + 1..]);
      FlattenAppend(q[..j], [x]);
      FlattenAppend(q[..j], q[j + 1..]);
    }
  }

}
