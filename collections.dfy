/**
 * The two Laravel `Collection` operations the reconciler uses. Both are
 * `array_intersect` / `array_diff` on the receiver's items: they keep the
 * receiver's order and its duplicates, and compare items by value. Over the
 * characters of a string, `Diff` is also `str_replace` of single-character
 * needles by the empty string.
 */
module Collections {

  /** `$items->intersect($other)`: the items also present in `other`. */
  function Intersect<T(==,!new)>(items: seq<T>, other: seq<T>): (r: seq<T>)
    ensures |r| <= |items|
    decreases |items|
  {
    if items == [] then []
    else (if items[0] in other then [items[0]] else []) + Intersect(items[1..], other)
  }

  /** `$items->diff($other)`: the items absent from `other`. */
  function Diff<T(==,!new)>(items: seq<T>, other: seq<T>): (r: seq<T>)
    ensures |r| <= |items|
    decreases |items|
  {
    if items == [] then []
    else (if items[0] in other then [] else [items[0]]) + Diff(items[1..], other)
  }

  /** Membership: the intersection holds the items also in `other`, the difference those absent from it. */
  lemma {:induction false} IntersectDiffMembers<T(!new)>(items: seq<T>, other: seq<T>)
    ensures forall x :: x in Intersect(items, other) <==> x in items && x in other
    ensures forall x :: x in Diff(items, other) <==> x in items && x !in other
    decreases |items|
  {
    if items != [] {
      IntersectDiffMembers(items[1..], other);
      assert items == [items[0]] + items[1..];
    }
  }

  /** Both operations work item by item: the result for a concatenation is the concatenation of results, so order is kept. */
  lemma {:induction false} IntersectDiffAppend<T(!new)>(xs: seq<T>, ys: seq<T>, other: seq<T>)
    ensures Intersect(xs + ys, other) == Intersect(xs, other) + Intersect(ys, other)
    ensures Diff(xs + ys, other) == Diff(xs, other) + Diff(ys, other)
    decreases |xs|
  {
    if xs != [] {
      assert (xs + ys)[1..] == xs[1..] + ys;
      IntersectDiffAppend(xs[1..], ys, other);
    } else {
      assert xs + ys == ys;
    }
  }

  /** Every item lands in exactly one of the two: duplicates are kept, nothing is lost or invented. */
  lemma {:induction false} IntersectDiffPartition<T(!new)>(items: seq<T>, other: seq<T>)
    ensures multiset(Intersect(items, other)) + multiset(Diff(items, other)) == multiset(items)
    ensures |Intersect(items, other)| + |Diff(items, other)| == |items|
    decreases |items|
  {
    if items != [] {
      IntersectDiffPartition(items[1..], other);
      assert items == [items[0]] + items[1..];
    }
  }

  /** How often a value occurs in each result: as often as in the receiver, or not at all. */
  lemma {:induction false} IntersectDiffCount<T(!new)>(items: seq<T>, other: seq<T>, x: T)
    ensures multiset(Intersect(items, other))[x] == if x in other then multiset(items)[x] else 0
    ensures multiset(Diff(items, other))[x] == if x in other then 0 else multiset(items)[x]
    decreases |items|
  {
    if items != [] {
      var tail := items[1..];
      IntersectDiffCount(tail, other, x);
      assert items == [items[0]] + tail;
      assert multiset(items) == multiset([items[0]]) + multiset(tail);
      if items[0] in other {
        assert Intersect(items, other) == [items[0]] + Intersect(tail, other);
        assert Diff(items, other) == Diff(tail, other);
      } else {
        assert Intersect(items, other) == Intersect(tail, other);
        assert Diff(items, other) == [items[0]] + Diff(tail, other);
      }
    }
  }

  /** Taking away items none of which occurs in the receiver leaves the receiver. */
  lemma {:induction false} DiffDisjoint<T(!new)>(items: seq<T>, other: seq<T>)
    requires forall x <- items :: x !in other
    ensures Diff(items, other) == items
    decreases |items|
  {
    if items != [] {
      DiffDisjoint(items[1..], other);
      assert [items[0]] + items[1..] == items;
    }
  }

  /** The intersection is the whole receiver exactly when every item is in `other`; the difference is then empty. */
  lemma {:induction false} IntersectWhole<T(!new)>(items: seq<T>, other: seq<T>)
    ensures Intersect(items, other) == items <==> forall x <- items :: x in other
    ensures Diff(items, other) == [] <==> forall x <- items :: x in other
    decreases |items|
  {
    if items != [] {
      IntersectWhole(items[1..], other);
      if items[0] !in other {
        assert |Intersect(items, other)| < |items| by {
          assert Intersect(items, other) == Intersect(items[1..], other);
        }
      }
    }
  }
}
