/** Sequence helpers shared by the engine models: the removal `TArray::Remove`
    performs and the absence of repeats. */
module Sequences {
  /** No element is listed twice. */
  predicate Distinct<T(==)>(xs: seq<T>)
  {
    forall i, j :: 0 <= i < j < |xs| ==> xs[i] != xs[j]
  }

  /** `TArray::Remove`: every occurrence of `c` taken out, the rest kept in
      order. */
  function RemoveAll<T(==)>(xs: seq<T>, c: T): (r: seq<T>)
    ensures forall i :: 0 <= i < |r| ==> r[i] in xs && r[i] != c
    ensures forall i :: 0 <= i < |xs| && xs[i] != c ==> xs[i] in r
    ensures |r| <= |xs|
  {
    if xs == [] then []
    else RemoveAll(xs[..|xs| - 1], c) + (if xs[|xs| - 1] == c then [] else [xs[|xs| - 1]])
  }

  /** Removing an element that was added at the end of a list that did not
      hold it gives the list back. */
  lemma {:induction false} RemoveAllOfAppended<T>(xs: seq<T>, c: T)
    requires c !in xs
    ensures RemoveAll(xs + [c], c) == xs
  {
    assert (xs + [c])[..|xs|] == xs;
    RemoveAllOfAbsent(xs, c);
  }

  lemma {:induction false} RemoveAllOfAbsent<T>(xs: seq<T>, c: T)
    requires c !in xs
    ensures RemoveAll(xs, c) == xs
  {
    if xs != [] {
      RemoveAllOfAbsent(xs[..|xs| - 1], c);
      assert xs[..|xs| - 1] + [xs[|xs| - 1]] == xs;
    }
  }

  /** `RemoveAll` keeps a list without repeats without repeats. */
  lemma {:induction false} RemoveAllKeepsDistinct<T>(xs: seq<T>, c: T)
    requires Distinct(xs)
    ensures Distinct(RemoveAll(xs, c))
  {
    if xs != [] {
      var front := xs[..|xs| - 1];
      var last := xs[|xs| - 1];
      RemoveAllKeepsDistinct(front, c);
      var kept := RemoveAll(front, c);
      assert last !in front by {
        forall k | 0 <= k < |front| ensures front[k] != last {
          assert front[k] == xs[k];
        }
      }
      var r := RemoveAll(xs, c);
      assert r == kept + (if last == c then [] else [last]);
      forall i, j | 0 <= i < j < |r| ensures r[i] != r[j] {
        assert r[i] == kept[i];
        if j == |kept| {
          assert r[j] == last && kept[i] in kept;
          assert kept[i] in front;
        } else {
          assert r[j] == kept[j];
        }
      }
    }
  }

  /** After removal `x` is gone, every other element occurs as often as
      before, and the list is shorter by the occurrences of `x`. */
  lemma {:induction false} RemoveAllCounts<T>(list: seq<T>, x: T)
    ensures x !in RemoveAll(list, x)
    ensures forall y :: y != x ==> multiset(RemoveAll(list, x))[y] == multiset(list)[y]
    ensures |RemoveAll(list, x)| + multiset(list)[x] == |list|
    decreases |list|
  {
    if list != [] {
      var n := |list| - 1;
      var front := list[..n];
      RemoveAllCounts(front, x);
      assert list == front + [list[n]];
      var kept := if list[n] == x then [] else [list[n]];
      assert RemoveAll(list, x) == RemoveAll(front, x) + kept;
      assert multiset(list) == multiset(front) + multiset{list[n]};
      assert multiset(RemoveAll(list, x)) == multiset(RemoveAll(front, x)) + multiset(kept);
    }
  }
}
