/** The stable sort of the Python standard library, by an integer key. */
module StableSort {

  /** `x` goes after every element whose key is not greater than its own. */
  function InsertBy<T>(key: T -> int, xs: seq<T>, x: T): seq<T> {
    if xs == [] || key(xs[|xs| - 1]) <= key(x) then xs + [x]
    else InsertBy(key, xs[..|xs| - 1], x) + [xs[|xs| - 1]]
  }

  function SortBy<T>(key: T -> int, xs: seq<T>): seq<T> {
    if xs == [] then [] else InsertBy(key, SortBy(key, xs[..|xs| - 1]), xs[|xs| - 1])
  }

  ghost predicate Ordered<T>(key: T -> int, xs: seq<T>) {
    forall i, j :: 0 <= i < j < |xs| ==> key(xs[i]) <= key(xs[j])
  }

  lemma {:induction false} InsertAddsOne<T>(key: T -> int, xs: seq<T>, x: T)
    ensures multiset(InsertBy(key, xs, x)) == multiset(xs) + multiset{x}
  {
    if xs != [] && key(xs[|xs| - 1]) > key(x) {
      assert xs == xs[..|xs| - 1] + [xs[|xs| - 1]];
      InsertAddsOne(key, xs[..|xs| - 1], x);
    }
  }

  lemma {:induction false} InsertKeepsOrder<T>(key: T -> int, xs: seq<T>, x: T)
    requires Ordered(key, xs)
    ensures Ordered(key, InsertBy(key, xs, x))
  {
    if xs != [] && key(xs[|xs| - 1]) > key(x) {
      var init, last := xs[..|xs| - 1], xs[|xs| - 1];
      InsertKeepsOrder(key, init, x);
      InsertAddsOne(key, init, x);
      var inner := InsertBy(key, init, x);
      forall i | 0 <= i < |inner|
        ensures key(inner[i]) <= key(last)
      {
        assert inner[i] in multiset(inner);
        assert inner[i] == x || inner[i] in init;
      }
    }
  }

  /** The result is ordered and is a permutation of the input. */
  lemma {:induction false} SortByIsSort<T>(key: T -> int, xs: seq<T>)
    ensures Ordered(key, SortBy(key, xs))
    ensures multiset(SortBy(key, xs)) == multiset(xs)
  {
    if xs != [] {
      var init, last := xs[..|xs| - 1], xs[|xs| - 1];
      assert xs == init + [last];
      SortByIsSort(key, init);
      InsertKeepsOrder(key, SortBy(key, init), last);
      InsertAddsOne(key, SortBy(key, init), last);
    }
  }

  lemma SortByKeepsElements<T>(key: T -> int, xs: seq<T>, x: T)
    ensures x in SortBy(key, xs) <==> x in xs
  {
    SortByIsSort(key, xs);
    assert x in multiset(SortBy(key, xs)) <==> x in multiset(xs);
  }

  /** The elements with this key, in order. */
  function WithKey<T>(key: T -> int, xs: seq<T>, k: int): seq<T> {
    if xs == [] then []
    else WithKey(key, xs[..|xs| - 1], k) + if key(xs[|xs| - 1]) == k then [xs[|xs| - 1]] else []
  }

  lemma {:induction false} InsertKeepsGroups<T>(key: T -> int, xs: seq<T>, x: T, k: int)
    ensures WithKey(key, InsertBy(key, xs, x), k) == WithKey(key, xs, k) + if key(x) == k then [x] else []
  {
    if xs == [] || key(xs[|xs| - 1]) <= key(x) {
      assert (xs + [x])[..|xs|] == xs;
    } else {
      var init, last := xs[..|xs| - 1], xs[|xs| - 1];
      var inner := InsertBy(key, init, x);
      InsertKeepsGroups(key, init, x, k);
      assert (inner + [last])[..|inner|] == inner;
    }
  }

  /** Elements with equal keys keep their order. */
  lemma {:induction false} SortByIsStable<T>(key: T -> int, xs: seq<T>, k: int)
    ensures WithKey(key, SortBy(key, xs), k) == WithKey(key, xs, k)
  {
    if xs != [] {
      SortByIsStable(key, xs[..|xs| - 1], k);
      InsertKeepsGroups(key, SortBy(key, xs[..|xs| - 1]), xs[|xs| - 1], k);
    }
  }

  /** By the first key, and among equals by the second. */
  ghost predicate OrderedByBoth<T>(first: T -> int, second: T -> int, xs: seq<T>) {
    forall i, j :: 0 <= i < j < |xs| ==>
      first(xs[i]) < first(xs[j]) || (first(xs[i]) == first(xs[j]) && second(xs[i]) <= second(xs[j]))
  }

  lemma {:induction false} InsertKeepsBothOrders<T>(first: T -> int, second: T -> int, xs: seq<T>, x: T)
    requires OrderedByBoth(first, second, xs) && forall i :: 0 <= i < |xs| ==> second(xs[i]) <= second(x)
    ensures OrderedByBoth(first, second, InsertBy(first, xs, x))
  {
    if xs != [] && first(xs[|xs| - 1]) > first(x) {
      var init, last := xs[..|xs| - 1], xs[|xs| - 1];
      InsertKeepsBothOrders(first, second, init, x);
      InsertAddsOne(first, init, x);
      var inner := InsertBy(first, init, x);
      forall i | 0 <= i < |inner|
        ensures first(inner[i]) < first(last) || (first(inner[i]) == first(last) && second(inner[i]) <= second(last))
      {
        assert inner[i] in multiset(inner);
        assert inner[i] == x || inner[i] in init;
      }
    }
  }

  /** Sorting by the less important key first orders by both. */
  lemma {:induction false} SortedTwice<T>(first: T -> int, second: T -> int, xs: seq<T>)
    requires Ordered(second, xs)
    ensures OrderedByBoth(first, second, SortBy(first, xs))
  {
    if xs != [] {
      var init, last := xs[..|xs| - 1], xs[|xs| - 1];
      SortedTwice(first, second, init);
      var sorted := SortBy(first, init);
      forall i | 0 <= i < |sorted|
        ensures second(sorted[i]) <= second(last)
      {
        assert sorted[i] in sorted;
        SortByKeepsElements(first, init, sorted[i]);
      }
      InsertKeepsBothOrders(first, second, sorted, last);
    }
  }

  // ----- sequences without repetition -----

  predicate NoDuplicates<T(==)>(xs: seq<T>) {
    forall i, j :: 0 <= i < j < |xs| ==> xs[i] != xs[j]
  }

  lemma {:induction false} OccursOnce<T>(xs: seq<T>, x: T)
    requires NoDuplicates(xs)
    ensures multiset(xs)[x] <= 1
  {
    if xs != [] {
      var init, last := xs[..|xs| - 1], xs[|xs| - 1];
      assert xs == init + [last];
      OccursOnce(init, x);
    }
  }

  lemma OccursTwice<T>(xs: seq<T>, i: nat, j: nat)
    requires i < j < |xs| && xs[i] == xs[j]
    ensures multiset(xs)[xs[i]] >= 2
  {
    assert xs == xs[..j] + [xs[j]] + xs[j + 1..];
    assert xs[i] in xs[..j];
  }

  lemma PermutationKeepsNoDuplicates<T>(xs: seq<T>, ys: seq<T>)
    requires NoDuplicates(xs) && multiset(xs) == multiset(ys)
    ensures NoDuplicates(ys)
  {
    forall i, j | 0 <= i < j < |ys|
      ensures ys[i] != ys[j]
    {
      if ys[i] == ys[j] {
        OccursTwice(ys, i, j);
        OccursOnce(xs, ys[i]);
      }
    }
  }

  lemma FewerChosen(chosen: seq<string>, all: seq<string>, thread: string)
    requires NoDuplicates(chosen) && forall x :: x in chosen ==> x in all
    requires thread in all && thread !in chosen
    ensures |chosen| < |all|
  {
    var xs, ys := set x | x in chosen, set x | x in all;
    DistinctCount(chosen);
    AtMostCount(all);
    assert xs <= ys - {thread};
    SmallerSet(xs, ys - {thread});
  }

  lemma SmallerSet(xs: set<string>, ys: set<string>)
    requires xs <= ys
    ensures |xs| <= |ys|
  {
    if xs != {} {
      var x :| x in xs;
      SmallerSet(xs - {x}, ys - {x});
    }
  }

  lemma {:induction false} DistinctCount(xs: seq<string>)
    requires NoDuplicates(xs)
    ensures |set x | x in xs| == |xs|
  {
    if xs != [] {
      var init, last := xs[..|xs| - 1], xs[|xs| - 1];
      DistinctCount(init);
      assert (set x | x in xs) == (set x | x in init) + {last};
    }
  }

  lemma {:induction false} AtMostCount(xs: seq<string>)
    ensures |set x | x in xs| <= |xs|
  {
    if xs != [] {
      var init, last := xs[..|xs| - 1], xs[|xs| - 1];
      AtMostCount(init);
      assert (set x | x in xs) == (set x | x in init) + {last};
    }
  }
}
