/** The median of a list of numbers, and what makes it the middle one. */
module Medians {
  import opened Sorting

  predicate RealLe(a: real, b: real) {
    a <= b
  }

  /** `stats.Median`. */
  function Median(xs: seq<real>): real
    requires xs != []
  {
    SortKeeps(xs, RealLe);
    var sorted, n := Sort(xs, RealLe), |xs|;
    if n % 2 == 1 then sorted[n / 2] else (sorted[n / 2 - 1] + sorted[n / 2]) / 2.0
  }

  /** How many of the numbers are less than x, and how many are at most x. */
  function Below(xs: seq<real>, x: real): nat {
    if xs == [] then 0 else Below(xs[..|xs| - 1], x) + (if xs[|xs| - 1] < x then 1 else 0)
  }

  function AtMost(xs: seq<real>, x: real): nat {
    if xs == [] then 0 else AtMost(xs[..|xs| - 1], x) + (if xs[|xs| - 1] <= x then 1 else 0)
  }

  /** x is the number with k others before it, when the numbers are lined up by size. */
  predicate IsKth(xs: seq<real>, k: nat, x: real) {
    x in xs && Below(xs, x) <= k < AtMost(xs, x)
  }

  lemma {:induction false} WithoutOne(xs: seq<real>, k: nat, x: real)
    requires k < |xs|
    ensures Below(xs, x) == Below(xs[..k] + xs[k + 1..], x) + (if xs[k] < x then 1 else 0)
    ensures AtMost(xs, x) == AtMost(xs[..k] + xs[k + 1..], x) + (if xs[k] <= x then 1 else 0)
  {
    var n := |xs| - 1;
    var rest := xs[..k] + xs[k + 1..];
    if k == n {
      assert rest == xs[..n];
    } else {
      WithoutOne(xs[..n], k, x);
      assert rest[..|rest| - 1] == xs[..n][..k] + xs[..n][k + 1..];
    }
  }

  lemma RemoveOne(xs: seq<real>, k: nat)
    requires k < |xs|
    ensures multiset(xs[..k] + xs[k + 1..]) == multiset(xs) - multiset{xs[k]}
  {
    assert xs == xs[..k] + [xs[k]] + xs[k + 1..];
  }

  /** Neither count depends on the order. */
  lemma {:induction false} CountsIgnoreOrder(xs: seq<real>, ys: seq<real>, x: real)
    requires multiset(xs) == multiset(ys)
    ensures Below(xs, x) == Below(ys, x) && AtMost(xs, x) == AtMost(ys, x)
    decreases |xs|
  {
    if xs == [] {
      assert |multiset(ys)| == 0;
    } else {
      var n := |xs| - 1;
      assert xs[n] in multiset(ys);
      var k :| 0 <= k < |ys| && ys[k] == xs[n];
      RemoveOne(xs, n);
      RemoveOne(ys, k);
      assert xs[..n] + xs[n + 1..] == xs[..n];
      CountsIgnoreOrder(xs[..n], ys[..k] + ys[k + 1..], x);
      WithoutOne(xs, n, x);
      WithoutOne(ys, k, x);
    }
  }

  lemma {:induction false} CountsOfSorted(xs: seq<real>, k: nat, x: real)
    requires k <= |xs|
    ensures (forall i :: k <= i < |xs| ==> xs[i] >= x) ==> Below(xs, x) <= k
    ensures (forall i :: 0 <= i < k ==> xs[i] <= x) ==> AtMost(xs, x) >= k
  {
    if xs != [] {
      var n := |xs| - 1;
      CountsOfSorted(xs[..n], if k > n then n else k, x);
    }
  }

  lemma {:induction false} LessIsBelow(xs: seq<real>, x: real, y: real)
    requires x < y
    ensures AtMost(xs, x) <= Below(xs, y)
  {
    if xs != [] {
      LessIsBelow(xs[..|xs| - 1], x, y);
    }
  }

  /** There is only one such number. */
  lemma KthIsUnique(xs: seq<real>, k: nat, x: real, y: real)
    requires IsKth(xs, k, x) && IsKth(xs, k, y)
    ensures x == y
  {
    if x < y {
      LessIsBelow(xs, x, y);
    } else if y < x {
      LessIsBelow(xs, y, x);
    }
  }

  lemma SortedGivesKth(xs: seq<real>, k: nat)
    requires k < |xs|
    ensures |Sort(xs, RealLe)| == |xs| && IsKth(xs, k, Sort(xs, RealLe)[k])
  {
    var sorted := Sort(xs, RealLe);
    SortKeeps(xs, RealLe);
    SortSorted(xs, RealLe);
    hide Sort;
    var x := sorted[k];
    forall i | 0 <= i < |xs| ensures (i >= k ==> sorted[i] >= x) && (i <= k ==> sorted[i] <= x) {
      assert i < k ==> RealLe(sorted[i], sorted[k]);
      assert k < i ==> RealLe(sorted[k], sorted[i]);
    }
    CountsOfSorted(sorted, k, x);
    CountsOfSorted(sorted, k + 1, x);
    CountsIgnoreOrder(sorted, xs, x);
    assert x in multiset(sorted);
  }

  /** The median is the middle number, or the mean of the two middle ones. */
  lemma MedianIsMiddle(xs: seq<real>) returns (lo: real, hi: real)
    requires xs != []
    ensures IsKth(xs, (|xs| - 1) / 2, lo) && IsKth(xs, |xs| / 2, hi)
    ensures Median(xs) == (lo + hi) / 2.0
    ensures |xs| % 2 == 1 ==> Median(xs) == lo == hi
  {
    var n := |xs|;
    SortedGivesKth(xs, (n - 1) / 2);
    SortedGivesKth(xs, n / 2);
    lo, hi := Sort(xs, RealLe)[(n - 1) / 2], Sort(xs, RealLe)[n / 2];
  }
}
