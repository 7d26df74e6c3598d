/** Splitting a whole number of cents by weight with the largest-remainder method, over exact reals. */
module Allocate {
  import opened Sorting

  datatype RangeError = NotWholeCents | NoWeights | NegativeWeight | AllZero
  datatype Result = Failed(error: RangeError) | Parts(parts: seq<int>)

  function RealSum(xs: seq<real>): real {
    if xs == [] then 0.0 else RealSum(xs[..|xs| - 1]) + xs[|xs| - 1]
  }

  function IntSum(xs: seq<int>): int {
    if xs == [] then 0 else IntSum(xs[..|xs| - 1]) + xs[|xs| - 1]
  }

  /** One payee's exact share of c by weight w out of a total weight s. */
  function Share(c: real, w: real, s: real): real
    requires s != 0.0
  {
    c * w / s
  }

  function Exact(cents: int, weights: seq<real>): seq<real>
    requires RealSum(weights) != 0.0
  {
    seq(|weights|, i requires 0 <= i < |weights| => Share(cents as real, weights[i], RealSum(weights)))
  }

  function Floors(exact: seq<real>): seq<int> {
    seq(|exact|, i requires 0 <= i < |exact| => exact[i].Floor)
  }

  /** The fractional part of a share; indices outside the list have none. */
  function Fraction(exact: seq<real>, i: int): (f: real)
    ensures 0.0 <= f < 1.0
  {
    if 0 <= i < |exact| then exact[i] - exact[i].Floor as real else 0.0
  }

  /** The order in which spare cents go out: larger fraction first, then the smaller index. */
  predicate Before(exact: seq<real>, a: int, b: int) {
    Fraction(exact, a) > Fraction(exact, b) || (Fraction(exact, a) == Fraction(exact, b) && a <= b)
  }

  function Indices(n: nat): seq<int> {
    seq(n, i => i)
  }

  function Order(exact: seq<real>): seq<int> {
    Sort(Indices(|exact|), (a, b) => Before(exact, a, b))
  }

  // ---------------------------------------------------------------- what the result has to be

  /** One part per share, summing to the cents; each part is the floor of its share or one more; and
      whoever got an extra cent comes before whoever did not. */
  ghost predicate LargestRemainder(cents: int, exact: seq<real>, parts: seq<int>) {
    && |parts| == |exact|
    && IntSum(parts) == cents
    && (forall i :: 0 <= i < |exact| ==> parts[i] == exact[i].Floor || parts[i] == exact[i].Floor + 1)
    && (forall i, j :: 0 <= i < |exact| && 0 <= j < |exact| ==>
                         parts[i] == exact[i].Floor + 1 && parts[j] == exact[j].Floor ==> Before(exact, i, j))
  }

  lemma {:induction false} SmallerSumsLess(p: seq<int>, q: seq<int>)
    requires |p| == |q| && forall i :: 0 <= i < |p| ==> p[i] <= q[i]
    ensures IntSum(p) <= IntSum(q)
    ensures IntSum(p) == IntSum(q) ==> p == q
  {
    if p != [] {
      var n := |p| - 1;
      SmallerSumsLess(p[..n], q[..n]);
      assert p == p[..n] + [p[n]] && q == q[..n] + [q[n]];
    }
  }

  /** The largest-remainder conditions leave no choice at all. */
  lemma LargestRemainderIsUnique(cents: int, exact: seq<real>, p: seq<int>, q: seq<int>)
    requires LargestRemainder(cents, exact, p) && LargestRemainder(cents, exact, q)
    ensures p == q
  {
    if i, j :| 0 <= i < |exact| && 0 <= j < |exact| && p[i] > q[i] && q[j] > p[j] {
    } else if forall i :: 0 <= i < |p| ==> p[i] <= q[i] {
      SmallerSumsLess(p, q);
    } else {
      SmallerSumsLess(q, p);
    }
  }

  // ---------------------------------------------------------------- the spare cents

  function FractionSum(exact: seq<real>, n: nat): (sum: real)
    requires n <= |exact|
  {
    if n == 0 then 0.0 else FractionSum(exact, n - 1) + Fraction(exact, n - 1)
  }

  /** The shares among the first n that are not whole. */
  function Broken(exact: seq<real>, n: nat): set<int> {
    set i | 0 <= i < n && Fraction(exact, i) > 0.0
  }

  lemma {:induction false} FractionsAreBelowBroken(exact: seq<real>, n: nat)
    requires n <= |exact|
    ensures FractionSum(exact, n) <= |Broken(exact, n)| as real
  {
    if n > 0 {
      FractionsAreBelowBroken(exact, n - 1);
      if Fraction(exact, n - 1) > 0.0 {
        assert Broken(exact, n) == Broken(exact, n - 1) + {n - 1};
      } else {
        assert Broken(exact, n) == Broken(exact, n - 1);
      }
    }
  }

  lemma {:induction false} FloorsAndFractions(exact: seq<real>, n: nat)
    requires n <= |exact|
    ensures RealSum(exact[..n]) == IntSum(Floors(exact)[..n]) as real + FractionSum(exact, n)
  {
    if n > 0 {
      FloorsAndFractions(exact, n - 1);
      assert exact[..n][..n - 1] == exact[..n - 1];
      assert Floors(exact)[..n][..n - 1] == Floors(exact)[..n - 1];
    }
  }

  lemma {:induction false} ScaledSum(cents: int, weights: seq<real>, sum: real, scaled: seq<real>)
    requires sum != 0.0 && |scaled| == |weights|
    requires forall i :: 0 <= i < |weights| ==> scaled[i] == Share(cents as real, weights[i], sum)
    ensures RealSum(scaled) == Share(cents as real, RealSum(weights), sum)
  {
    hide Share;
    if weights != [] {
      var n := |weights| - 1;
      ScaledSum(cents, weights[..n], sum, scaled[..n]);
      LastOfSum(weights);
      LastOfSum(scaled);
      Distribute(cents as real, RealSum(weights[..n]), weights[n], sum);
    } else {
      NothingScaled(cents as real, sum);
    }
  }

  lemma LastOfSum(xs: seq<real>)
    requires xs != []
    ensures RealSum(xs) == RealSum(xs[..|xs| - 1]) + xs[|xs| - 1]
  {
  }

  lemma NothingScaled(c: real, s: real)
    requires s != 0.0
    ensures Share(c, 0.0, s) == 0.0
  {
  }

  lemma Distribute(c: real, a: real, b: real, s: real)
    requires s != 0.0
    ensures Share(c, a, s) + Share(c, b, s) == Share(c, a + b, s)
  {
  }

  lemma SharesAddUp(cents: int, weights: seq<real>)
    requires RealSum(weights) != 0.0
    ensures RealSum(Exact(cents, weights)) == cents as real
  {
    hide RealSum, Share;
    var sum := RealSum(weights);
    ScaledSum(cents, weights, sum, Exact(cents, weights));
    Cancelled(cents as real, sum);
  }

  lemma Cancelled(c: real, s: real)
    requires s != 0.0
    ensures Share(c, s, s) == c
  {
  }

  /** Flooring leaves between zero and as many cents as there are shares that are not whole. */
  lemma SpareCents(cents: int, exact: seq<real>)
    requires RealSum(exact) == cents as real
    ensures 0 <= cents - IntSum(Floors(exact)) <= |Broken(exact, |exact|)|
  {
    var n := |exact|;
    FloorsAndFractions(exact, n);
    assert exact[..n] == exact && Floors(exact)[..n] == Floors(exact);
    FractionsAreBelowBroken(exact, n);
    FractionSumNonNegative(exact, n);
  }

  lemma {:induction false} FractionSumNonNegative(exact: seq<real>, n: nat)
    requires n <= |exact|
    ensures FractionSum(exact, n) >= 0.0
  {
    if n > 0 {
      FractionSumNonNegative(exact, n - 1);
    }
  }

  /** The order is a permutation of the indices in which every pair stands in the right order. */
  lemma OrderIsPermutation(exact: seq<real>)
    ensures |Order(exact)| == |exact|
    ensures forall i :: i in Order(exact) <==> 0 <= i < |exact|
    ensures forall a, b :: 0 <= a < b < |Order(exact)| ==>
              Order(exact)[a] != Order(exact)[b] && Before(exact, Order(exact)[a], Order(exact)[b])
  {
    var le := (a, b) => Before(exact, a, b);
    var ids, order := Indices(|exact|), Order(exact);
    assert TotalPreorder(le);
    SortKeeps(ids, le);
    SortSorted(ids, le);
    forall i ensures i in order <==> 0 <= i < |exact| {
      assert i in order <==> i in multiset(order);
      assert i in ids <==> i in multiset(ids);
      if 0 <= i < |exact| {
        assert ids[i] == i;
      }
    }
    assert NoRepeats(ids);
    PermutationKeepsNoRepeats(ids, order);
    forall a, b | 0 <= a < b < |order| ensures order[a] != order[b] && Before(exact, order[a], order[b]) {
      assert le(order[a], order[b]);
    }
  }

  lemma {:induction false} FewElements(xs: seq<int>)
    ensures |set x | x in xs| <= |xs|
  {
    if xs != [] {
      var n := |xs| - 1;
      FewElements(xs[..n]);
      assert xs == xs[..n] + [xs[n]];
      SubsetIsSmaller(set x | x in xs, (set x | x in xs[..n]) + {xs[n]});
    }
  }

  lemma SubsetIsSmaller(a: set<int>, b: set<int>)
    requires a <= b
    ensures |a| <= |b|
  {
    assert b == a + (b - a);
  }

  lemma PrefixSum(xs: seq<int>, n: nat)
    requires 0 < n <= |xs|
    ensures IntSum(xs[..n]) == IntSum(xs[..n - 1]) + xs[n - 1]
  {
    assert xs[..n][..n - 1] == xs[..n - 1];
  }

  lemma {:induction false} BumpSum(xs: seq<int>, i: int)
    requires 0 <= i < |xs|
    ensures IntSum(xs[i := xs[i] + 1]) == IntSum(xs) + 1
  {
    var n := |xs| - 1;
    if i < n {
      BumpSum(xs[..n], i);
      assert xs[i := xs[i] + 1][..n] == xs[..n][i := xs[..n][i] + 1];
    } else {
      assert xs[i := xs[i] + 1][..n] == xs[..n];
    }
  }

  /** The loop's state after k spare cents have gone to the first k of the order. */
  ghost predicate Handed(exact: seq<real>, order: seq<int>, k: nat, parts: seq<int>) {
    && |parts| == |exact| && k <= |order|
    && forall i :: 0 <= i < |exact| ==> parts[i] == exact[i].Floor + (if i in order[..k] then 1 else 0)
  }

  lemma HandOne(exact: seq<real>, k: nat, parts: seq<int>)
    requires k < |Order(exact)| && Handed(exact, Order(exact), k, parts)
    ensures var i := Order(exact)[k];
            && 0 <= i < |parts|
            && Handed(exact, Order(exact), k + 1, parts[i := parts[i] + 1])
            && IntSum(parts[i := parts[i] + 1]) == IntSum(parts) + 1
  {
    hide Order;
    OrderIsPermutation(exact);
    var order := Order(exact);
    var i := order[k];
    assert order[..k + 1] == order[..k] + [i];
    assert i in order;
    BumpSum(parts, i);
  }

  lemma HandedIsLargestRemainder(cents: int, exact: seq<real>, k: nat, parts: seq<int>)
    requires |Order(exact)| == |exact| && Handed(exact, Order(exact), k, parts) && IntSum(parts) == cents
    ensures LargestRemainder(cents, exact, parts)
  {
    hide Order, Before, IntSum;
    OrderIsPermutation(exact);
    var order := Order(exact);
    forall i, j | 0 <= i < |exact| && 0 <= j < |exact| && parts[i] == exact[i].Floor + 1 && parts[j] == exact[j].Floor
      ensures Before(exact, i, j)
    {
      var a :| 0 <= a < k && order[a] == i;
      assert j in order && j !in order[..k];
      assert forall b :: 0 <= b < k ==> order[b] != j;
      var b :| 0 <= b < |order| && order[b] == j;
    }
  }

  /** A non-negative whole number. */
  predicate WholeCents(totalCents: real) {
    totalCents == totalCents.Floor as real && totalCents >= 0.0
  }

  predicate IsNumberOf(x: real, n: nat) {
    x == n as real
  }

  lemma WholeCentsIff(totalCents: real)
    ensures WholeCents(totalCents) <==> exists n: nat :: IsNumberOf(totalCents, n)
  {
    if WholeCents(totalCents) {
      assert IsNumberOf(totalCents, totalCents.Floor);
    }
  }

  /** `allocate`. */
  method Allocate(totalCents: real, weights: seq<real>) returns (r: Result)
    ensures r == Failed(NotWholeCents) <==> !exists n: nat :: IsNumberOf(totalCents, n)
    ensures r == Failed(NoWeights) <==> WholeCents(totalCents) && weights == []
    ensures r == Failed(NegativeWeight) <==> WholeCents(totalCents) && exists i :: 0 <= i < |weights| && weights[i] < 0.0
    ensures r == Failed(AllZero) <==>
            WholeCents(totalCents) && weights != [] && forall i :: 0 <= i < |weights| ==> weights[i] == 0.0
    ensures r.Parts? ==> && weights != [] && RealSum(weights) > 0.0
                         && (forall i :: 0 <= i < |weights| ==> weights[i] >= 0.0)
                         && LargestRemainder(totalCents.Floor, Exact(totalCents.Floor, weights), r.parts)
  {
    hide Order, LargestRemainder, Before, Broken, Handed;
    WholeCentsIff(totalCents);
    if !WholeCents(totalCents) {
      return Failed(NotWholeCents);
    }
    if |weights| == 0 {
      return Failed(NoWeights);
    }
    if exists i :: 0 <= i < |weights| && weights[i] < 0.0 {
      return Failed(NegativeWeight);
    }
    SumOfWeights(weights);
    var sum := RealSum(weights);
    if sum == 0.0 {
      return Failed(AllZero);
    }
    var cents := totalCents.Floor;
    var exact := Exact(cents, weights);
    var parts := Floors(exact);
    var remaining := cents - IntSum(parts);
    var order := Order(exact);
    SharesAddUp(cents, weights);
    SpareCents(cents, exact);
    OrderIsPermutation(exact);
    BrokenAreShares(exact);
    var k := 0;
    assert Handed(exact, order, 0, parts) by {
      StartHanding(exact);
    }
    while k < |order| && remaining > 0
      invariant 0 <= k <= |order| && 0 <= remaining <= |order| - k
      invariant Handed(exact, order, k, parts) && |parts| == |exact|
      invariant IntSum(parts) == cents - remaining
    {
      HandOne(exact, k, parts);
      parts := parts[order[k] := parts[order[k]] + 1];
      remaining := remaining - 1;
      k := k + 1;
    }
    HandedIsLargestRemainder(cents, exact, k, parts);
    return Parts(parts);
  }

  lemma StartHanding(exact: seq<real>)
    ensures Handed(exact, Order(exact), 0, Floors(exact))
  {
    hide Order;
    assert Order(exact)[..0] == [];
  }

  lemma BrokenAreShares(exact: seq<real>)
    ensures |Broken(exact, |exact|)| <= |exact|
  {
    hide Order;
    OrderIsPermutation(exact);
    FewElements(Order(exact));
    SubsetIsSmaller(Broken(exact, |exact|), set x | x in Order(exact));
  }

  lemma {:induction false} SumOfWeights(weights: seq<real>)
    requires forall i :: 0 <= i < |weights| ==> weights[i] >= 0.0
    ensures RealSum(weights) >= 0.0
    ensures RealSum(weights) == 0.0 <==> forall i :: 0 <= i < |weights| ==> weights[i] == 0.0
  {
    if weights != [] {
      var n := |weights| - 1;
      SumOfWeights(weights[..n]);
      assert forall i :: 0 <= i < n ==> weights[..n][i] == weights[i];
    }
  }

  // ---------------------------------------------------------------- consequences for payees

  predicate GotExtra(exact: seq<real>, parts: seq<int>, i: int)
    requires 0 <= i < |exact| == |parts|
  {
    parts[i] == exact[i].Floor + 1
  }

  /** Who got an extra cent, among the first n. */
  function Extras(exact: seq<real>, parts: seq<int>, n: nat): set<int>
    requires n <= |exact| == |parts|
  {
    set i | 0 <= i < n && GotExtra(exact, parts, i)
  }

  lemma {:induction false} ExtrasCount(exact: seq<real>, parts: seq<int>, n: nat)
    requires n <= |exact| == |parts|
    requires forall i :: 0 <= i < |exact| ==> parts[i] == exact[i].Floor || parts[i] == exact[i].Floor + 1
    ensures |Extras(exact, parts, n)| == IntSum(parts[..n]) - IntSum(Floors(exact)[..n])
  {
    hide IntSum, Extras;
    if n > 0 {
      ExtrasCount(exact, parts, n - 1);
      ExtrasStep(exact, parts, n);
      PrefixSum(parts, n);
      PrefixSum(Floors(exact), n);
    } else {
      NoExtras(exact, parts);
      assert Floors(exact)[..0] == parts[..0];
    }
  }

  lemma NoExtras(exact: seq<real>, parts: seq<int>)
    requires |exact| == |parts|
    ensures |Extras(exact, parts, 0)| == 0
  {
  }

  lemma ExtrasStep(exact: seq<real>, parts: seq<int>, n: nat)
    requires 0 < n <= |exact| == |parts|
    ensures |Extras(exact, parts, n)| ==
            |Extras(exact, parts, n - 1)| + (if GotExtra(exact, parts, n - 1) then 1 else 0)
  {
    hide GotExtra;
    if GotExtra(exact, parts, n - 1) {
      assert Extras(exact, parts, n) == Extras(exact, parts, n - 1) + {n - 1};
    } else {
      assert Extras(exact, parts, n) == Extras(exact, parts, n - 1);
    }
  }

  /** Spare cents never reach a share that is whole. */
  lemma NoExtraForWholeShares(cents: int, exact: seq<real>, parts: seq<int>, i: int)
    requires RealSum(exact) == cents as real && LargestRemainder(cents, exact, parts) && 0 <= i < |exact|
    requires Fraction(exact, i) == 0.0
    ensures parts[i] == exact[i].Floor
  {
    if parts[i] == exact[i].Floor + 1 {
      var n := |exact|;
      var extras, broken := Extras(exact, parts, n), Broken(exact, n);
      SpareCents(cents, exact);
      ExtrasCount(exact, parts, n);
      assert parts[..n] == parts && Floors(exact)[..n] == Floors(exact);
      forall j | j in broken ensures j in extras {
        assert parts[j] == exact[j].Floor ==> Before(exact, i, j);
      }
      SubsetIsSmaller(broken + {i}, extras);
    }
  }

  lemma WholeShareIsExact(cents: int, exact: seq<real>, parts: seq<int>, i: int)
    requires RealSum(exact) == cents as real && LargestRemainder(cents, exact, parts)
    requires 0 <= i < |exact| && exact[i] >= 0.0
    ensures |parts| == |exact| && parts[i] >= 0
    ensures Fraction(exact, i) == 0.0 ==> parts[i] as real == exact[i]
  {
    if Fraction(exact, i) == 0.0 {
      NoExtraForWholeShares(cents, exact, parts, i);
    }
  }

  /** No part is negative, and a payee whose share is whole, a zero weight included, gets exactly it. */
  lemma WholeSharesAreExact(cents: int, weights: seq<real>, parts: seq<int>, i: int)
    requires cents >= 0 && RealSum(weights) > 0.0
    requires forall j :: 0 <= j < |weights| ==> weights[j] >= 0.0
    requires LargestRemainder(cents, Exact(cents, weights), parts) && 0 <= i < |weights|
    ensures |parts| == |weights| && parts[i] >= 0
    ensures Fraction(Exact(cents, weights), i) == 0.0 ==> parts[i] as real == Exact(cents, weights)[i]
    ensures weights[i] == 0.0 ==> parts[i] == 0
  {
    hide LargestRemainder, RealSum, Share;
    var exact := Exact(cents, weights);
    var share := exact[i];
    NonNegativeShare(cents as real, weights[i], RealSum(weights));
    SharesAddUp(cents, weights);
    WholeShareIsExact(cents, exact, parts, i);
    if weights[i] == 0.0 {
      assert share == 0.0;
      assert Fraction(exact, i) == 0.0;
    }
  }

  lemma NonNegativeShare(c: real, w: real, s: real)
    requires c >= 0.0 && w >= 0.0 && s > 0.0
    ensures Share(c, w, s) >= 0.0
    ensures w == 0.0 ==> Share(c, w, s) == 0.0
  {
  }

  // ---------------------------------------------------------------- closest to the exact proportion

  function Abs(x: real): real {
    if x >= 0.0 then x else 0.0 - x
  }

  /** How far whole parts are from the exact shares, in all. */
  function Distance(parts: seq<int>, exact: seq<real>, n: nat): real
    requires n <= |parts| == |exact|
  {
    if n == 0 then 0.0 else Distance(parts, exact, n - 1) + Abs(parts[n - 1] as real - exact[n - 1])
  }

  /** t separates the fractions: nobody below it got an extra cent, nobody above it went without. */
  ghost predicate Separates(exact: seq<real>, parts: seq<int>, t: real) {
    && |parts| == |exact| && 0.0 <= t <= 1.0
    && forall i :: 0 <= i < |exact| ==>
         || (parts[i] == exact[i].Floor && Fraction(exact, i) <= t)
         || (parts[i] == exact[i].Floor + 1 && Fraction(exact, i) >= t)
  }

  /** The largest fraction that went without an extra cent, or 0. */
  function LargestPassedOver(exact: seq<real>, parts: seq<int>, n: nat): (t: real)
    requires n <= |exact| == |parts|
    ensures 0.0 <= t < 1.0
    ensures forall i :: 0 <= i < n && parts[i] == exact[i].Floor ==> Fraction(exact, i) <= t
    ensures t == 0.0 || exists i :: 0 <= i < n && parts[i] == exact[i].Floor && Fraction(exact, i) == t
  {
    if n == 0 then 0.0
    else
      var t := LargestPassedOver(exact, parts, n - 1);
      if parts[n - 1] == exact[n - 1].Floor && Fraction(exact, n - 1) > t then Fraction(exact, n - 1) else t
  }

  lemma LargestSeparates(cents: int, exact: seq<real>, parts: seq<int>)
    requires LargestRemainder(cents, exact, parts)
    ensures Separates(exact, parts, LargestPassedOver(exact, parts, |exact|))
  {
    hide IntSum;
    var t := LargestPassedOver(exact, parts, |exact|);
    forall i | 0 <= i < |exact| && parts[i] == exact[i].Floor + 1 ensures Fraction(exact, i) >= t {
      if t != 0.0 {
        var j :| 0 <= j < |exact| && parts[j] == exact[j].Floor && Fraction(exact, j) == t;
        assert Before(exact, i, j);
      }
    }
  }

  lemma ThresholdExists(cents: int, exact: seq<real>, parts: seq<int>) returns (t: real)
    requires LargestRemainder(cents, exact, parts)
    ensures Separates(exact, parts, t)
  {
    t := LargestPassedOver(exact, parts, |exact|);
    LargestSeparates(cents, exact, parts);
  }

  lemma TimesAtLeast(a: real, d: real, ad: real)
    requires a >= 0.0 && ad == a * d
    ensures d >= 1.0 ==> ad >= a
    ensures d <= -1.0 ==> ad <= 0.0 - a
    ensures d == 0.0 ==> ad == 0.0
  {
    if d >= 1.0 {
      NonNegativeProduct(a, d - 1.0);
    } else if d <= -1.0 {
      NonNegativeProduct(a, -1.0 - d);
    }
  }

  lemma NonNegativeProduct(a: real, b: real)
    requires a >= 0.0 && b >= 0.0
    ensures a * b >= 0.0
  {
  }

  /** The slopes of the distance to a share with floor k and fraction f: t * d enters as td. */
  lemma ConvexDistance(k: real, f: real, p: int, d: int, t: real, td: real)
    requires 0.0 <= f < 1.0 && 0.0 <= t <= 1.0
    requires (p as real == k && f <= t) || (p as real == k + 1.0 && f >= t)
    requires d >= 1 ==> td >= t
    requires d <= -1 ==> d as real - td <= t - 1.0
    requires d == 0 ==> td == 0.0
    ensures Abs((p + d) as real - (k + f)) >= Abs(p as real - (k + f)) + d as real - 2.0 * td
  {
    if d <= -1 {
      assert d as real <= -1.0;
    } else if d >= 1 {
      assert d as real >= 1.0;
    }
  }

  /** From part p to part q, the distance to the share e grows at least as steeply as the slope. */
  ghost predicate AboveTangent(e: real, p: int, q: int, slope: real) {
    Abs(q as real - e) >= Abs(p as real - e) + slope * (q - p) as real
  }

  /** Distance from one share is convex in the part, with slope 1 - 2t at the chosen part. */
  lemma SlopeBound(exact: seq<real>, i: int, p: int, q: int, t: real)
    requires 0 <= i < |exact| && 0.0 <= t <= 1.0
    requires (p == exact[i].Floor && Fraction(exact, i) <= t) || (p == exact[i].Floor + 1 && Fraction(exact, i) >= t)
    ensures AboveTangent(exact[i], p, q, 1.0 - 2.0 * t)
  {
    hide Abs;
    var d := q - p;
    var df := d as real;
    var td := t * df;
    TimesAtLeast(t, df, td);
    TimesAtLeast(1.0 - t, df, df - td);
    assert (1.0 - 2.0 * t) * df == df - 2.0 * td;
    ConvexDistance(exact[i].Floor as real, Fraction(exact, i), p, d, t, td);
  }

  lemma {:induction false} DistanceBound(exact: seq<real>, p: seq<int>, q: seq<int>, slope: real, n: nat)
    requires |p| == |q| == |exact| && n <= |exact|
    requires forall i :: 0 <= i < |exact| ==>
               AboveTangent(exact[i], p[i], q[i], slope)
    ensures Distance(q, exact, n) >=
            Distance(p, exact, n) + slope * (IntSum(q[..n]) - IntSum(p[..n])) as real
  {
    hide IntSum, Abs;
    if n > 0 {
      DistanceBound(exact, p, q, slope, n - 1);
      PrefixSum(p, n);
      PrefixSum(q, n);
      Split(slope, IntSum(q[..n - 1]) - IntSum(p[..n - 1]), q[n - 1] - p[n - 1]);
    } else {
      assert q[..0] == p[..0];
    }
  }

  lemma Split(slope: real, a: int, b: int)
    ensures slope * (a + b) as real == slope * a as real + slope * b as real
  {
  }

  lemma CommonSlope(cents: int, exact: seq<real>, parts: seq<int>, others: seq<int>) returns (slope: real)
    requires LargestRemainder(cents, exact, parts) && |others| == |exact| == |parts|
    ensures forall i :: 0 <= i < |exact| ==>
              AboveTangent(exact[i], parts[i], others[i], slope)
  {
    hide LargestRemainder, IntSum, AboveTangent;
    var t := ThresholdExists(cents, exact, parts);
    slope := 1.0 - 2.0 * t;
    forall i | 0 <= i < |exact|
      ensures AboveTangent(exact[i], parts[i], others[i], slope)
    {
      SlopeBound(exact, i, parts[i], others[i], t);
    }
  }

  lemma SumIsCents(cents: int, exact: seq<real>, parts: seq<int>)
    requires LargestRemainder(cents, exact, parts)
    ensures |parts| == |exact| && IntSum(parts) == cents
  {
  }

  /** No other way of splitting the same cents into whole parts comes closer to the exact shares. */
  lemma ClosestToExact(cents: int, exact: seq<real>, parts: seq<int>, others: seq<int>)
    requires LargestRemainder(cents, exact, parts)
    requires |others| == |exact| && IntSum(others) == cents
    ensures Distance(parts, exact, |exact|) <= Distance(others, exact, |exact|)
  {
    hide LargestRemainder, IntSum, AboveTangent, Distance;
    SumIsCents(cents, exact, parts);
    var slope := CommonSlope(cents, exact, parts, others);
    DistanceBound(exact, parts, others, slope, |exact|);
    assert slope * 0.0 == 0.0;
    assert parts[..|exact|] == parts && others[..|exact|] == others;
  }

  // ---------------------------------------------------------------- ties to the left

  lemma {:induction false} FractionsStayBelow(exact: seq<real>, n: nat)
    requires n <= |exact| && Broken(exact, n) != {}
    ensures FractionSum(exact, n) < |Broken(exact, n)| as real
  {
    hide Broken, Fraction;
    if n == 0 {
      NoneBroken(exact);
    } else {
      BrokenStep(exact, n);
      FractionsAreBelowBroken(exact, n - 1);
      if Fraction(exact, n - 1) <= 0.0 {
        FractionsStayBelow(exact, n - 1);
      }
    }
  }

  lemma NoneBroken(exact: seq<real>)
    ensures Broken(exact, 0) == {}
  {
  }

  lemma BrokenStep(exact: seq<real>, n: nat)
    requires 0 < n <= |exact|
    ensures Fraction(exact, n - 1) > 0.0 ==> |Broken(exact, n)| == |Broken(exact, n - 1)| + 1
    ensures Fraction(exact, n - 1) <= 0.0 ==> Broken(exact, n) == Broken(exact, n - 1)
  {
    if Fraction(exact, n - 1) > 0.0 {
      assert Broken(exact, n) == Broken(exact, n - 1) + {n - 1};
    } else {
      assert Broken(exact, n) == Broken(exact, n - 1);
    }
  }

  /** When a share is broken, some broken share goes without an extra cent. */
  lemma SomeoneIsPassedOver(cents: int, exact: seq<real>, parts: seq<int>) returns (i: int)
    requires RealSum(exact) == cents as real && LargestRemainder(cents, exact, parts)
    requires Broken(exact, |exact|) != {}
    ensures 0 <= i < |exact| && parts[i] == exact[i].Floor && Fraction(exact, i) > 0.0
  {
    hide IntSum, RealSum;
    var n := |exact|;
    var extras, broken := Extras(exact, parts, n), Broken(exact, n);
    FractionsStayBelow(exact, n);
    FloorsAndFractions(exact, n);
    ExtrasCount(exact, parts, n);
    assert exact[..n] == exact && parts[..n] == parts && Floors(exact)[..n] == Floors(exact);
    assert |extras| < |broken|;
    if broken <= extras {
      SubsetIsSmaller(broken, extras);
    }
    i :| i in broken && i !in extras;
  }

  /** A threshold strictly between 0 and 1. */
  lemma InnerThreshold(cents: int, exact: seq<real>, parts: seq<int>) returns (t: real)
    requires RealSum(exact) == cents as real && LargestRemainder(cents, exact, parts)
    ensures Separates(exact, parts, t) && 0.0 < t < 1.0
  {
    hide IntSum, RealSum;
    if Broken(exact, |exact|) == {} {
      t := 0.5;
      forall i | 0 <= i < |exact| ensures parts[i] == exact[i].Floor && Fraction(exact, i) == 0.0 {
        assert i !in Broken(exact, |exact|);
        NoExtraForWholeShares(cents, exact, parts, i);
      }
    } else {
      var i := SomeoneIsPassedOver(cents, exact, parts);
      t := LargestPassedOver(exact, parts, |exact|);
      assert Fraction(exact, i) <= t;
      LargestSeparates(cents, exact, parts);
    }
  }

  /** At an inner threshold another part is as good only by moving one cent at the threshold itself. */
  predicate MovesOne(exact: seq<real>, i: int, p: int, q: int, t: real)
    requires 0 <= i < |exact|
  {
    || q == p
    || (p == exact[i].Floor && q == p + 1 && Fraction(exact, i) == t)
    || (p == exact[i].Floor + 1 && q == p - 1 && Fraction(exact, i) == t)
  }

  lemma TightIsOne(exact: seq<real>, i: int, p: int, q: int, t: real)
    requires 0 <= i < |exact| && 0.0 < t < 1.0
    requires (p == exact[i].Floor && Fraction(exact, i) <= t) || (p == exact[i].Floor + 1 && Fraction(exact, i) >= t)
    requires Abs(q as real - exact[i]) <= Abs(p as real - exact[i]) + (1.0 - 2.0 * t) * (q - p) as real
    ensures MovesOne(exact, i, p, q, t)
  {
    var f, k, d := Fraction(exact, i), exact[i].Floor as real, q - p;
    var df := d as real;
    var td := t * df;
    assert (1.0 - 2.0 * t) * df == df - 2.0 * td;
    assert exact[i] == k + f;
    if d >= 2 {
      StrictlyMore(t, df, td);
    } else if d <= -2 {
      StrictlyMore(1.0 - t, 0.0 - df, td - df);
    }
  }

  lemma StrictlyMore(a: real, d: real, ad: real)
    requires a > 0.0 && d >= 2.0 && ad == a * d
    ensures ad > a
  {
    NonNegativeProduct(a, d - 2.0);
  }

  lemma {:induction false} EachIsTight(exact: seq<real>, p: seq<int>, q: seq<int>, slope: real, n: nat)
    requires |p| == |q| == |exact| && n <= |exact|
    requires forall i :: 0 <= i < |exact| ==> AboveTangent(exact[i], p[i], q[i], slope)
    requires Distance(q, exact, n) <= Distance(p, exact, n) + slope * (IntSum(q[..n]) - IntSum(p[..n])) as real
    ensures forall i :: 0 <= i < n ==>
              Abs(q[i] as real - exact[i]) <= Abs(p[i] as real - exact[i]) + slope * (q[i] - p[i]) as real
  {
    hide IntSum, Abs;
    if n > 0 {
      DistanceBound(exact, p, q, slope, n - 1);
      PrefixSum(p, n);
      PrefixSum(q, n);
      Split(slope, IntSum(q[..n - 1]) - IntSum(p[..n - 1]), q[n - 1] - p[n - 1]);
      EachIsTight(exact, p, q, slope, n - 1);
    }
  }

  /** Where two payees are equally close, the earlier one gets the cent: of all whole splits of the same cents
      that are as close to the exact shares, the result gives the first payee on whom they differ more. */
  lemma TiesGoLeft(cents: int, exact: seq<real>, parts: seq<int>, others: seq<int>, i: int)
    requires RealSum(exact) == cents as real && LargestRemainder(cents, exact, parts)
    requires |others| == |exact| && IntSum(others) == cents
    requires Distance(others, exact, |exact|) <= Distance(parts, exact, |exact|)
    requires 0 <= i < |exact| && others[i] != parts[i] && others[..i] == parts[..i]
    ensures others[i] < parts[i]
  {
    var t := InnerThreshold(cents, exact, parts);
    AllMoveOne(cents, exact, parts, others, t);
    var j := SomeoneLess(parts, others);
    assert forall k :: 0 <= k < i ==> others[..i][k] == parts[..i][k];
    assert parts[j] == exact[j].Floor + 1 && parts[i] == exact[i].Floor ==> Before(exact, j, i);
  }

  lemma AllMoveOne(cents: int, exact: seq<real>, parts: seq<int>, others: seq<int>, t: real)
    requires LargestRemainder(cents, exact, parts) && Separates(exact, parts, t) && 0.0 < t < 1.0
    requires |others| == |exact| && IntSum(others) == cents
    requires Distance(others, exact, |exact|) <= Distance(parts, exact, |exact|)
    ensures forall i :: 0 <= i < |exact| ==> MovesOne(exact, i, parts[i], others[i], t)
  {
    hide IntSum, Distance, Abs;
    var n, slope := |exact|, 1.0 - 2.0 * t;
    assert parts[..n] == parts && others[..n] == others;
    assert slope * 0.0 == 0.0;
    forall i | 0 <= i < n ensures AboveTangent(exact[i], parts[i], others[i], slope) {
      SlopeBound(exact, i, parts[i], others[i], t);
    }
    EachIsTight(exact, parts, others, slope, n);
    forall i | 0 <= i < n ensures MovesOne(exact, i, parts[i], others[i], t) {
      TightIsOne(exact, i, parts[i], others[i], t);
    }
  }

  lemma SomeoneLess(p: seq<int>, q: seq<int>) returns (j: int)
    requires |p| == |q| && IntSum(p) == IntSum(q) && p != q
    ensures 0 <= j < |p| && q[j] < p[j]
  {
    if forall k :: 0 <= k < |p| ==> p[k] <= q[k] {
      SmallerSumsLess(p, q);
    }
    j :| 0 <= j < |p| && q[j] < p[j];
  }
}
