/** Sizing an experiment: the repeats per arm needed to detect an effect, and the effect a number of
    repeats detects. `z` is the sum of the two normal quantiles; square roots are given by their
    defining equation. */
module SampleSize {
  import opened Options
  import opened WilsonInterval

  /** `math.Ceil`. */
  function Ceil(x: real): int {
    -((-x).Floor)
  }

  /** `RepeatsForSD`. */
  function RepeatsForSD(sd: real, effect: real, z: real): Option<int> {
    if effect <= 0.0 || sd <= 0.0 then None
    else
      var ratio := z * sd / effect;
      var n := Ceil(2.0 * (ratio * ratio));
      Some(if n < 1 then 1 else n)
  }

  /** `MDEForRelSD`; `root` is the square root of two over the repeats per arm. */
  function DetectableEffect(sd: real, perArm: int, z: real, root: real): real
    requires perArm >= 1 ==> IsRoot(root, 2.0 / perArm as real)
  {
    if sd <= 0.0 || perArm < 1 then 0.0 else z * sd * root
  }

  /** An answer is at least one repeat, and there is one exactly for a positive effect and a positive spread. */
  lemma AnswersIff(sd: real, effect: real, z: real)
    ensures RepeatsForSD(sd, effect, z).Some? <==> sd > 0.0 && effect > 0.0
    ensures RepeatsForSD(sd, effect, z).Some? ==> RepeatsForSD(sd, effect, z).value >= 1
  {
  }

  lemma CeilIsLeast(x: real, m: int)
    ensures m >= Ceil(x) <==> m as real >= x
  {
  }

  lemma SquaresOrder(a: real, b: real)
    requires a >= 0.0 && b >= 0.0
    ensures a <= b <==> a * a <= b * b
  {
    assert (b - a) * (b + a) == b * b - a * a;
    if a <= b {
      ProductNonNegative(b - a, b + a);
    } else {
      ProductPositive(a - b, a + b);
      assert (a - b) * (a + b) == a * a - b * b;
    }
  }

  /** The comparison with denominators cleared: a2, r2 and q2 are squares of the spread, the root and
      the spread over the effect e. */
  lemma SolveCleared(a2: real, r2: real, e: real, q2: real, m: real)
    requires m > 0.0 && e > 0.0 && m * r2 == 2.0 && q2 * (e * e) == a2
    ensures a2 * r2 <= e * e <==> m >= 2.0 * q2
  {
    var d, gap := a2 * r2 - e * e, 2.0 * q2 - m;
    assert m * d == e * (e * gap) by {
      assert m * (a2 * r2) == a2 * (m * r2);
      assert m * d == m * (a2 * r2) - m * (e * e);
      assert m * d == 2.0 * (q2 * (e * e)) - m * (e * e);
    }
    SignOfProduct(m, d);
    SignOfProduct(e, e * gap);
    SignOfProduct(e, gap);
  }

  lemma SquareOfProduct(x: real, y: real)
    ensures (x * y) * (x * y) == (x * x) * (y * y)
  {
  }

  /** The squared comparison behind "repeats m detect the effect", solved for m. */
  lemma SolveForRepeats(sd: real, effect: real, z: real, m: int, root: real)
    requires sd > 0.0 && effect > 0.0 && m >= 1 && IsRoot(root, 2.0 / m as real)
    ensures (z * sd * root) * (z * sd * root) <= effect * effect <==>
            m as real >= 2.0 * ((z * sd / effect) * (z * sd / effect))
  {
    var a, ratio := z * sd, z * sd / effect;
    SquareOfProduct(a, root);
    SquareOfProduct(ratio, effect);
    assert ratio * effect == a;
    SolveCleared(a * a, root * root, effect, ratio * ratio, m as real);
  }

  ghost predicate Roots(roots: int -> real) {
    forall m :: m >= 1 ==> IsRoot(roots(m), 2.0 / m as real)
  }

  /** m repeats per arm detect the effect. */
  predicate Detects(sd: real, effect: real, z: real, m: int, root: real)
    requires m >= 1 && IsRoot(root, 2.0 / m as real)
  {
    DetectableEffect(sd, m, z, root) <= effect
  }

  /** With a positive combined quantile, a number of repeats detects the effect exactly when it is
      at least the number RepeatsForSD asks for. */
  lemma RepeatsAreExact(sd: real, effect: real, z: real, m: int, root: real)
    requires sd > 0.0 && effect > 0.0 && z > 0.0 && m >= 1 && IsRoot(root, 2.0 / m as real)
    ensures Detects(sd, effect, z, m, root) <==> m >= RepeatsForSD(sd, effect, z).value
  {
    ProductPositive(z, sd);
    ProductNonNegative(z * sd, root);
    SquaresOrder(z * sd * root, effect);
    SolveForRepeats(sd, effect, z, m, root);
    CeilIsLeast(2.0 * ((z * sd / effect) * (z * sd / effect)), m);
  }

  /** n is the least number of repeats, at least one, that detects the effect. */
  ghost predicate LeastDetecting(sd: real, effect: real, z: real, n: int, roots: int -> real)
    requires Roots(roots)
  {
    n >= 1 && Detects(sd, effect, z, n, roots(n)) && forall m :: 1 <= m < n ==> !Detects(sd, effect, z, m, roots(m))
  }

  /** `RepeatsForSD` returns the least detecting number exactly when the quantile sum is positive or
      the formula asks for a single run anyway: for a sum that is not positive every number of
      repeats "detects" the effect, while the formula only sees the square of the sum. */
  lemma LeastIffPositiveQuantile(sd: real, effect: real, z: real, roots: int -> real)
    requires sd > 0.0 && effect > 0.0 && Roots(roots)
    ensures RepeatsForSD(sd, effect, z).Some?
    ensures LeastDetecting(sd, effect, z, RepeatsForSD(sd, effect, z).value, roots) <==>
            z > 0.0 || 2.0 * ((z * sd / effect) * (z * sd / effect)) <= 1.0
  {
    var n := RepeatsForSD(sd, effect, z).value;
    assert Roots(roots);
    if z > 0.0 {
      RepeatsAreExact(sd, effect, z, n, roots(n));
      forall m | 1 <= m < n ensures !Detects(sd, effect, z, m, roots(m)) {
        RepeatsAreExact(sd, effect, z, m, roots(m));
      }
    } else {
      forall m | m >= 1 ensures Detects(sd, effect, z, m, roots(m)) {
        ProductNonNegative(0.0 - z, sd);
        ProductNonNegative((0.0 - z) * sd, roots(m));
        assert ((0.0 - z) * sd) * roots(m) == 0.0 - z * sd * roots(m);
      }
      CeilIsLeast(2.0 * ((z * sd / effect) * (z * sd / effect)), 1);
      if n > 1 {
        assert Detects(sd, effect, z, 1, roots(1));
      }
    }
  }

  /** A quantile sum of -1, with spread and effect 1: two repeats are asked for, where one already counts
      as detecting the effect. */
  lemma NegativeSumAsksForTooMany(roots: int -> real)
    requires Roots(roots)
    ensures RepeatsForSD(1.0, 1.0, -1.0) == Some(2)
    ensures Detects(1.0, 1.0, -1.0, 1, roots(1)) && !LeastDetecting(1.0, 1.0, -1.0, 2, roots)
  {
    assert IsRoot(roots(1), 2.0 / 1 as real);
    assert Detects(1.0, 1.0, -1.0, 1, roots(1));
  }

  lemma SmallerShare(m: real, n: real)
    requires 0.0 < m < n
    ensures 0.0 < 2.0 / n < 2.0 / m
  {
    var x, y := 2.0 / m, 2.0 / n;
    assert m * x == 2.0 && n * y == 2.0;
    SignOfProduct(n, y);
    ProductPositive(n - m, y);
    assert (n - m) * y == n * y - m * y;
    SignOfProduct(m, x - y);
    assert m * (x - y) == m * x - m * y;
  }

  /** For a positive quantile sum something is detectable exactly with a positive spread and at least one repeat;
      without either the answer is 0. */
  lemma DetectableIff(sd: real, perArm: int, z: real, root: real)
    requires z > 0.0 && (perArm >= 1 ==> IsRoot(root, 2.0 / perArm as real))
    ensures DetectableEffect(sd, perArm, z, root) > 0.0 <==> sd > 0.0 && perArm >= 1
    ensures DetectableEffect(sd, perArm, z, root) >= 0.0
  {
    if sd > 0.0 && perArm >= 1 {
      PositiveShare(perArm as real);
      assert root != 0.0;
      ProductPositive(z, sd);
      ProductPositive(z * sd, root);
    }
  }

  lemma PositiveShare(m: real)
    requires m > 0.0
    ensures 2.0 / m > 0.0
  {
    assert m * (2.0 / m) == 2.0;
    SignOfProduct(m, 2.0 / m);
  }

  /** More repeats always detect a strictly smaller effect. */
  lemma MoreRepeatsDetectLess(sd: real, z: real, m: int, n: int, rm: real, rn: real)
    requires sd > 0.0 && z > 0.0 && 1 <= m < n
    requires IsRoot(rm, 2.0 / m as real) && IsRoot(rn, 2.0 / n as real)
    ensures 0.0 < DetectableEffect(sd, n, z, rn) < DetectableEffect(sd, m, z, rm)
  {
    var mf, nf := m as real, n as real;
    SmallerShare(mf, nf);
    SquaresOrder(rm, rn);
    assert rn < rm;
    assert rn != 0.0;
    ProductPositive(z, sd);
    ProductPositive(z * sd, rn);
    ProductPositive(z * sd, rm - rn);
    assert z * sd * (rm - rn) == z * sd * rm - z * sd * rn;
  }
}
