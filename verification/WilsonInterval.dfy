/** The Wilson score interval over the reals. The square root enters through its defining equation:
    callers supply the non-negative number whose square is the radicand. */
module WilsonInterval {

  predicate IsRoot(root: real, x: real) {
    root >= 0.0 && root * root == x
  }

  function Min(a: real, b: real): real { if a <= b then a else b }
  function Max(a: real, b: real): real { if a >= b then a else b }

  /** The observed proportion, clamped to [0, 1]. */
  function Proportion(successes: int, n: int): (p: real)
    requires n > 0
  {
    var p := successes as real / n as real;
    if p < 0.0 then 0.0 else if p > 1.0 then 1.0 else p
  }

  function Denominator(n: int, z: real): (d: real)
    requires n > 0
    ensures d >= 1.0
  {
    Squares(z);
    1.0 + z * z / n as real
  }

  lemma Squares(z: real)
    ensures z * z >= 0.0
  {
  }

  function Radicand(p: real, n: int, z: real): real
    requires n > 0
  {
    var nf := n as real;
    p * (1.0 - p) / nf + z * z / (4.0 * nf * nf)
  }

  function Centre(p: real, n: int, z: real): real
    requires n > 0
  {
    (p + z * z / (2.0 * n as real)) / Denominator(n, z)
  }

  function Half(n: int, z: real, root: real): real
    requires n > 0
  {
    z / Denominator(n, z) * root
  }

  /** `Wilson`. */
  function Wilson(successes: int, n: int, z: real, root: real): (interval: (real, real))
    requires n > 0 ==> IsRoot(root, Radicand(Proportion(successes, n), n, z))
  {
    if n <= 0 then (0.0, 1.0)
    else
      var p := Proportion(successes, n);
      (Max(0.0, Centre(p, n, z) - Half(n, z, root)), Min(1.0, Centre(p, n, z) + Half(n, z, root)))
  }

  /** The score statistic of a hypothesised proportion q: how far the observation may lie from it. */
  predicate Accepts(p: real, n: int, z: real, q: real) {
    n as real * (p - q) * (p - q) <= z * z * q * (1.0 - q)
  }

  // ---------------------------------------------------------------- algebra

  /** The centre c with its denominator cleared; z2 is the squared quantile. */
  predicate CentreCleared(n: real, z2: real, p: real, c: real) {
    2.0 * (n + z2) * c == 2.0 * n * p + z2
  }

  /** The half width h with its denominator cleared. */
  predicate HalfCleared(n: real, z2: real, p: real, h: real) {
    4.0 * (n + z2) * (n + z2) * (h * h) == 4.0 * n * z2 * p * (1.0 - p) + z2 * z2
  }

  /** The quadratic behind the interval, at a hypothesised proportion q. */
  predicate ScoreQuadratic(n: real, z2: real, p: real, q: real, c: real, h: real) {
    n * (p - q) * (p - q) - z2 * q * (1.0 - q) == (n + z2) * ((q - c) * (q - c) - h * h)
  }

  /** Completing the square. */
  lemma CompleteSquare(n: real, z2: real, p: real, q: real, c: real, h: real)
    requires n > 0.0 && z2 >= 0.0 && CentreCleared(n, z2, p, c) && HalfCleared(n, z2, p, h)
    ensures ScoreQuadratic(n, z2, p, q, c, h)
  {
    var m, h2 := n + z2, h * h;
    var lhs := n * (p - q) * (p - q) - z2 * q * (1.0 - q);
    assert lhs == m * q * q - (2.0 * n * p + z2) * q + n * p * p;
    assert lhs == m * q * q - 2.0 * m * c * q + n * p * p;
    assert m * ((q - c) * (q - c) - h2) == m * q * q - 2.0 * m * c * q + m * c * c - m * h2;
    var d := m * c * c - m * h2;
    assert 4.0 * m * d == (2.0 * m * c) * (2.0 * m * c) - 4.0 * m * m * h2;
    assert (2.0 * n * p + z2) * (2.0 * n * p + z2) == 4.0 * n * n * p * p + 4.0 * n * p * z2 + z2 * z2;
    assert 4.0 * m * d == 4.0 * n * n * p * p + 4.0 * n * z2 * p * p;
    assert 4.0 * m * d == 4.0 * m * (n * p * p);
    Cancel(4.0 * m, d, n * p * p);
  }

  lemma ProductNonNegative(a: real, b: real)
    requires a >= 0.0 && b >= 0.0
    ensures a * b >= 0.0
  {
  }

  lemma ProductPositive(a: real, b: real)
    requires a > 0.0 && b > 0.0
    ensures a * b > 0.0
  {
  }

  lemma Cancel(k: real, a: real, b: real)
    requires k != 0.0 && k * a == k * b
    ensures a == b
  {
  }

  lemma CentreEquation(p: real, n: int, z: real)
    requires n > 0
    ensures CentreCleared(n as real, z * z, p, Centre(p, n, z))
  {
    var nf, d, c := n as real, Denominator(n, z), Centre(p, n, z);
    assert nf * d == nf + z * z;
    assert c * d == p + z * z / (2.0 * nf);
    assert 2.0 * nf * (z * z / (2.0 * nf)) == z * z;
    assert 2.0 * (nf * d) * c == 2.0 * nf * (c * d);
  }

  lemma SquareOfProduct(m: real, h: real, n: real, z: real, root: real)
    requires m * h == n * (z * root)
    ensures m * m * (h * h) == n * n * (z * z) * (root * root)
  {
    assert m * m * (h * h) == (m * h) * (m * h);
    assert (n * (z * root)) * (n * (z * root)) == n * n * (z * z) * (root * root);
  }

  lemma HalfTimesM(n: int, z: real, root: real)
    requires n > 0
    ensures (n as real + z * z) * Half(n, z, root) == n as real * (z * root)
  {
    var nf, d, h := n as real, Denominator(n, z), Half(n, z, root);
    assert nf * d == nf + z * z;
    assert d * h == z * root by {
      assert d * (z / d) == z;
      assert d * h == d * (z / d) * root;
    }
    assert (nf * d) * h == nf * (d * h);
  }

  lemma RadicandCleared(p: real, n: int, z: real)
    requires n > 0
    ensures 4.0 * (n as real * n as real) * Radicand(p, n, z) == 4.0 * n as real * (p * (1.0 - p)) + z * z
  {
    var nf := n as real;
    var a, b := p * (1.0 - p) / nf, z * z / (4.0 * nf * nf);
    assert nf * a == p * (1.0 - p);
    assert (4.0 * nf * nf) * b == z * z;
    assert 4.0 * (nf * nf) * (a + b) == 4.0 * nf * (nf * a) + (4.0 * nf * nf) * b;
  }

  lemma HalfFromSquares(n: real, z2: real, p: real, h: real, r: real)
    requires (n + z2) * (n + z2) * (h * h) == n * n * z2 * r
    requires 4.0 * (n * n) * r == 4.0 * n * (p * (1.0 - p)) + z2
    ensures HalfCleared(n, z2, p, h)
  {
    var v, h2 := p * (1.0 - p), h * h;
    assert 4.0 * (n + z2) * (n + z2) * h2 == 4.0 * ((n + z2) * (n + z2) * h2);
    assert 4.0 * (n * n * z2 * r) == z2 * (4.0 * (n * n) * r);
    assert z2 * (4.0 * n * v + z2) == 4.0 * n * z2 * v + z2 * z2;
    assert 4.0 * n * z2 * p * (1.0 - p) == 4.0 * n * z2 * v;
  }

  lemma HalfEquation(p: real, n: int, z: real, root: real)
    requires n > 0 && IsRoot(root, Radicand(p, n, z))
    ensures HalfCleared(n as real, z * z, p, Half(n, z, root))
  {
    hide Half, Radicand, HalfCleared;
    HalfTimesM(n, z, root);
    RadicandCleared(p, n, z);
    SquareOfProduct(n as real + z * z, Half(n, z, root), n as real, z, root);
    HalfFromSquares(n as real, z * z, p, Half(n, z, root), root * root);
  }

  /** The quadratic behind the interval, at any hypothesised proportion. */
  lemma ScoreIdentity(p: real, n: int, z: real, root: real, q: real)
    requires n > 0 && IsRoot(root, Radicand(p, n, z))
    ensures ScoreQuadratic(n as real, z * z, p, q, Centre(p, n, z), Half(n, z, root))
  {
    hide *;
    Squares(z);
    CentreEquation(p, n, z);
    HalfEquation(p, n, z, root);
    CompleteSquare(n as real, z * z, p, q, Centre(p, n, z), Half(n, z, root));
  }

  lemma SquareBound(x: real, h: real)
    requires h >= 0.0
    ensures x * x <= h * h <==> -h <= x <= h
  {
    assert (h - x) * (h + x) == h * h - x * x;
    if -h <= x <= h {
      ProductNonNegative(h - x, h + x);
    } else if x > h {
      ProductPositive(x - h, x + h);
      assert (x - h) * (x + h) == x * x - h * h;
    } else {
      var a, b := 0.0 - h - x, h - x;
      ProductPositive(a, b);
      assert a * b == x * x - h * h;
    }
  }

  lemma HalfNonNegative(n: int, z: real, root: real)
    requires n > 0 && z >= 0.0 && root >= 0.0
    ensures Half(n, z, root) >= 0.0
  {
    assert z / Denominator(n, z) >= 0.0;
  }

  lemma SignOfProduct(m: real, x: real)
    requires m > 0.0
    ensures m * x <= 0.0 <==> x <= 0.0
    ensures m * x >= 0.0 <==> x >= 0.0
  {
  }

  /** Before any clamping, a proportion lies between centre minus half and centre plus half exactly
      when the score test at level z does not reject it. */
  lemma UnclampedIffAccepts(p: real, n: int, z: real, root: real, q: real)
    requires n > 0 && z >= 0.0 && IsRoot(root, Radicand(p, n, z))
    ensures var c, h := Centre(p, n, z), Half(n, z, root);
            c - h <= q <= c + h <==> Accepts(p, n, z, q)
  {
    hide Centre, Half, Radicand, IsRoot, ScoreQuadratic, Denominator;
    ScoreIdentity(p, n, z, root, q);
    assert Half(n, z, root) >= 0.0 by {
      RootIsNatural(root, Radicand(p, n, z));
      HalfNonNegative(n, z, root);
    }
    Squares(z);
    QuadraticDecides(n as real, z * z, p, q, Centre(p, n, z), Half(n, z, root));
  }

  lemma RootIsNatural(root: real, x: real)
    requires IsRoot(root, x)
    ensures root >= 0.0
  {
  }

  lemma QuadraticDecides(n: real, z2: real, p: real, q: real, c: real, h: real)
    requires n > 0.0 && z2 >= 0.0 && h >= 0.0 && ScoreQuadratic(n, z2, p, q, c, h)
    ensures c - h <= q <= c + h <==> n * (p - q) * (p - q) <= z2 * q * (1.0 - q)
  {
    SquareBound(q - c, h);
    SignOfProduct(n + z2, (q - c) * (q - c) - h * h);
  }

  /** Both ends already lie in [0, 1]: clamping never changes them. */
  lemma EndsInUnit(p: real, n: int, z: real, root: real)
    requires n > 0 && z >= 0.0 && 0.0 <= p <= 1.0 && IsRoot(root, Radicand(p, n, z))
    ensures 0.0 <= Centre(p, n, z) - Half(n, z, root)
    ensures Centre(p, n, z) + Half(n, z, root) <= 1.0
  {
    hide *;
    var c, h := Centre(p, n, z), Half(n, z, root);
    Squares(z);
    ScoreIdentity(p, n, z, root, 0.0);
    ScoreIdentity(p, n, z, root, 1.0);
    CentreEquation(p, n, z);
    RootIsNatural(root, Radicand(p, n, z));
    HalfNonNegative(n, z, root);
    CentreInUnit(n as real, z * z, p, c);
    QuadraticAtZero(n as real, z * z, p, c, h);
    QuadraticAtOne(n as real, z * z, p, c, h);
    RootOrder(c, h);
    RootOrder(1.0 - c, h);
  }

  lemma QuadraticAtZero(n: real, z2: real, p: real, c: real, h: real)
    requires n > 0.0 && z2 >= 0.0 && ScoreQuadratic(n, z2, p, 0.0, c, h)
    ensures c * c - h * h >= 0.0
  {
    NonNegativeSquare(n, p);
    SignOfProduct(n + z2, (0.0 - c) * (0.0 - c) - h * h);
  }

  lemma QuadraticAtOne(n: real, z2: real, p: real, c: real, h: real)
    requires n > 0.0 && z2 >= 0.0 && ScoreQuadratic(n, z2, p, 1.0, c, h)
    ensures (1.0 - c) * (1.0 - c) - h * h >= 0.0
  {
    NonNegativeSquare(n, p - 1.0);
    SignOfProduct(n + z2, (1.0 - c) * (1.0 - c) - h * h);
  }

  lemma CentreInUnit(n: real, z2: real, p: real, c: real)
    requires n > 0.0 && z2 >= 0.0 && 0.0 <= p <= 1.0
    requires CentreCleared(n, z2, p, c)
    ensures 0.0 <= c <= 1.0
  {
    var m := n + z2;
    assert n * p >= 0.0 && n * (1.0 - p) >= 0.0;
    SignOfProduct(2.0 * m, c);
    assert 2.0 * m * (1.0 - c) == 2.0 * n * (1.0 - p) + z2;
    SignOfProduct(2.0 * m, 1.0 - c);
  }

  lemma NonNegativeSquare(n: real, x: real)
    requires n > 0.0
    ensures n * x * x >= 0.0
  {
    Squares(x);
    assert n * x * x == n * (x * x);
  }

  lemma RootOrder(a: real, h: real)
    requires a >= 0.0 && h >= 0.0 && a * a - h * h >= 0.0
    ensures a >= h
  {
    assert (h - a) * (h + a) == h * h - a * a;
    if a < h {
      ProductPositive(h - a, h + a);
    }
  }

  // ---------------------------------------------------------------- what Wilson promises

  lemma ProportionOfCount(successes: int, n: int)
    requires 0 <= successes <= n && n > 0
    ensures Proportion(successes, n) == successes as real / n as real
    ensures 0.0 <= Proportion(successes, n) <= 1.0
  {
    var nf, p := n as real, successes as real / n as real;
    assert p * nf == successes as real;
    SignOfProduct(nf, p);
    assert nf * (1.0 - p) == nf - successes as real;
    SignOfProduct(nf, 1.0 - p);
  }

  /** The returned interval is exactly the set of proportions the score test accepts. */
  lemma IntervalIsScoreRegion(successes: int, n: int, z: real, root: real, q: real)
    requires 0 <= successes <= n && n > 0 && z >= 0.0
    requires IsRoot(root, Radicand(Proportion(successes, n), n, z))
    ensures var (lo, hi) := Wilson(successes, n, z, root);
            lo <= q <= hi <==> Accepts(successes as real / n as real, n, z, q)
  {
    var p := Proportion(successes, n);
    ProportionOfCount(successes, n);
    EndsInUnit(p, n, z, root);
    UnclampedIffAccepts(p, n, z, root, q);
    hide Centre, Half, Radicand;
  }

  /** The interval contains the observed proportion, lies in [0, 1], and clamping did nothing. */
  lemma IntervalContainsProportion(successes: int, n: int, z: real, root: real)
    requires 0 <= successes <= n && n > 0 && z >= 0.0
    requires IsRoot(root, Radicand(Proportion(successes, n), n, z))
    ensures var (lo, hi) := Wilson(successes, n, z, root); var p := successes as real / n as real;
            && 0.0 <= lo <= p <= hi <= 1.0
            && lo == Centre(p, n, z) - Half(n, z, root) && hi == Centre(p, n, z) + Half(n, z, root)
  {
    var p := Proportion(successes, n);
    ProportionOfCount(successes, n);
    EndsInUnit(p, n, z, root);
    ProductNonNegative(p, 1.0 - p);
    Squares(z);
    ProductNonNegative(z * z, p * (1.0 - p));
    assert z * z * p * (1.0 - p) == (z * z) * (p * (1.0 - p));
    assert n as real * (p - p) * (p - p) == 0.0;
    UnclampedIffAccepts(p, n, z, root, p);
    hide Centre, Half, Radicand;
  }

  /** Swapping successes with failures mirrors the interval; the root is the same. */
  lemma FailuresMirror(successes: int, n: int, z: real, root: real)
    requires 0 <= successes <= n && n > 0 && z >= 0.0
    requires IsRoot(root, Radicand(Proportion(successes, n), n, z))
    ensures IsRoot(root, Radicand(Proportion(n - successes, n), n, z))
    ensures var (lo, hi) := Wilson(successes, n, z, root);
            Wilson(n - successes, n, z, root) == (1.0 - hi, 1.0 - lo)
  {
    var p, q := Proportion(successes, n), Proportion(n - successes, n);
    ProportionOfCount(successes, n);
    ProportionOfCount(n - successes, n);
    ProportionMirror(successes, n);
    RadicandMirror(p, n, z);
    CentreMirror(p, n, z);
    EndsInUnit(p, n, z, root);
    EndsInUnit(q, n, z, root);
    hide Centre, Half, Radicand, Proportion;
  }

  lemma ProportionMirror(successes: int, n: int)
    requires n > 0
    ensures (n - successes) as real / n as real == 1.0 - successes as real / n as real
  {
    var nf, s := n as real, successes as real;
    assert (n - successes) as real == nf - s;
    assert nf * ((nf - s) / nf) == nf - s && nf * (s / nf) == s;
    Cancel(nf, (nf - s) / nf, 1.0 - s / nf);
  }

  lemma RadicandMirror(p: real, n: int, z: real)
    requires n > 0
    ensures Radicand(1.0 - p, n, z) == Radicand(p, n, z)
  {
    assert (1.0 - p) * (1.0 - (1.0 - p)) == p * (1.0 - p);
  }

  lemma CentreMirror(p: real, n: int, z: real)
    requires n > 0
    ensures Centre(1.0 - p, n, z) == 1.0 - Centre(p, n, z)
  {
    CentreEquation(p, n, z);
    CentreEquation(1.0 - p, n, z);
    Squares(z);
    var m := 2.0 * (n as real + z * z);
    hide Centre;
    assert m * (1.0 - Centre(p, n, z)) == m - m * Centre(p, n, z);
    Cancel(m, Centre(1.0 - p, n, z), 1.0 - Centre(p, n, z));
  }

  /** A larger quantile never narrows the interval. */
  lemma LargerQuantileWidens(successes: int, n: int, y: real, z: real, ry: real, rz: real)
    requires 0 <= successes <= n && n > 0 && 0.0 <= y <= z
    requires IsRoot(ry, Radicand(Proportion(successes, n), n, y))
    requires IsRoot(rz, Radicand(Proportion(successes, n), n, z))
    ensures Wilson(successes, n, z, rz).0 <= Wilson(successes, n, y, ry).0
    ensures Wilson(successes, n, y, ry).1 <= Wilson(successes, n, z, rz).1
  {
    var (lo, hi) := Wilson(successes, n, y, ry);
    IntervalContainsProportion(successes, n, y, ry);
    WiderContains(successes, n, y, z, ry, rz, lo);
    WiderContains(successes, n, y, z, ry, rz, hi);
    hide Wilson;
  }

  lemma WiderContains(successes: int, n: int, y: real, z: real, ry: real, rz: real, q: real)
    requires 0 <= successes <= n && n > 0 && 0.0 <= y <= z && 0.0 <= q <= 1.0
    requires IsRoot(ry, Radicand(Proportion(successes, n), n, y))
    requires IsRoot(rz, Radicand(Proportion(successes, n), n, z))
    requires Wilson(successes, n, y, ry).0 <= q <= Wilson(successes, n, y, ry).1
    ensures Wilson(successes, n, z, rz).0 <= q <= Wilson(successes, n, z, rz).1
  {
    IntervalIsScoreRegion(successes, n, y, ry, q);
    IntervalIsScoreRegion(successes, n, z, rz, q);
    AcceptsMore(successes as real / n as real, n, y, z, q);
    hide Wilson, Accepts, Radicand;
  }

  lemma AcceptsMore(p: real, n: int, y: real, z: real, q: real)
    requires n > 0 && 0.0 <= y <= z && 0.0 <= q <= 1.0 && Accepts(p, n, y, q)
    ensures Accepts(p, n, z, q)
  {
    var v := q * (1.0 - q);
    ProductNonNegative(q, 1.0 - q);
    ProductNonNegative(z - y, z + y);
    assert z * z - y * y == (z - y) * (z + y);
    ProductNonNegative(z * z - y * y, v);
    assert (z * z - y * y) * v == z * z * v - y * y * v;
    assert z * z * q * (1.0 - q) == z * z * v && y * y * q * (1.0 - q) == y * y * v;
  }
}
