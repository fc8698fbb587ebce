/** The Wilson score interval (backend/agent_twin.py), over exact reals; the square root the code takes is
    a parameter that squares to its argument. */
module Wilson {
  const Z := 1.959963985

  datatype Interval = Interval(point: real, low: real, high: real)

  function Share(s: int, n: int): real
    requires n > 0
  {
    s as real / n as real
  }

  /** z squared over n: how much the interval is pulled towards one half. */
  function Pull(n: int): (a: real)
    requires n > 0
    ensures a > 0.0
  {
    PositiveQuotient(Z * Z, n as real);
    Z * Z / n as real
  }

  /** What the code takes the root of. */
  function Radicand(s: int, n: int): real
    requires n > 0
  {
    Share(s, n) * (1.0 - Share(s, n)) / n as real + Z * Z / (4.0 * (n as real * n as real))
  }

  ghost predicate IsRoot(q: real, s: int, n: int)
    requires n > 0
  {
    q >= 0.0 && q * q == Radicand(s, n)
  }

  function Centre(s: int, n: int): real
    requires n > 0
  {
    (Share(s, n) + Z * Z / (2.0 * n as real)) / (1.0 + Pull(n))
  }

  function Margin(n: int, q: real): real
    requires n > 0
  {
    Z / (1.0 + Pull(n)) * q
  }

  function Low(s: int, n: int, q: real): real
    requires n > 0
  {
    Centre(s, n) - Margin(n, q)
  }

  function High(s: int, n: int, q: real): real
    requires n > 0
  {
    Centre(s, n) + Margin(n, q)
  }

  /** Python's round to the nearest integer, ties to even. */
  function HalfEven(x: real): int {
    var f := x.Floor;
    if x - f as real < 0.5 || (x - f as real == 0.5 && f % 2 == 0) then f else f + 1
  }

  function Round3(x: real): real {
    HalfEven(x * 1000.0) as real / 1000.0
  }

  function Max(x: real, y: real): real {
    if x < y then y else x
  }

  function Min(x: real, y: real): real {
    if y < x then y else x
  }

  /** wilson_interval */
  function WilsonInterval(s: int, n: int, q: real): Interval {
    if n <= 0 then Interval(0.0, 0.0, 1.0)
    else Interval(Round3(Share(s, n)), Round3(Max(0.0, Low(s, n, q))), Round3(Min(1.0, High(s, n, q))))
  }

  // ---- Small algebra ----

  lemma PositiveQuotient(x: real, y: real)
    requires x > 0.0 && y > 0.0
    ensures x / y > 0.0
  {
  }

  lemma ShareBounds(s: int, n: int)
    requires 0 <= s <= n && n > 0
    ensures 0.0 <= Share(s, n) <= 1.0 && Share(n - s, n) == 1.0 - Share(s, n)
  {
    Cancel(n as real, Share(n - s, n), 1.0 - Share(s, n));
  }

  lemma ProductSign(x: real, y: real)
    requires x >= 0.0 && y >= 0.0
    ensures x * y >= 0.0 && (x > 0.0 && y > 0.0 ==> x * y > 0.0)
  {
  }

  lemma PositiveFactor(x: real, d: real)
    requires d > 0.0 && x * d > 0.0
    ensures x > 0.0
  {
    if x < 0.0 {
      NegativeProduct(d, x);
    }
  }

  lemma SquareNotNegative(x: real)
    ensures x * x >= 0.0
  {
  }

  lemma SquareGrows(x: real, y: real)
    requires 0.0 <= y < x
    ensures y * y < x * x
  {
    var d := x - y;
    ProductSign(d, x + y);
    assert d * (x + y) == x * x - y * y;
  }

  lemma SquareOrder(x: real, y: real)
    requires y >= 0.0 && x * x <= y * y
    ensures x <= y
  {
    if x > y {
      SquareGrows(x, y);
    }
  }

  lemma SquareStrict(x: real, y: real)
    requires y >= 0.0 && x * x < y * y
    ensures x < y
  {
    if x > y {
      SquareGrows(x, y);
    }
  }

  lemma Cancel(d: real, x: real, y: real)
    requires d > 0.0 && d * x == d * y
    ensures x == y
  {
  }

  // ---- What the bounds are ----

  /** The bounds times the denominator, and the square of z times the root. */
  lemma Scaled(s: int, n: int, q: real)
    requires n > 0 && IsRoot(q, s, n)
    ensures var p, a := Share(s, n), Pull(n);
            && Low(s, n, q) * (1.0 + a) == p + a / 2.0 - Z * q
            && High(s, n, q) * (1.0 + a) == p + a / 2.0 + Z * q
            && (Z * q) * (Z * q) == a * (p * (1.0 - p)) + a * a / 4.0
  {
    var p, a, m := Share(s, n), Pull(n), n as real;
    assert Z * Z / (2.0 * m) == a / 2.0;
    assert Margin(n, q) * (1.0 + a) == Z * q;
    RootSquared(p, m, q);
  }

  lemma RootSquared(p: real, m: real, q: real)
    requires m > 0.0 && q * q == p * (1.0 - p) / m + Z * Z / (4.0 * (m * m))
    ensures var a := Z * Z / m; (Z * q) * (Z * q) == a * (p * (1.0 - p)) + a * a / 4.0
  {
    var a, u := Z * Z / m, p * (1.0 - p);
    assert (Z * q) * (Z * q) == Z * Z * (q * q);
    assert Z * Z * (u / m) == a * u;
    assert Z * Z * (Z * Z / (4.0 * (m * m))) == a * a / 4.0;
  }

  /** The bounds are the two roots of the score equation. */
  lemma Factored(p: real, a: real, m: real, low: real, high: real, x: real)
    requires a > 0.0 && m * m == a * (p * (1.0 - p)) + a * a / 4.0
    requires low * (1.0 + a) == p + a / 2.0 - m && high * (1.0 + a) == p + a / 2.0 + m
    ensures (1.0 + a) * ((x - low) * (x - high)) == (p - x) * (p - x) - a * (x * (1.0 - x))
  {
    var d, c := 1.0 + a, p + a / 2.0;
    var left, right := d * ((x - low) * (x - high)), (p - x) * (p - x) - a * (x * (1.0 - x));
    assert d * left == (d * x - d * low) * (d * x - d * high);
    assert (d * x - (c - m)) * (d * x - (c + m)) == (d * x - c) * (d * x - c) - m * m;
    assert (d * x - c) * (d * x - c) == d * d * (x * x) - 2.0 * d * c * x + c * c;
    assert c * c - m * m == p * p * d;
    assert right == d * (x * x) - 2.0 * c * x + p * p;
    assert d * right == d * d * (x * x) - 2.0 * d * c * x + p * p * d;
    Cancel(d, left, right);
  }

  /** The observed share is within z standard errors of x, the standard error being that of x itself. */
  predicate Within(p: real, a: real, x: real) {
    (p - x) * (p - x) <= a * (x * (1.0 - x))
  }

  /** What the interval means: a proportion x lies between the unrounded bounds exactly when the observed
      share is within z standard errors of x, the standard error being that of x itself. */
  lemma ScoreTest(s: int, n: int, q: real, x: real)
    requires n > 0 && IsRoot(q, s, n)
    ensures Low(s, n, q) <= x <= High(s, n, q) <==> Within(Share(s, n), Pull(n), x)
  {
    HasBounds(s, n, q);
    BoundsTest(Share(s, n), Pull(n), Z * q, Low(s, n, q), High(s, n, q), x);
  }

  /** The two bounds for the share p, with m the root scaled by z. */
  predicate AreBounds(p: real, a: real, m: real, low: real, high: real) {
    && a > 0.0 && low <= high && m * m == a * (p * (1.0 - p)) + a * a / 4.0
    && low * (1.0 + a) == p + a / 2.0 - m && high * (1.0 + a) == p + a / 2.0 + m
  }

  lemma HasBounds(s: int, n: int, q: real)
    requires n > 0 && IsRoot(q, s, n)
    ensures AreBounds(Share(s, n), Pull(n), Z * q, Low(s, n, q), High(s, n, q))
  {
    Scaled(s, n, q);
    LowNotAboveHigh(s, n, q);
  }

  lemma BoundsTest(p: real, a: real, m: real, low: real, high: real, x: real)
    requires AreBounds(p, a, m, low, high)
    ensures low <= x <= high <==> Within(p, a, x)
  {
    Factored(p, a, m, low, high, x);
    SignOfScore(x - low, x - high, 1.0 + a, p, a, x);
  }

  lemma SignOfScore(u: real, v: real, d: real, p: real, a: real, x: real)
    requires u >= v && d > 0.0 && d * (u * v) == (p - x) * (p - x) - a * (x * (1.0 - x))
    ensures u >= 0.0 >= v <==> Within(p, a, x)
  {
    BetweenRoots(u, v);
    SameSign(u * v, d);
  }

  lemma BetweenRoots(u: real, v: real)
    requires u >= v
    ensures u >= 0.0 >= v <==> u * v <= 0.0
  {
    if u < 0.0 {
      ProductSign(-u, -v);
      assert u * v == (-u) * (-v);
    } else if v > 0.0 {
      ProductSign(u, v);
    } else {
      ProductSign(u, -v);
      assert u * v == -(u * (-v));
    }
  }

  lemma SameSign(w: real, d: real)
    requires d > 0.0
    ensures w <= 0.0 <==> d * w <= 0.0
  {
    if w > 0.0 {
      ProductSign(d, w);
    } else {
      ProductSign(d, -w);
      assert d * w == -(d * (-w));
    }
  }

  lemma LowNotAboveHigh(s: int, n: int, q: real)
    requires n > 0 && q >= 0.0
    ensures Low(s, n, q) <= High(s, n, q) && (q > 0.0 ==> Low(s, n, q) < High(s, n, q))
  {
    PositiveQuotient(Z, 1.0 + Pull(n));
    ProductSign(Z / (1.0 + Pull(n)), q);
  }

  lemma RootPositive(s: int, n: int, q: real)
    requires 0 <= s <= n && n > 0 && IsRoot(q, s, n)
    ensures q > 0.0
  {
    Scaled(s, n, q);
    ShareBounds(s, n);
    var p, a := Share(s, n), Pull(n);
    ProductSign(p, 1.0 - p);
    ProductSign(a, p * (1.0 - p));
    ProductSign(a, a);
    assert (Z * q) * (Z * q) > 0.0;
  }

  // ---- The promises ----

  /** The clamps do nothing: the bounds are proportions already, they enclose the observed share, and the
      interval has width, even at 0 of n and n of n. */
  lemma Enclosed(s: int, n: int, q: real)
    requires 0 <= s <= n && n > 0 && IsRoot(q, s, n)
    ensures 0.0 <= Low(s, n, q) <= Share(s, n) <= High(s, n, q) <= 1.0
    ensures Low(s, n, q) < High(s, n, q)
  {
    var p, a, low, high := Share(s, n), Pull(n), Low(s, n, q), High(s, n, q);
    RootPositive(s, n, q);
    LowNotAboveHigh(s, n, q);
    ShareBounds(s, n);
    ShareWithin(p, a);
    ScoreTest(s, n, q, p);
    ScoreTest(s, n, q, low);
    ScoreTest(s, n, q, high);
    OnlyProportions(p, a, low);
    OnlyProportions(p, a, high);
  }

  lemma ShareWithin(p: real, a: real)
    requires 0.0 <= p <= 1.0 && a > 0.0
    ensures Within(p, a, p)
  {
    ProductSign(p, 1.0 - p);
    ProductSign(a, p * (1.0 - p));
  }

  lemma OutsideIsNegative(x: real)
    requires x < 0.0 || x > 1.0
    ensures x * (1.0 - x) < 0.0
  {
    var u, v := -x, 1.0 - x;
    assert x * (1.0 - x) == -(u * v);
    if x < 0.0 {
      ProductSign(u, v);
    } else {
      assert u * v == (-u) * (-v);
      ProductSign(-u, -v);
    }
  }

  lemma OnlyProportions(p: real, a: real, x: real)
    requires a > 0.0 && Within(p, a, x)
    ensures 0.0 <= x <= 1.0
  {
    SquareNotNegative(p - x);
    var w := x * (1.0 - x);
    if x < 0.0 || x > 1.0 {
      OutsideIsNegative(x);
      NegativeProduct(a, w);
    }
  }

  lemma NegativeProduct(a: real, w: real)
    requires a > 0.0 && w < 0.0
    ensures a * w < 0.0
  {
    ProductSign(a, -w);
    assert a * w == -(a * (-w));
  }

  /** Failures are judged as successes are: the interval of n - s is the mirror image. */
  lemma Mirror(s: int, n: int, q: real)
    requires 0 <= s <= n && n > 0 && IsRoot(q, s, n)
    ensures IsRoot(q, n - s, n)
    ensures Low(s, n, q) == 1.0 - High(n - s, n, q) && High(s, n, q) == 1.0 - Low(n - s, n, q)
  {
    MirrorRoot(s, n, q);
    Scaled(s, n, q);
    Scaled(n - s, n, q);
    var p, a, m := Share(s, n), Pull(n), Z * q;
    ShareBounds(s, n);
    MirrorBound(1.0 + a, Low(s, n, q), High(n - s, n, q), p + a / 2.0 - m);
    MirrorBound(1.0 + a, High(s, n, q), Low(n - s, n, q), p + a / 2.0 + m);
  }

  lemma MirrorRoot(s: int, n: int, q: real)
    requires 0 <= s <= n && n > 0 && IsRoot(q, s, n)
    ensures IsRoot(q, n - s, n)
  {
    ShareBounds(s, n);
    MirrorProduct(Share(s, n));
  }

  lemma MirrorProduct(p: real)
    ensures (1.0 - p) * (1.0 - (1.0 - p)) == p * (1.0 - p)
  {
  }

  lemma MirrorBound(d: real, x: real, y: real, v: real)
    requires d > 0.0 && x * d == v && y * d == d - v
    ensures x == 1.0 - y
  {
    assert (1.0 - y) * d == d - y * d;
    Cancel(d, x, 1.0 - y);
  }

  /** The root is at least z times half the distance of the share from its mirror image, over n. */
  lemma RootAtLeast(p: real, a: real, m: real)
    requires a > 0.0 && 0.0 <= p <= 1.0 && m >= 0.0 && m * m == a * (p * (1.0 - p)) + a * a / 4.0
    ensures a * (0.5 - p) <= m && (p > 0.0 ==> a * (0.5 - p) < m)
  {
    var t, u := a * (0.5 - p), p * (1.0 - p);
    assert (0.5 - p) * (0.5 - p) == 0.25 - u;
    assert t * t == a * a * ((0.5 - p) * (0.5 - p)) == a * a / 4.0 - a * a * u;
    ProductSign(p, 1.0 - p);
    ProductSign(a, u);
    ProductSign(a * a, u);
    ProductSign(a, a);
    assert m * m - t * t == a * u + a * a * u;
    SquareOrder(t, m);
    if 0.0 < p < 1.0 {
      ProductSign(a, u);
      SquareStrict(t, m);
    }
  }

  /** More successes of as many raise both bounds. */
  lemma MoreSuccesses(s: int, s': int, n: int, q: real, q': real)
    requires 0 <= s < s' <= n && IsRoot(q, s, n) && IsRoot(q', s', n)
    ensures Low(s, n, q) < Low(s', n, q') && High(s, n, q) < High(s', n, q')
  {
    LowRises(s, s', n, q, q');
    Mirror(s, n, q);
    Mirror(s', n, q');
    LowRises(n - s', n - s, n, q', q);
  }

  lemma LowRises(s: int, s': int, n: int, q: real, q': real)
    requires 0 <= s < s' <= n && IsRoot(q, s, n) && IsRoot(q', s', n)
    ensures Low(s, n, q) < Low(s', n, q')
  {
    LowerBound(s, n, q);
    LowerBound(s', n, q');
    ShareRises(s, s', n);
    Rises(Low(s, n, q), Share(s, n), Low(s', n, q'), Share(s', n), Pull(n), Z * q, Z * q');
  }

  /** A lower bound x for the share p, with m the root scaled by z. */
  predicate IsLower(x: real, p: real, a: real, m: real) {
    && a > 0.0 && 0.0 <= p <= 1.0 && m > 0.0 && m * m == a * (p * (1.0 - p)) + a * a / 4.0
    && x * (1.0 + a) == p + a / 2.0 - m
  }

  lemma LowerBound(s: int, n: int, q: real)
    requires 0 <= s <= n && n > 0 && IsRoot(q, s, n)
    ensures IsLower(Low(s, n, q), Share(s, n), Pull(n), Z * q)
  {
    ShareBounds(s, n);
    RootPositive(s, n, q);
    ProductSign(Z, q);
    Scaled(s, n, q);
  }

  lemma Rises(x: real, p: real, x': real, p': real, a: real, m: real, m': real)
    requires IsLower(x, p, a, m) && IsLower(x', p', a, m') && p < p'
    ensures x < x'
  {
    var c := a / 2.0;
    SharesOutgrowRoots(p, p', a, m, m');
    BoundRises(x, x', 1.0 + a, p + c - m, p' + c - m');
  }

  lemma BoundRises(x: real, x': real, d: real, v: real, v': real)
    requires d > 0.0 && x * d == v && x' * d == v' && v < v'
    ensures x < x'
  {
    assert (x' - x) * d == v' - v;
    PositiveFactor(x' - x, d);
  }

  lemma SharesOutgrowRoots(p: real, p': real, a: real, m: real, m': real)
    requires 0.0 <= p < p' <= 1.0 && a > 0.0 && m > 0.0 && m' > 0.0
    requires m * m == a * (p * (1.0 - p)) + a * a / 4.0 && m' * m' == a * (p' * (1.0 - p')) + a * a / 4.0
    ensures m' - m < p' - p
  {
    RootAtLeast(p, a, m);
    RootAtLeast(p', a, m');
    RootsProduct(p, p', a, m, m');
    RootsGap(p, p', a, m, m');
  }

  lemma ShareRises(s: int, s': int, n: int)
    requires s < s' && n > 0
    ensures Share(s, n) < Share(s', n)
  {
    PositiveQuotient((s' - s) as real, n as real);
    assert Share(s', n) - Share(s, n) == (s' - s) as real / n as real;
  }

  lemma SquareDifference(x: real, y: real)
    ensures (x - y) * (x + y) == x * x - y * y
  {
  }

  lemma SharesGap(p: real, p': real, a: real)
    ensures a * (p' * (1.0 - p')) - a * (p * (1.0 - p)) == (p' - p) * (a * (1.0 - p - p'))
  {
    var u, v, w := p' * (1.0 - p'), p * (1.0 - p), 1.0 - p - p';
    assert u - v == (p' - p) * w;
    assert a * u - a * v == a * (u - v);
    assert a * ((p' - p) * w) == (p' - p) * (a * w);
  }

  lemma RootsProduct(p: real, p': real, a: real, m: real, m': real)
    requires m * m == a * (p * (1.0 - p)) + a * a / 4.0 && m' * m' == a * (p' * (1.0 - p')) + a * a / 4.0
    ensures (m' - m) * (m' + m) == (p' - p) * (a * (1.0 - p - p'))
  {
    SquareDifference(m', m);
    SharesGap(p, p', a);
  }

  lemma PullsAdd(p: real, p': real, a: real)
    ensures a * (1.0 - p - p') == a * (0.5 - p) + a * (0.5 - p')
  {
  }

  /** The roots grow less than the shares do. */
  lemma RootsGap(p: real, p': real, a: real, m: real, m': real)
    requires p < p' && m >= 0.0 && m' > 0.0
    requires (m' - m) * (m' + m) == (p' - p) * (a * (1.0 - p - p'))
    requires a * (0.5 - p) <= m && a * (0.5 - p') < m'
    ensures m' - m < p' - p
  {
    PullsAdd(p, p', a);
    SmallerFactor(m' - m, p' - p, m' + m, a * (1.0 - p - p'));
  }

  lemma SmallerFactor(d: real, g: real, t: real, h: real)
    requires g > 0.0 && t > 0.0 && h < t && d * t == g * h
    ensures d < g
  {
    ProductSign(g, t - h);
    assert (g - d) * t == g * t - d * t == g * (t - h);
    PositiveFactor(g - d, t);
  }

  /** n of n: the upper bound is one, the lower n over n plus z squared, so never certainty. */
  lemma AllOfThem(n: int, q: real)
    requires n > 0 && IsRoot(q, n, n)
    ensures High(n, n, q) == 1.0 && Low(n, n, q) == n as real / (n as real + Z * Z)
  {
    var a, m := Pull(n), n as real;
    ShareBounds(n, n);
    assert Share(n, n) == 1.0;
    Scaled(n, n, q);
    SquareOrder(Z * q, a / 2.0);
    SquareOrder(a / 2.0, Z * q);
    Cancel(1.0 + a, High(n, n, q), 1.0);
    assert (1.0 + a) * (m / (m + Z * Z)) == 1.0 by {
      assert 1.0 + a == (m + Z * Z) / m;
    }
    Cancel(1.0 + a, Low(n, n, q), m / (m + Z * Z));
  }

  /** The same share seen more often gives an interval inside the old one. */
  lemma MoreEvidence(s: int, n: int, q: real, s': int, n': int, q': real)
    requires 0 <= s <= n && 0 < n < n' && s * n' == s' * n && IsRoot(q, s, n) && IsRoot(q', s', n')
    ensures Low(s, n, q) <= Low(s', n', q') && High(s', n', q') <= High(s, n, q)
  {
    SameShare(s, n, s', n');
    LowNotAboveHigh(s', n', q');
    PullFalls(n, n');
    StillInside(s, n, q, s', n', q', Low(s', n', q'));
    StillInside(s, n, q, s', n', q', High(s', n', q'));
  }

  lemma StillInside(s: int, n: int, q: real, s': int, n': int, q': real, x: real)
    requires n > 0 && n' > 0 && Share(s, n) == Share(s', n') && Pull(n') <= Pull(n)
    requires IsRoot(q, s, n) && IsRoot(q', s', n') && Low(s', n', q') <= x <= High(s', n', q')
    ensures Low(s, n, q) <= x <= High(s, n, q)
  {
    ScoreTest(s', n', q', x);
    StillWithin(Share(s', n'), Pull(n), Pull(n'), x);
    ScoreTest(s, n, q, x);
  }

  /** A larger pull admits what a smaller one does. */
  lemma StillWithin(p: real, a: real, b: real, x: real)
    requires 0.0 < b <= a && Within(p, b, x)
    ensures Within(p, a, x)
  {
    OnlyProportions(p, b, x);
    ProductSign(x, 1.0 - x);
    LargerPull(a, b, x * (1.0 - x));
  }

  lemma LargerPull(a: real, b: real, v: real)
    requires b <= a && v >= 0.0
    ensures b * v <= a * v
  {
    ProductSign(a - b, v);
    assert (a - b) * v == a * v - b * v;
  }

  lemma PullFalls(n: int, n': int)
    requires 0 < n < n'
    ensures Pull(n') <= Pull(n)
  {
    var m, m' := n as real, n' as real;
    assert Pull(n) * m == Z * Z == Pull(n') * m';
    if Pull(n') > Pull(n) {
      ProductSign(Pull(n') - Pull(n), m');
      ProductSign(Pull(n), m' - m);
    }
  }

  lemma SameShare(s: int, n: int, s': int, n': int)
    requires n > 0 && n' > 0 && s * n' == s' * n
    ensures Share(s, n) == Share(s', n')
  {
    var m, m', p, p' := n as real, n' as real, Share(s, n), Share(s', n');
    assert (s * n') as real == s as real * m' && (s' * n) as real == s' as real * m;
    assert p * m == s as real && p' * m' == s' as real;
    ProductSign(m, m');
    assert (m * m') * p == (p * m) * m' == (p' * m') * m == (m * m') * p';
    Cancel(m * m', p, p');
  }

  // ---- Rounding ----

  lemma HalfEvenKeepsOrder(x: real, y: real)
    requires x <= y
    ensures HalfEven(x) <= HalfEven(y)
  {
  }

  lemma Round3KeepsOrder(x: real, y: real)
    requires x <= y
    ensures Round3(x) <= Round3(y)
  {
    HalfEvenKeepsOrder(x * 1000.0, y * 1000.0);
  }

  /** `round` goes to a nearest whole number, and halfway between two to the even one. */
  lemma HalfEvenNearest(y: real)
    ensures y - 0.5 <= HalfEven(y) as real <= y + 0.5
    ensures HalfEven(y) as real == y - 0.5 || HalfEven(y) as real == y + 0.5 ==> HalfEven(y) % 2 == 0
  {
    var f := y.Floor;
    assert y - f as real == 0.5 && f % 2 != 0 ==> (f + 1) % 2 == 0;
  }

  /** Rounding to three places moves a value by half a thousandth at most. */
  lemma Round3Close(x: real)
    ensures x - 0.0005 <= Round3(x) <= x + 0.0005
  {
    HalfEvenNearest(x * 1000.0);
  }

  /** The published interval is the exact one, cut to [0, 1], up to half a thousandth on either side. */
  lemma IntervalClose(s: int, n: int, q: real)
    requires n > 0 && 0 <= s <= n && IsRoot(q, s, n)
    ensures var w := WilsonInterval(s, n, q);
            && Share(s, n) - 0.0005 <= w.point <= Share(s, n) + 0.0005
            && Low(s, n, q) - 0.0005 <= w.low <= Low(s, n, q) + 0.0005
            && High(s, n, q) - 0.0005 <= w.high <= High(s, n, q) + 0.0005
  {
    Enclosed(s, n, q);
    Round3Close(Share(s, n));
    Round3Close(Low(s, n, q));
    Round3Close(High(s, n, q));
  }

  /** After rounding to three places the interval still lies in [0, 1] and encloses the rounded share;
      without observations it is all of [0, 1]. */
  lemma RoundedEnclosed(s: int, n: int, q: real)
    requires n > 0 ==> 0 <= s <= n && IsRoot(q, s, n)
    ensures var w := WilsonInterval(s, n, q); 0.0 <= w.low <= w.point <= w.high <= 1.0
    ensures n <= 0 ==> WilsonInterval(s, n, q) == Interval(0.0, 0.0, 1.0)
  {
    if n > 0 {
      Enclosed(s, n, q);
      Round3KeepsOrder(0.0, Low(s, n, q));
      Round3KeepsOrder(Low(s, n, q), Share(s, n));
      Round3KeepsOrder(Share(s, n), High(s, n, q));
      Round3KeepsOrder(High(s, n, q), 1.0);
    }
  }

  /** Three of three: not certainty, but no less than 0.439. */
  lemma ThreeOfThree(q: real)
    requires IsRoot(q, 3, 3)
    ensures WilsonInterval(3, 3, q) == Interval(1.0, 0.439, 1.0)
  {
    AllOfThem(3, q);
    var low := Low(3, 3, q);
    assert low == 3.0 / (3.0 + Z * Z);
    assert 3.84145 < Z * Z < 3.84146;
    assert 0.4385 < low < 0.4386;
    assert HalfEven(low * 1000.0) == 439;
    assert Share(3, 3) == 1.0 && HalfEven(1.0 * 1000.0) == 1000;
  }

  /** A smaller count never gets a larger rounded bound. */
  lemma RoundedMonotone(s: int, s': int, n: int, q: real, q': real)
    requires 0 <= s < s' <= n && IsRoot(q, s, n) && IsRoot(q', s', n)
    ensures var w, w' := WilsonInterval(s, n, q), WilsonInterval(s', n, q');
            w.point <= w'.point && w.low <= w'.low && w.high <= w'.high
  {
    MoreSuccesses(s, s', n, q, q');
    ShareRises(s, s', n);
    Enclosed(s, n, q);
    Enclosed(s', n, q');
    Round3KeepsOrder(Share(s, n), Share(s', n));
    Round3KeepsOrder(Low(s, n, q), Low(s', n, q'));
    Round3KeepsOrder(High(s, n, q), High(s', n, q'));
  }
}
