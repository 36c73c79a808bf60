/**
 Cubic Bézier easing over the reals: the curve's x coordinate, its inversion by bisection, and the
 easing function built from them.
 */
module Bezier {
  datatype CubicBezier = CubicBezier(x1: real, y1: real, x2: real, y2: real)

  /** One coordinate of the curve with control values 0, `p1`, `p2`, 1. */
  function Coordinate(p1: real, p2: real, t: real): real {
    var omt := 1.0 - t;
    3.0 * omt * omt * t * p1 + 3.0 * omt * t * t * p2 + t * t * t
  }

  function XForT(c: CubicBezier, t: real): real {
    Coordinate(c.x1, c.x2, t)
  }

  function YForT(c: CubicBezier, t: real): real {
    Coordinate(c.y1, c.y2, t)
  }

  predicate Unit(x: real) {
    0.0 <= x <= 1.0
  }

  // ----- The curve is monotone with slope at most 3 -----

  /** `b` is not below `a` and at most three times as far from it as `t` from `s`. */
  ghost predicate Gentle(a: real, b: real, s: real, t: real) {
    0.0 <= b - a <= 3.0 * (t - s)
  }

  lemma Scale(d: real, q: real, m: real)
    requires 0.0 <= d && 0.0 <= q <= m
    ensures 0.0 <= d * q <= m * d
  {}

  lemma UnitProduct(a: real, b: real)
    requires Unit(a) && Unit(b)
    ensures Unit(a * b)
  {
    Scale(a, b, 1.0);
    assert 0.0 <= a * b <= 1.0 * a;
  }

  /** `d` times a factor between 0 and 3 is gentle. */
  lemma Factored(a: real, b: real, s: real, t: real, q: real)
    requires s <= t && b - a == (t - s) * q && 0.0 <= q <= 3.0
    ensures Gentle(a, b, s, t)
  {
    FactoredBy(b - a, t - s, q);
  }

  lemma FactoredBy(x: real, d: real, q: real)
    requires 0.0 <= d && x == d * q && 0.0 <= q <= 3.0
    ensures 0.0 <= x <= 3.0 * d
  {
    Scale(d, q, 3.0);
  }

  /** The difference of two cubes. */
  lemma Cubes(t: real, s: real)
    ensures t * t * t - s * s * s == (t - s) * (t * t + t * s + s * s)
  {}

  // The four extreme curves, with both control values at an end of the unit interval.

  lemma Corner00(s: real, t: real)
    requires Unit(s) && Unit(t) && s <= t
    ensures Gentle(Coordinate(0.0, 0.0, s), Coordinate(0.0, 0.0, t), s, t)
  {
    CubeCurve(t);
    CubeCurve(s);
    Cubes(t, s);
    UnitProduct(t, t);
    UnitProduct(t, s);
    UnitProduct(s, s);
    Factored(Coordinate(0.0, 0.0, s), Coordinate(0.0, 0.0, t), s, t, t * t + t * s + s * s);
  }

  lemma CubeCurve(t: real)
    ensures Coordinate(0.0, 0.0, t) == t * t * t
  {}

  lemma MirroredCubeCurve(t: real)
    ensures var v := 1.0 - t; Coordinate(1.0, 1.0, t) == 1.0 - v * v * v
  {}

  lemma Corner11(s: real, t: real)
    requires Unit(s) && Unit(t) && s <= t
    ensures Gentle(Coordinate(1.0, 1.0, s), Coordinate(1.0, 1.0, t), s, t)
  {
    var u, v := 1.0 - s, 1.0 - t;
    MirroredCubeCurve(s);
    MirroredCubeCurve(t);
    Cubes(u, v);
    UnitProduct(u, u);
    UnitProduct(u, v);
    UnitProduct(v, v);
    Factored(Coordinate(1.0, 1.0, s), Coordinate(1.0, 1.0, t), s, t, u * u + u * v + v * v);
  }

  lemma Corner01(s: real, t: real)
    requires Unit(s) && Unit(t) && s <= t
    ensures Gentle(Coordinate(0.0, 1.0, s), Coordinate(0.0, 1.0, t), s, t)
  {
    Smoothstep(t);
    Smoothstep(s);
    Cubes(t, s);
    var sum, squares := t + s, t * t + t * s + s * s;
    assert t * t - s * s == (t - s) * sum;
    var q := 3.0 * sum - 2.0 * squares;
    Distribute(t - s, sum, squares);
    SmoothstepFactor(t, s);
    Factored(Coordinate(0.0, 1.0, s), Coordinate(0.0, 1.0, t), s, t, q);
  }

  lemma Distribute(d: real, a: real, b: real)
    ensures d * (3.0 * a - 2.0 * b) == 3.0 * (d * a) - 2.0 * (d * b)
  {}

  lemma Smoothstep(t: real)
    ensures Coordinate(0.0, 1.0, t) == 3.0 * (t * t) - 2.0 * (t * t * t)
  {}

  lemma SmoothstepFactor(t: real, s: real)
    requires Unit(s) && Unit(t)
    ensures 0.0 <= 3.0 * (t + s) - 2.0 * (t * t + t * s + s * s) <= 3.0
  {
    BelowQuarter(t);
    BelowQuarter(s);
    OverlapOf(t, s);
    SmoothstepBound(t, s, t * t, t * s, s * s);
  }

  lemma SmoothstepBound(t: real, s: real, tt: real, ts: real, ss: real)
    requires 0.0 <= t - tt <= 0.25 && 0.0 <= s - ss <= 0.25
    requires 0.0 <= ts && ts <= t && ts <= s && t + s <= 1.0 + ts
    ensures 0.0 <= 3.0 * (t + s) - 2.0 * (tt + ts + ss) <= 3.0
  {}

  lemma BelowQuarter(t: real)
    requires Unit(t)
    ensures 0.0 <= t - t * t <= 0.25
  {
    var h := t - 0.5;
    Square(h);
    assert h * h == t * t - t + 0.25;
    Scale(t, t, 1.0);
    assert t * t <= 1.0 * t;
  }

  lemma OverlapOf(t: real, s: real)
    requires Unit(t) && Unit(s)
    ensures 0.0 <= t * s && t * s <= t && t * s <= s && t + s <= 1.0 + t * s
  {
    Scale(t, s, 1.0);
    Scale(s, t, 1.0);
    assert 0.0 <= t * s <= 1.0 * t;
    assert s * t <= 1.0 * s;
    UnitProduct(1.0 - t, 1.0 - s);
    assert (1.0 - t) * (1.0 - s) == 1.0 - t - s + t * s;
  }

  lemma Corner10(s: real, t: real)
    requires Unit(s) && Unit(t) && s <= t
    ensures Gentle(Coordinate(1.0, 0.0, s), Coordinate(1.0, 0.0, t), s, t)
  {
    var u, v := 2.0 * t - 1.0, 2.0 * s - 1.0;
    HalfCube(t);
    HalfCube(s);
    Cubes(u, v);
    var q := u * u + u * v + v * v;
    HalfCubeFactor(u, v);
    assert (u - v) * q == 2.0 * ((t - s) * q);
    Factored(Coordinate(1.0, 0.0, s), Coordinate(1.0, 0.0, t), s, t, q);
  }

  lemma HalfCube(t: real)
    ensures var u := 2.0 * t - 1.0; Coordinate(1.0, 0.0, t) == (1.0 + u * u * u) / 2.0
  {}

  lemma HalfCubeFactor(u: real, v: real)
    requires -1.0 <= u <= 1.0 && -1.0 <= v <= 1.0
    ensures 0.0 <= u * u + u * v + v * v <= 3.0
  {
    SquareBelowOne(u);
    SquareBelowOne(v);
    Square(u + v);
    Square(u - v);
    assert (u + v) * (u + v) == u * u + 2.0 * (u * v) + v * v;
    assert (u - v) * (u - v) == u * u - 2.0 * (u * v) + v * v;
  }

  lemma Square(x: real)
    ensures x * x >= 0.0
  {}

  lemma SquareBelowOne(u: real)
    requires -1.0 <= u <= 1.0
    ensures 0.0 <= u * u <= 1.0
  {
    UnitProduct(if u < 0.0 then -u else u, if u < 0.0 then -u else u);
  }

  /** Every curve is a mixture of the extreme ones. */
  function Mix(w: real, a: real, b: real): real {
    (1.0 - w) * a + w * b
  }

  lemma MixGentle(w: real, a: real, b: real, a': real, b': real, s: real, t: real)
    requires Unit(w) && Gentle(a, b, s, t) && Gentle(a', b', s, t)
    ensures Gentle(Mix(w, a, a'), Mix(w, b, b'), s, t)
  {
    MixBounded(w, b - a, b' - a', 3.0 * (t - s));
    MixDifference(w, a, b, a', b');
  }

  lemma MixBounded(w: real, x: real, y: real, m: real)
    requires Unit(w) && 0.0 <= x <= m && 0.0 <= y <= m
    ensures 0.0 <= Mix(w, x, y) <= m
  {
    WeightsBounded(1.0 - w, w, x, y, m);
    assert Mix(w, x, y) == (1.0 - w) * x + w * y;
  }

  lemma WeightsBounded(v: real, w: real, x: real, y: real, m: real)
    requires 0.0 <= v && 0.0 <= w && v + w == 1.0 && 0.0 <= x <= m && 0.0 <= y <= m
    ensures 0.0 <= v * x + w * y <= m
  {
    Scale(v, x, m);
    Scale(w, y, m);
    Shares(m, v, w);
    SumBounded(v * x, w * y, m * v, m * w);
  }

  lemma SumBounded(a: real, b: real, c: real, d: real)
    requires 0.0 <= a <= c && 0.0 <= b <= d
    ensures 0.0 <= a + b <= c + d
  {}

  lemma Shares(m: real, v: real, w: real)
    requires v + w == 1.0
    ensures m * v + m * w == m
  {
    var whole := v + w;
    assert m * v + m * w == m * whole;
    assert m * whole == m;
  }

  lemma MixDifference(w: real, a: real, b: real, a': real, b': real)
    ensures Mix(w, b, b') - Mix(w, a, a') == Mix(w, b - a, b' - a')
  {}

  lemma MixAffine(p: real, a: real, d: real)
    ensures Mix(p, d, a + d) == a * p + d
  {}

  lemma MixFirst(p1: real, p2: real, t: real)
    ensures Coordinate(p1, p2, t) == Mix(p1, Coordinate(0.0, p2, t), Coordinate(1.0, p2, t))
  {
    var omt := 1.0 - t;
    MixAffine(p1, 3.0 * omt * omt * t, 3.0 * omt * t * t * p2 + t * t * t);
  }

  lemma MixSecond(p1: real, p2: real, t: real)
    ensures Coordinate(p1, p2, t) == Mix(p2, Coordinate(p1, 0.0, t), Coordinate(p1, 1.0, t))
  {
    var omt := 1.0 - t;
    MixAffine(p2, 3.0 * omt * t * t, 3.0 * omt * omt * t * p1 + t * t * t);
  }

  /** With control values in the unit interval the coordinate never decreases and grows at most three
      times as fast as `t`. */
  lemma CoordinateGentle(p1: real, p2: real, s: real, t: real)
    requires Unit(p1) && Unit(p2) && Unit(s) && Unit(t) && s <= t
    ensures Gentle(Coordinate(p1, p2, s), Coordinate(p1, p2, t), s, t)
  {
    Corner00(s, t);
    Corner01(s, t);
    Corner10(s, t);
    Corner11(s, t);
    MixFirst(p1, 0.0, s);
    MixFirst(p1, 0.0, t);
    MixFirst(p1, 1.0, s);
    MixFirst(p1, 1.0, t);
    MixGentle(p1, Coordinate(0.0, 0.0, s), Coordinate(0.0, 0.0, t),
              Coordinate(1.0, 0.0, s), Coordinate(1.0, 0.0, t), s, t);
    MixGentle(p1, Coordinate(0.0, 1.0, s), Coordinate(0.0, 1.0, t),
              Coordinate(1.0, 1.0, s), Coordinate(1.0, 1.0, t), s, t);
    MixSecond(p1, p2, s);
    MixSecond(p1, p2, t);
    MixGentle(p2, Coordinate(p1, 0.0, s), Coordinate(p1, 0.0, t),
              Coordinate(p1, 1.0, s), Coordinate(p1, 1.0, t), s, t);
  }

  // ----- Bisection -----

  /** The bracket after `n` more halvings. */
  function Bisect(c: CubicBezier, x: real, lo: real, hi: real, n: nat): (real, real)
    decreases n
  {
    if n == 0 then (lo, hi)
    else
      var mid := (lo + hi) / 2.0;
      if x < XForT(c, mid) then Bisect(c, x, lo, mid, n - 1) else Bisect(c, x, mid, hi, n - 1)
  }

  /** A width `d` halved `n` times. */
  function Halved(d: real, n: nat): real
    decreases n
  {
    if n == 0 then d else Halved(d / 2.0, n - 1)
  }

  const ITERATIONS: nat := 31

  function TForX(c: CubicBezier, x: real): real {
    var (lo, hi) := Bisect(c, x, 0.0, 1.0, ITERATIONS);
    (lo + hi) / 2.0
  }

  /** The bracket keeps `x` between the values at its ends. */
  lemma {:induction false} BisectBrackets(c: CubicBezier, x: real, lo: real, hi: real, n: nat)
    requires lo <= hi && XForT(c, lo) <= x <= XForT(c, hi)
    ensures
      var (lo', hi') := Bisect(c, x, lo, hi, n);
      lo <= lo' <= hi' <= hi && XForT(c, lo') <= x <= XForT(c, hi')
    decreases n
  {
    if n > 0 {
      var mid := (lo + hi) / 2.0;
      var v := XForT(c, mid);
      if x < v {
        BisectBrackets(c, x, lo, mid, n - 1);
      } else {
        BisectBrackets(c, x, mid, hi, n - 1);
      }
    }
  }

  /** The bracket shrinks by half each time. */
  lemma {:induction false} BisectHalves(c: CubicBezier, x: real, lo: real, hi: real, n: nat)
    ensures Bisect(c, x, lo, hi, n).1 - Bisect(c, x, lo, hi, n).0 == Halved(hi - lo, n)
    decreases n
  {
    if n > 0 {
      var mid := (lo + hi) / 2.0;
      var v := XForT(c, mid);
      assert mid - lo == (hi - lo) / 2.0 && hi - mid == (hi - lo) / 2.0;
      if x < v {
        BisectHalves(c, x, lo, mid, n - 1);
      } else {
        BisectHalves(c, x, mid, hi, n - 1);
      }
    }
  }

  lemma HalvedEightTimes(d: real, n: nat)
    ensures Halved(d, n + 8) == Halved(d / 256.0, n)
  {
    assert Halved(d, n + 8) == Halved(d / 2.0, n + 7) == Halved(d / 4.0, n + 6);
    assert Halved(d / 4.0, n + 6) == Halved(d / 8.0, n + 5) == Halved(d / 16.0, n + 4);
    assert Halved(d / 16.0, n + 4) == Halved(d / 32.0, n + 3) == Halved(d / 64.0, n + 2);
    assert Halved(d / 64.0, n + 2) == Halved(d / 128.0, n + 1) == Halved(d / 256.0, n);
  }

  lemma Halved31()
    ensures Halved(1.0, 31) == 1.0 / 2147483648.0
  {
    HalvedEightTimes(1.0, 23);
    HalvedEightTimes(1.0 / 256.0, 15);
    HalvedEightTimes(1.0 / 65536.0, 7);
    var d := 1.0 / 16777216.0;
    assert Halved(d, 7) == Halved(d / 2.0, 6) == Halved(d / 4.0, 5) == Halved(d / 8.0, 4);
    assert Halved(d / 8.0, 4) == Halved(d / 16.0, 3) == Halved(d / 32.0, 2);
    assert Halved(d / 32.0, 2) == Halved(d / 64.0, 1) == Halved(d / 128.0, 0);
  }

  /** A curve with control points in the unit square in x, as the configuration parser enforces. */
  predicate WellFormed(c: CubicBezier) {
    Unit(c.x1) && Unit(c.x2)
  }

  lemma Ends(p1: real, p2: real)
    ensures Coordinate(p1, p2, 0.0) == 0.0 && Coordinate(p1, p2, 1.0) == 1.0
  {}

  /** Inverting the curve by bisection is accurate to three halves of a unit in 2^-31. */
  lemma TForXAccurate(c: CubicBezier, x: real)
    requires WellFormed(c) && Unit(x)
    ensures Unit(TForX(c, x))
    ensures -3.0 / 4294967296.0 <= XForT(c, TForX(c, x)) - x <= 3.0 / 4294967296.0
  {
    Ends(c.x1, c.x2);
    BisectBrackets(c, x, 0.0, 1.0, ITERATIONS);
    BisectHalves(c, x, 0.0, 1.0, ITERATIONS);
    Halved31();
    var (lo, hi) := Bisect(c, x, 0.0, 1.0, ITERATIONS);
    var mid := TForX(c, x);
    CoordinateGentle(c.x1, c.x2, lo, mid);
    CoordinateGentle(c.x1, c.x2, mid, hi);
  }

  // ----- Easing -----

  const EPSILON := 1.0 / 4503599627370496.0

  function Ease(c: CubicBezier, x: real): real {
    if x <= EPSILON then 0.0
    else if 1.0 - EPSILON <= x then 1.0
    else YForT(c, TForX(c, x))
  }

  // ----- The curve is the one through its control points -----

  function Lerp(a: real, b: real, t: real): real {
    a + (b - a) * t
  }

  /** De Casteljau's construction of one coordinate from the four control values. */
  function DeCasteljau(p0: real, p1: real, p2: real, p3: real, t: real): real {
    var a, b, c := Lerp(p0, p1, t), Lerp(p1, p2, t), Lerp(p2, p3, t);
    Lerp(Lerp(a, b, t), Lerp(b, c, t), t)
  }

  /** The coordinates of the Bézier curve with control points (0, 0), (x1, y1), (x2, y2), (1, 1). */
  lemma CurveIsBezier(c: CubicBezier, t: real)
    ensures XForT(c, t) == DeCasteljau(0.0, c.x1, c.x2, 1.0, t)
    ensures YForT(c, t) == DeCasteljau(0.0, c.y1, c.y2, 1.0, t)
  {
    CoordinateIsBezier(c.x1, c.x2, t);
    CoordinateIsBezier(c.y1, c.y2, t);
  }

  lemma CoordinateIsBezier(p: real, q: real, t: real)
    ensures Coordinate(p, q, t) == DeCasteljau(0.0, p, q, 1.0, t)
  {
    CoordinatePolynomial(p, q, t);
    DeCasteljauPolynomial(p, q, t);
  }

  function Polynomial(p: real, q: real, t: real): real {
    3.0 * t * p + t * t * (3.0 * q - 6.0 * p) + t * t * t * (3.0 * p - 3.0 * q + 1.0)
  }

  lemma CoordinatePolynomial(p: real, q: real, t: real)
    ensures Coordinate(p, q, t) == Polynomial(p, q, t)
  {}

  lemma DeCasteljauPolynomial(p: real, q: real, t: real)
    ensures DeCasteljau(0.0, p, q, 1.0, t) == Polynomial(p, q, t)
  {
    FirstQuadratic(p, q, t);
    SecondQuadratic(p, q, t);
    LastLerp(p, q, t);
  }

  lemma FirstQuadratic(p: real, q: real, t: real)
    ensures Lerp(Lerp(0.0, p, t), Lerp(p, q, t), t) == 2.0 * t * p + t * t * (q - 2.0 * p)
  {}

  lemma SecondQuadratic(p: real, q: real, t: real)
    ensures Lerp(Lerp(p, q, t), Lerp(q, 1.0, t), t) ==
            p + 2.0 * t * (q - p) + t * t * (p - 2.0 * q + 1.0)
  {}

  lemma LastLerp(p: real, q: real, t: real)
    ensures Lerp(2.0 * t * p + t * t * (q - 2.0 * p),
                 p + 2.0 * t * (q - p) + t * t * (p - 2.0 * q + 1.0), t) == Polynomial(p, q, t)
  {}

  /** Away from the ends the easing function gives the height of the curve at a point whose x is the
      input, up to the bisection error; at the ends it gives 0 and 1. */
  lemma EaseOnCurve(c: CubicBezier, x: real)
    requires WellFormed(c)
    ensures x <= 0.0 ==> Ease(c, x) == 0.0
    ensures x >= 1.0 ==> Ease(c, x) == 1.0
    ensures 1.0 / 4503599627370496.0 < x < 1.0 - 1.0 / 4503599627370496.0 ==>
              exists t :: Unit(t) && NearX(c, t, x) &&
                          Ease(c, x) == DeCasteljau(0.0, c.y1, c.y2, 1.0, t)
  {
    if EPSILON < x < 1.0 - EPSILON {
      TForXAccurate(c, x);
      CurveIsBezier(c, TForX(c, x));
      assert NearX(c, TForX(c, x), x);
    }
  }

  ghost predicate NearX(c: CubicBezier, t: real, x: real) {
    var d := DeCasteljau(0.0, c.x1, c.x2, 1.0, t) - x;
    -3.0 / 4294967296.0 <= d <= 3.0 / 4294967296.0
  }

  /** Larger inputs are never inverted to smaller parameters. */
  lemma {:induction false} BisectMonotone(c: CubicBezier, x: real, x': real, lo: real, hi: real, n: nat)
    requires x <= x' && lo <= hi
    ensures Bisect(c, x, lo, hi, n).0 <= Bisect(c, x', lo, hi, n).0
    ensures Bisect(c, x, lo, hi, n).1 <= Bisect(c, x', lo, hi, n).1
    decreases n
  {
    if n > 0 {
      var mid := (lo + hi) / 2.0;
      var v := XForT(c, mid);
      if x' < v {
        BisectMonotone(c, x, x', lo, mid, n - 1);
      } else if x < v {
        BisectInside(c, x, lo, mid, n - 1);
        BisectInside(c, x', mid, hi, n - 1);
      } else {
        BisectMonotone(c, x, x', mid, hi, n - 1);
      }
    }
  }

  lemma {:induction false} BisectInside(c: CubicBezier, x: real, lo: real, hi: real, n: nat)
    requires lo <= hi
    ensures lo <= Bisect(c, x, lo, hi, n).0 <= Bisect(c, x, lo, hi, n).1 <= hi
    decreases n
  {
    if n > 0 {
      var mid := (lo + hi) / 2.0;
      if x < XForT(c, mid) {
        BisectInside(c, x, lo, mid, n - 1);
      } else {
        BisectInside(c, x, mid, hi, n - 1);
      }
    }
  }

  /** An easing curve inside the unit square never runs backwards and never overshoots, clamping at
      both ends included. */
  lemma EaseMonotone(c: CubicBezier, x: real, x': real)
    requires WellFormed(c) && Unit(c.y1) && Unit(c.y2) && x <= x'
    ensures 0.0 <= Ease(c, x) <= Ease(c, x') <= 1.0
  {
    Ends(c.y1, c.y2);
    BisectMonotone(c, x, x', 0.0, 1.0, ITERATIONS);
    BisectInside(c, x, 0.0, 1.0, ITERATIONS);
    BisectInside(c, x', 0.0, 1.0, ITERATIONS);
    var t, t' := TForX(c, x), TForX(c, x');
    CoordinateGentle(c.y1, c.y2, 0.0, t);
    CoordinateGentle(c.y1, c.y2, t, t');
    CoordinateGentle(c.y1, c.y2, t', 1.0);
  }

  /** A curve whose control points lie on the diagonal is the identity up to the bisection error. */
  lemma DiagonalIsIdentity(c: CubicBezier, x: real)
    requires WellFormed(c) && c.y1 == c.x1 && c.y2 == c.x2 && Unit(x)
    ensures -3.0 / 4294967296.0 <= Ease(c, x) - x <= 3.0 / 4294967296.0
  {
    TForXAccurate(c, x);
  }

  // ----- The loop -----

  method ComputeTForX(c: CubicBezier, x: real) returns (t: real)
    ensures t == TForX(c, x)
    ensures WellFormed(c) && Unit(x) ==>
              -3.0 / 4294967296.0 <= XForT(c, t) - x <= 3.0 / 4294967296.0
  {
    var minT, maxT := 0.0, 1.0;
    for i := 0 to ITERATIONS
      invariant Bisect(c, x, minT, maxT, ITERATIONS - i) == Bisect(c, x, 0.0, 1.0, ITERATIONS)
    {
      var guessT := (minT + maxT) / 2.0;
      var guessX := XForT(c, guessT);
      if x < guessX {
        maxT := guessT;
      } else {
        minT := guessT;
      }
    }
    t := (minT + maxT) / 2.0;
    if WellFormed(c) && Unit(x) {
      TForXAccurate(c, x);
    }
  }
}
