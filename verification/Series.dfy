/**
 The rolling-statistics helpers of the pair strategies (internal/strategy/series.go) and the two-pass
 statistics of the drift detector (internal/ml/drift.go). Square root is a parameter throughout: nothing
 proved here depends on which function it is.
 */
module Series {
  import opened RealMath

  function Mean(xs: seq<real>): real
    requires xs != []
  {
    Sum(xs) / |xs| as real
  }

  /** Pointwise products of two series after shifting each by a constant. */
  function Products(xs: seq<real>, ys: seq<real>, mx: real, my: real): (r: seq<real>)
    requires |xs| == |ys|
    ensures |r| == |xs|
  {
    seq(|xs|, i requires 0 <= i < |xs| => (xs[i] - mx) * (ys[i] - my))
  }

  /** Sum of products of deviations from the two means. */
  function CentredDot(xs: seq<real>, ys: seq<real>): real
    requires |xs| == |ys| > 0
  {
    Sum(Products(xs, ys, Mean(xs), Mean(ys)))
  }

  /** The population variance as the drift detector computes it: squared deviations from the mean. */
  function Variance(xs: seq<real>): real
    requires xs != []
  {
    CentredDot(xs, xs) / |xs| as real
  }

  function SquaredErrors(x: seq<real>, y: seq<real>, a: real, b: real): (r: seq<real>)
    requires |x| == |y|
    ensures |r| == |x|
  {
    seq(|x|, i requires 0 <= i < |x| => (x[i] - a - b * y[i]) * (x[i] - a - b * y[i]))
  }

  /** Squared error of the line x = a + b*y. */
  function ResidualSS(x: seq<real>, y: seq<real>, a: real, b: real): real
    requires |x| == |y|
  {
    Sum(SquaredErrors(x, y, a, b))
  }

  lemma ProductShifts(x: real, y: real, mx: real, my: real)
    ensures (x - mx) * (y - my) == x * y - my * x - mx * y + mx * my
  {
  }

  lemma MeanTimesCount(xs: seq<real>)
    requires xs != []
    ensures |xs| as real * Mean(xs) == Sum(xs)
  {
  }

  /** A sum of products less the product of a sum and a mean. */
  function Uncentred(sxy: real, sx: real, my: real): real {
    sxy - sx * my
  }

  lemma CentringCollapses(q: Quadratic, n: real, mx: real, my: real, sx: real, sy: real, sxy: real)
    requires n * mx == sx && n * my == sy
    requires q == Quadratic(mx * my, -my, -mx, 0.0, 0.0)
    ensures q.At(n, sx, sy, sxy, sxy, sxy) == Uncentred(sxy, sx, my)
  {
    assert mx * sy == sx * my;
    assert mx * my * n == sx * my;
  }

  lemma ProductsShift(x: seq<real>, y: seq<real>, mx: real, my: real, q: Quadratic)
    requires |x| == |y| && q == Quadratic(mx * my, -my, -mx, 0.0, 0.0)
    ensures var xy := Products(x, y, 0.0, 0.0);
            Sum(Products(x, y, mx, my)) == q.At(|x| as real, Sum(x), Sum(y), Sum(xy), Sum(xy), Sum(xy))
  {
    var e, xy := Products(x, y, mx, my), Products(x, y, 0.0, 0.0);
    forall i | 0 <= i < |x|
      ensures e[i] == q.At(1.0, x[i], y[i], xy[i], xy[i], xy[i])
    {
      ProductShifts(x[i], y[i], mx, my);
    }
    SumIsLinear(e, x, y, xy, xy, xy, q, |x|);
  }

  /** Centring both series removes the product of the sums. */
  lemma CentredMoments(x: seq<real>, y: seq<real>)
    requires |x| == |y| > 0
    ensures CentredDot(x, y) == Uncentred(Sum(Products(x, y, 0.0, 0.0)), Sum(x), Mean(y))
  {
    MeanTimesCount(x);
    MeanTimesCount(y);
    CentredAt(x, y, Mean(x), Mean(y));
  }

  /** The same for any two numbers that times the count are the sums. */
  lemma CentredAt(x: seq<real>, y: seq<real>, mx: real, my: real)
    requires |x| == |y| && |x| as real * mx == Sum(x) && |y| as real * my == Sum(y)
    ensures Sum(Products(x, y, mx, my)) == Uncentred(Sum(Products(x, y, 0.0, 0.0)), Sum(x), my)
  {
    var q := Quadratic(mx * my, -my, -mx, 0.0, 0.0);
    ProductsShift(x, y, mx, my, q);
    CentringCollapses(q, |x| as real, mx, my, Sum(x), Sum(y), Sum(Products(x, y, 0.0, 0.0)));
  }

  // ---------- meanStd: one pass equals two passes ----------

  lemma SumOfSquaresNonNegative(xs: seq<real>, m: real)
    ensures Sum(Products(xs, xs, m, m)) >= 0.0
  {
    var p := Products(xs, xs, m, m);
    forall i | 0 <= i < |xs|
      ensures p[i] >= 0.0
    {
      SquarePositive(xs[i] - m, p[i]);
    }
    NonNegativeSum(p, |p|);
  }

  /** The one-pass variance is the two-pass variance, so it is never negative and its clamp never acts. */
  lemma OnePassIsTwoPass(xs: seq<real>)
    requires xs != []
    ensures Sum(Products(xs, xs, 0.0, 0.0)) / |xs| as real - Mean(xs) * Mean(xs) == Variance(xs) >= 0.0
  {
    var n := |xs| as real;
    CentredMoments(xs, xs);
    SumOfSquaresNonNegative(xs, Mean(xs));
    assert Sum(xs) == n * Mean(xs);
    assert (Sum(xs) * Mean(xs)) / n == Mean(xs) * Mean(xs);
  }

  method MeanStd(xs: seq<real>, sqrt: real -> real) returns (mean: real, std: real, ok: bool)
    ensures |xs| < 2 ==> mean == 0.0 && std == 0.0 && !ok
    ensures |xs| >= 2 ==>
              && mean == Mean(xs)
              && (ok <==> sqrt(Variance(xs)) >= 1e-12)
              && std == (if ok then sqrt(Variance(xs)) else 0.0)
  {
    var n := |xs|;
    if n < 2 {
      return 0.0, 0.0, false;
    }
    var sum, sumsq := 0.0, 0.0;
    for i := 0 to n
      invariant sum == SumTo(xs, i)
      invariant sumsq == SumTo(Products(xs, xs, 0.0, 0.0), i)
    {
      sum := sum + xs[i];
      sumsq := sumsq + xs[i] * xs[i];
    }
    mean := sum / n as real;
    var v := sumsq / n as real - mean * mean;
    OnePassIsTwoPass(xs);
    if v < 0.0 {
      v := 0.0;
    }
    assert v == Variance(xs);
    std := sqrt(v);
    if std < 1e-12 {
      return mean, 0.0, false;
    }
    return mean, std, true;
  }

  method DriftMean(xs: seq<real>) returns (mean: real)
    requires xs != []
    ensures mean == Mean(xs)
  {
    var s := 0.0;
    for i := 0 to |xs|
      invariant s == SumTo(xs, i)
    {
      s := s + xs[i];
    }
    return s / |xs| as real;
  }

  /** The drift detector's two loops; its only caller passes at least four points. */
  method DriftStd(xs: seq<real>, sqrt: real -> real) returns (mean: real, std: real)
    requires xs != []
    ensures mean == Mean(xs) && std == sqrt(Variance(xs))
  {
    mean := DriftMean(xs);
    var s := 0.0;
    for i := 0 to |xs|
      invariant s == SumTo(Products(xs, xs, mean, mean), i)
    {
      var d := xs[i] - mean;
      s := s + d * d;
    }
    std := sqrt(s / |xs| as real);
  }

  // ---------- olsSlopeXY: the least-squares slope ----------

  predicate SlopeDefined(x: seq<real>, y: seq<real>) {
    |x| == |y| && |y| >= 3 && CentredDot(y, y) >= 1e-18
  }

  function Slope(x: seq<real>, y: seq<real>): real
    requires SlopeDefined(x, y)
  {
    CentredDot(x, y) / CentredDot(y, y)
  }

  method OlsSlopeXY(x: seq<real>, y: seq<real>) returns (beta: real, ok: bool)
    ensures ok <==> SlopeDefined(x, y)
    ensures ok <==> |x| == |y| && |x| >= 3 && CentredDot(y, y) >= 0.000000000000000001
    ensures beta == if ok then Slope(x, y) else 0.0
  {
    var n := |x|;
    if n != |y| || n < 3 {
      return 0.0, false;
    }
    var sumY, sumX := 0.0, 0.0;
    for i := 0 to n
      invariant sumY == SumTo(y, i) && sumX == SumTo(x, i)
    {
      sumY := sumY + y[i];
      sumX := sumX + x[i];
    }
    var fy, fx := sumY / n as real, sumX / n as real;
    var syy, sxy := CentredSums(x, y, fx, fy);
    if syy < 1e-18 {
      return 0.0, false;
    }
    return sxy / syy, true;
  }

  /** The second loop of the fit. */
  method CentredSums(x: seq<real>, y: seq<real>, fx: real, fy: real) returns (syy: real, sxy: real)
    requires |x| == |y|
    ensures syy == Sum(Products(y, y, fy, fy)) && sxy == Sum(Products(x, y, fx, fy))
  {
    ghost var yy, xy := Products(y, y, fy, fy), Products(x, y, fx, fy);
    syy, sxy := 0.0, 0.0;
    for i := 0 to |x|
      invariant syy == SumTo(yy, i) && sxy == SumTo(xy, i)
    {
      var dyy, dxy := CentredTerms(x, y, fx, fy, i);
      syy := syy + dyy;
      sxy := sxy + dxy;
    }
  }

  method CentredTerms(x: seq<real>, y: seq<real>, fx: real, fy: real, i: nat) returns (dyy: real, dxy: real)
    requires i < |x| == |y|
    ensures dyy == Products(y, y, fy, fy)[i] && dxy == Products(x, y, fx, fy)[i]
  {
    var dy := y[i] - fy;
    var dx := x[i] - fx;
    return dy * dy, dx * dy;
  }

  function Deviations(xs: seq<real>, m: real): (r: seq<real>)
    ensures |r| == |xs|
  {
    seq(|xs|, i requires 0 <= i < |xs| => xs[i] - m)
  }

  lemma {:induction false} DeviationsSum(xs: seq<real>, m: real, n: nat)
    requires n <= |xs|
    ensures SumTo(Deviations(xs, m), n) == SumTo(xs, n) - n as real * m
  {
    if n > 0 {
      DeviationsSum(xs, m, n - 1);
      assert n as real * m == (n - 1) as real * m + m;
    }
  }

  lemma DeviationsFromMeanVanish(xs: seq<real>)
    requires xs != []
    ensures Sum(Deviations(xs, Mean(xs))) == 0.0
  {
    DeviationsSum(xs, Mean(xs), |xs|);
    MeanTimesCount(xs);
  }

  lemma ResidualShifts(x: real, y: real, a: real, b: real, mx: real, my: real, c: real, u: real, v: real)
    requires c == a + b * my - mx && u == x - mx && v == y - my
    ensures (x - a - b * y) * (x - a - b * y) == (u - c - b * v) * (u - c - b * v)
  {
    assert b * v == b * y - b * my;
    var r := u - c - b * v;
    assert r == x - a - b * y;
  }

  /** Measuring both series from any origin only moves the intercept. */
  lemma ResidualOfDeviations(x: seq<real>, y: seq<real>, a: real, b: real, mx: real, my: real, c: real)
    requires |x| == |y| && c == a + b * my - mx
    ensures ResidualSS(x, y, a, b) == ResidualSS(Deviations(x, mx), Deviations(y, my), c, b)
  {
    var u, v := Deviations(x, mx), Deviations(y, my);
    forall i | 0 <= i < |x|
      ensures SquaredErrors(x, y, a, b)[i] == SquaredErrors(u, v, c, b)[i]
    {
      ResidualShifts(x[i], y[i], a, b, mx, my, c, u[i], v[i]);
    }
    assert SquaredErrors(x, y, a, b) == SquaredErrors(u, v, c, b);
  }

  lemma SquareExpands(u: real, v: real, c: real, b: real)
    ensures (u - c - b * v) * (u - c - b * v)
         == Quadratic(c * c, -2.0 * c, 2.0 * b * c, -2.0 * b, b * b).At(1.0, u, v, u * u, u * v, v * v)
  {
    var t := u - c;
    assert t * t == u * u - 2.0 * c * u + c * c;
    assert (t - b * v) * (t - b * v) == t * t - 2.0 * (t * (b * v)) + (b * v) * (b * v);
    assert t * (b * v) == b * (u * v) - b * c * v;
    assert (b * v) * (b * v) == b * b * (v * v);
  }

  /** On series that sum to zero the cross terms drop out. */
  lemma CentredResidual(u: seq<real>, v: seq<real>, c: real, b: real)
    requires |u| == |v| && Sum(u) == 0.0 && Sum(v) == 0.0
    ensures ResidualSS(u, v, c, b)
         == CentredError(Sum(Products(u, u, 0.0, 0.0)), Sum(Products(u, v, 0.0, 0.0)), Sum(Products(v, v, 0.0, 0.0)),
                         |u| as real, c, b)
  {
    var q := Quadratic(c * c, -2.0 * c, 2.0 * b * c, -2.0 * b, b * b);
    ResidualMoments(u, v, c, b, q);
    CrossTermsVanish(q, |u| as real, Sum(Products(u, u, 0.0, 0.0)), Sum(Products(u, v, 0.0, 0.0)),
                     Sum(Products(v, v, 0.0, 0.0)));
  }

  lemma CrossTermsVanish(q: Quadratic, n: real, suu: real, suv: real, svv: real)
    ensures q.At(n, 0.0, 0.0, suu, suv, svv) == suu + q.one * n + q.xy * suv + q.yy * svv
  {
  }

  lemma ResidualMoments(u: seq<real>, v: seq<real>, c: real, b: real, q: Quadratic)
    requires |u| == |v| && q == Quadratic(c * c, -2.0 * c, 2.0 * b * c, -2.0 * b, b * b)
    ensures ResidualSS(u, v, c, b)
         == q.At(|u| as real, Sum(u), Sum(v), Sum(Products(u, u, 0.0, 0.0)), Sum(Products(u, v, 0.0, 0.0)),
                 Sum(Products(v, v, 0.0, 0.0)))
  {
    var uu, uv, vv := Products(u, u, 0.0, 0.0), Products(u, v, 0.0, 0.0), Products(v, v, 0.0, 0.0);
    var e := SquaredErrors(u, v, c, b);
    forall i | 0 <= i < |u|
      ensures e[i] == q.At(1.0, u[i], v[i], uu[i], uv[i], vv[i])
    {
      SquareExpands(u[i], v[i], c, b);
    }
    SumIsLinear(e, u, v, uu, uv, vv, q, |u|);
  }

  /** Completing the square: the excess over the best line is a sum of two squares. */
  lemma ExcessOverBest(u: seq<real>, v: seq<real>, c: real, b: real, beta: real, spread: real)
    returns (p: real, q: real)
    requires |u| == |v| > 0 && Sum(u) == 0.0 && Sum(v) == 0.0
    requires spread == Sum(Products(v, v, 0.0, 0.0)) > 0.0
    requires beta * spread == Sum(Products(u, v, 0.0, 0.0))
    ensures p >= 0.0 && (p == 0.0 <==> c == 0.0)
    ensures q >= 0.0 && (q == 0.0 <==> b - beta == 0.0)
    ensures ResidualSS(u, v, c, b) == ResidualSS(u, v, 0.0, beta) + p + q
  {
    var suu, n := Sum(Products(u, u, 0.0, 0.0)), |u| as real;
    CentredResidual(u, v, c, b);
    CentredResidual(u, v, 0.0, beta);
    p, q := CompleteSquare(suu, n, c, b, beta, spread, Sum(Products(u, v, 0.0, 0.0)));
  }

  lemma CompleteSquare(suu: real, n: real, c: real, b: real, beta: real, spread: real, suv: real)
    returns (p: real, q: real)
    requires suv == beta * spread && n > 0.0 && spread > 0.0
    ensures p >= 0.0 && (p == 0.0 <==> c == 0.0)
    ensures q >= 0.0 && (q == 0.0 <==> b - beta == 0.0)
    ensures CentredError(suu, suv, spread, n, c, b) == CentredError(suu, suv, spread, n, 0.0, beta) + p + q
  {
    var d := b - beta;
    p, q := n * (c * c), spread * (d * d);
    ScaledSquare(n, c, p);
    ScaledSquare(spread, d, q);
    SquareOfDifference(b, beta, spread);
  }

  /** Squared error of a line, in the second moments of series that sum to zero. */
  function CentredError(suu: real, suv: real, svv: real, n: real, c: real, b: real): real {
    suu + c * c * n - 2.0 * b * suv + b * b * svv
  }

  lemma SquareOfDifference(b: real, beta: real, spread: real)
    ensures spread * ((b - beta) * (b - beta)) == b * b * spread - 2.0 * b * (beta * spread) + beta * (beta * spread)
  {
  }

  lemma SlopeTimesSpread(x: seq<real>, y: seq<real>)
    requires SlopeDefined(x, y)
    ensures Slope(x, y) * CentredDot(y, y) == CentredDot(x, y)
  {
  }

  lemma ProductsOfDeviations(x: seq<real>, y: seq<real>, mx: real, my: real)
    requires |x| == |y|
    ensures Products(Deviations(x, mx), Deviations(y, my), 0.0, 0.0) == Products(x, y, mx, my)
  {
    var u, v := Deviations(x, mx), Deviations(y, my);
    forall i | 0 <= i < |x|
      ensures Products(u, v, 0.0, 0.0)[i] == Products(x, y, mx, my)[i]
    {
      assert u[i] - 0.0 == x[i] - mx && v[i] - 0.0 == y[i] - my;
    }
  }

  lemma FitIsStrictMinimum(x: seq<real>, y: seq<real>, a: real, b: real, mx: real, my: real, alpha: real, beta: real,
                           spread: real)
    requires |x| == |y| > 0 && alpha == mx - beta * my
    requires Sum(Deviations(x, mx)) == 0.0 && Sum(Deviations(y, my)) == 0.0
    requires spread == Sum(Products(y, y, my, my)) > 0.0
    requires beta * spread == Sum(Products(x, y, mx, my))
    ensures ResidualSS(x, y, alpha, beta) <= ResidualSS(x, y, a, b)
    ensures ResidualSS(x, y, alpha, beta) == ResidualSS(x, y, a, b) <==> a == alpha && b == beta
  {
    var u, v, c := Deviations(x, mx), Deviations(y, my), a + b * my - mx;
    ProductsOfDeviations(x, y, mx, my);
    ProductsOfDeviations(y, y, my, my);
    var p, q := ExcessOverBest(u, v, c, b, beta, spread);
    ResidualOfDeviations(x, y, a, b, mx, my, c);
    ResidualOfDeviations(x, y, alpha, beta, mx, my, 0.0);
    SameFit(a, b, alpha, beta, mx, my, c);
  }

  lemma SameFit(a: real, b: real, alpha: real, beta: real, mx: real, my: real, c: real)
    requires alpha == mx - beta * my && c == a + b * my - mx
    ensures c == 0.0 && b - beta == 0.0 <==> a == alpha && b == beta
  {
  }

  /** The slope, with the intercept through the means, beats every other line; it ties only with itself. */
  lemma SlopeMinimisesSquaredError(x: seq<real>, y: seq<real>, a: real, b: real, fx: real, fy: real, beta: real)
    requires SlopeDefined(x, y)
    requires fx == Mean(x) && fy == Mean(y) && beta == Slope(x, y)
    ensures ResidualSS(x, y, fx - beta * fy, beta) <= ResidualSS(x, y, a, b)
    ensures ResidualSS(x, y, fx - beta * fy, beta) == ResidualSS(x, y, a, b) <==> a == fx - beta * fy && b == beta
  {
    var spread := CentredDot(y, y);
    assert Sum(Deviations(x, fx)) == 0.0 && Sum(Deviations(y, fy)) == 0.0 by {
      DeviationsFromMeanVanish(x);
      DeviationsFromMeanVanish(y);
    }
    assert beta * spread == CentredDot(x, y) by {
      SlopeTimesSpread(x, y);
    }
    FitIsStrictMinimum(x, y, a, b, fx, fy, fx - beta * fy, beta, spread);
  }

  lemma SquaredErrorsNonNegative(x: seq<real>, y: seq<real>, a: real, b: real)
    requires |x| == |y|
    ensures ResidualSS(x, y, a, b) >= 0.0
  {
    var e := SquaredErrors(x, y, a, b);
    forall i | 0 <= i < |x|
      ensures e[i] >= 0.0
    {
      SquarePositive(x[i] - a - b * y[i], e[i]);
    }
    NonNegativeSum(e, |e|);
  }

  lemma PointOnLine(x: real, y: real, a: real, b: real)
    requires x == a + b * y
    ensures (x - a - b * y) * (x - a - b * y) == 0.0
  {
    var d := x - a - b * y;
    assert d == 0.0;
    assert d * d == 0.0;
  }

  lemma LineHasNoError(x: seq<real>, y: seq<real>, a: real, b: real)
    requires |x| == |y|
    requires forall i :: 0 <= i < |x| ==> x[i] == a + b * y[i]
    ensures ResidualSS(x, y, a, b) == 0.0
  {
    var e := SquaredErrors(x, y, a, b);
    forall i | 0 <= i < |x|
      ensures e[i] == 0.0
    {
      PointOnLine(x[i], y[i], a, b);
    }
    NonNegativeSum(e, |e|);
  }

  /** Points on a line give back the line's slope. */
  lemma SlopeRecoversLine(x: seq<real>, y: seq<real>, a: real, b: real)
    requires SlopeDefined(x, y)
    requires forall i :: 0 <= i < |x| ==> x[i] == a + b * y[i]
    ensures Slope(x, y) == b
  {
    LineHasNoError(x, y, a, b);
    ZeroErrorIsFit(x, y, a, b, Mean(x), Mean(y), Slope(x, y));
  }

  lemma ZeroErrorIsFit(x: seq<real>, y: seq<real>, a: real, b: real, fx: real, fy: real, beta: real)
    requires SlopeDefined(x, y) && ResidualSS(x, y, a, b) == 0.0
    requires fx == Mean(x) && fy == Mean(y) && beta == Slope(x, y)
    ensures beta == b
  {
    var alpha := fx - beta * fy;
    SquaredErrorsNonNegative(x, y, alpha, beta);
    SlopeMinimisesSquaredError(x, y, a, b, fx, fy, beta);
  }

  lemma ShiftedMean(xs: seq<real>, m: real)
    requires xs != []
    ensures Mean(Deviations(xs, m)) == Mean(xs) - m
  {
    DeviationsSum(xs, m, |xs|);
  }

  lemma ShiftedCentredDot(x: seq<real>, y: seq<real>, c: real, d: real)
    requires |x| == |y| > 0
    ensures CentredDot(Deviations(x, c), Deviations(y, d)) == CentredDot(x, y)
  {
    ShiftedMean(x, c);
    ShiftedMean(y, d);
    var fx, fy := Mean(x), Mean(y);
    var u, v := Deviations(x, c), Deviations(y, d);
    forall i | 0 <= i < |x|
      ensures Products(u, v, fx - c, fy - d)[i] == Products(x, y, fx, fy)[i]
    {
      assert u[i] - (fx - c) == x[i] - fx && v[i] - (fy - d) == y[i] - fy;
    }
    assert Products(u, v, fx - c, fy - d) == Products(x, y, fx, fy);
  }

  /** Adding a constant to either series changes neither the slope nor whether there is one. */
  lemma SlopeIgnoresShifts(x: seq<real>, y: seq<real>, c: real, d: real)
    requires |x| == |y|
    ensures SlopeDefined(Deviations(x, c), Deviations(y, d)) <==> SlopeDefined(x, y)
    ensures SlopeDefined(x, y) ==> Slope(Deviations(x, c), Deviations(y, d)) == Slope(x, y)
  {
    if |x| > 0 {
      ShiftedCentredDot(x, y, c, d);
      ShiftedCentredDot(y, y, d, d);
    }
  }
}
