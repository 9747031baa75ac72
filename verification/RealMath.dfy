/** Exact arithmetic shared by the numeric modules: absolute value, extrema and indexed sums. */
module RealMath {

  function Abs(x: real): real {
    if x < 0.0 then -x else x
  }

  function Min(x: real, y: real): real {
    if x <= y then x else y
  }

  function Max(x: real, y: real): real {
    if x >= y then x else y
  }

  lemma ProductPositive(p: real, q: real, r: real)
    requires p > 0.0 && q > 0.0 && r == p * q
    ensures r > 0.0
  {
    assert p * q > 0.0;
  }

  /** Scaling by a positive number keeps the sign. */
  lemma SignOfProduct(x: real, k: real, r: real)
    requires k > 0.0 && r == x * k
    ensures r >= 0.0 <==> x >= 0.0
    ensures r > 0.0 <==> x > 0.0
  {
    if x > 0.0 {
      ProductPositive(x, k, r);
    } else if x < 0.0 {
      ProductPositive(-x, k, -r);
    }
  }

  lemma SquarePositive(t: real, q: real)
    requires q == t * t
    ensures q >= 0.0
    ensures q == 0.0 <==> t == 0.0
  {
    if t > 0.0 {
      ProductPositive(t, t, q);
    } else if t < 0.0 {
      ProductPositive(-t, -t, q);
    }
  }

  lemma ScaledSquare(k: real, t: real, r: real)
    requires k > 0.0 && r == k * (t * t)
    ensures r >= 0.0
    ensures r == 0.0 <==> t == 0.0
  {
    var q := t * t;
    SquarePositive(t, q);
    if t != 0.0 {
      ProductPositive(k, q, r);
    }
  }

  lemma ScaleBound(k: real, a: real, b: real)
    requires k >= 0.0 && a <= b
    ensures k * a <= k * b
  {
    if k > 0.0 && a < b {
      ProductPositive(k, b - a, k * (b - a));
      assert k * (b - a) == k * b - k * a;
    }
  }

  /** The same, with the two products named. */
  lemma ScaledOrder(k: real, a: real, b: real, ka: real, kb: real)
    requires k >= 0.0 && a <= b && ka == k * a && kb == k * b
    ensures ka <= kb
  {
    ScaleBound(k, a, b);
  }

  /** Sum of the first `n` entries. */
  function SumTo(xs: seq<real>, n: nat): real
    requires n <= |xs|
  {
    if n == 0 then 0.0 else SumTo(xs, n - 1) + xs[n - 1]
  }

  function Sum(xs: seq<real>): real {
    SumTo(xs, |xs|)
  }

  lemma {:induction false} SumToPrefix(xs: seq<real>, ys: seq<real>, n: nat)
    requires n <= |xs| && n <= |ys|
    requires xs[..n] == ys[..n]
    ensures SumTo(xs, n) == SumTo(ys, n)
  {
    if n > 0 {
      assert xs[..n][..n - 1] == xs[..n - 1] && ys[..n][..n - 1] == ys[..n - 1];
      assert xs[n - 1] == xs[..n][n - 1] == ys[..n][n - 1] == ys[n - 1];
      SumToPrefix(xs, ys, n - 1);
    }
  }

  /** Coefficients of a linear combination of six sums, the fourth with coefficient one. */
  datatype Quadratic = Quadratic(one: real, x: real, y: real, xy: real, yy: real) {
    function At(n: real, sx: real, sy: real, sxx: real, sxy: real, syy: real): real {
      sxx + one * n + x * sx + y * sy + xy * sxy + yy * syy
    }
  }

  lemma {:induction false} SumIsLinear(e: seq<real>, x: seq<real>, y: seq<real>, xx: seq<real>, xy: seq<real>,
                                       yy: seq<real>, q: Quadratic, n: nat)
    requires n <= |e| == |x| == |y| == |xx| == |xy| == |yy|
    requires forall i :: 0 <= i < n ==> e[i] == q.At(1.0, x[i], y[i], xx[i], xy[i], yy[i])
    ensures SumTo(e, n) == q.At(n as real, SumTo(x, n), SumTo(y, n), SumTo(xx, n), SumTo(xy, n), SumTo(yy, n))
  {
    if n > 0 {
      var m := n - 1;
      SumIsLinear(e, x, y, xx, xy, yy, q, m);
      assert e[m] == q.At(1.0, x[m], y[m], xx[m], xy[m], yy[m]);
      assert q.one * n as real == q.one * m as real + q.one;
      assert q.x * SumTo(x, n) == q.x * SumTo(x, m) + q.x * x[m];
      assert q.y * SumTo(y, n) == q.y * SumTo(y, m) + q.y * y[m];
      assert q.xy * SumTo(xy, n) == q.xy * SumTo(xy, m) + q.xy * xy[m];
      assert q.yy * SumTo(yy, n) == q.yy * SumTo(yy, m) + q.yy * yy[m];
    }
  }

  lemma {:induction false} NonNegativeSum(xs: seq<real>, n: nat)
    requires n <= |xs|
    requires forall i :: 0 <= i < n ==> xs[i] >= 0.0
    ensures SumTo(xs, n) >= 0.0
    ensures SumTo(xs, n) == 0.0 <==> forall i :: 0 <= i < n ==> xs[i] == 0.0
  {
    if n > 0 {
      NonNegativeSum(xs, n - 1);
    }
  }

  lemma {:induction false} ConstantSum(xs: seq<real>, c: real, n: nat)
    requires n <= |xs|
    requires forall i :: 0 <= i < n ==> xs[i] == c
    ensures SumTo(xs, n) == n as real * c
  {
    if n > 0 {
      ConstantSum(xs, c, n - 1);
      assert n as real * c == (n - 1) as real * c + c;
    }
  }

  lemma QuotientsOrdered(f: real, s: real)
    requires 0.0 < f <= s
    ensures 0.0 < 2.0 / s <= 2.0 / f
  {
    var x, y := 2.0 / f, 2.0 / s;
    assert x * f == 2.0 && y * s == 2.0;
    if y <= 0.0 {
      ScaleBound(s, y, 0.0);
    }
    if x < y {
      ScaleBound(y, f, s);
      ProductPositive(y - x, f, (y - x) * f);
    }
  }
}
