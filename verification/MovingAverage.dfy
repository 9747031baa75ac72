/** Exponential moving averages over a series: the running update, its closed form, bounds and order. */
module MovingAverage {
  import opened RealMath

  /** The average after the first `n` points: the first point, then moved by `alpha` towards each new one. */
  function Ema(alpha: real, cs: seq<real>, n: nat): real
    requires 0 < n <= |cs|
  {
    if n == 1 then cs[0] else Blend(alpha, Ema(alpha, cs, n - 1), cs[n - 1])
  }

  function Blend(alpha: real, prior: real, x: real): real {
    prior + alpha * (x - prior)
  }

  function Pow(x: real, n: nat): real {
    if n == 0 then 1.0 else x * Pow(x, n - 1)
  }

  /** The weight of point `k` in the average of `n` points. */
  function Weight(alpha: real, n: nat, k: nat): real
    requires k < n
  {
    if k == 0 then Pow(1.0 - alpha, n - 1) else alpha * Pow(1.0 - alpha, n - 1 - k)
  }

  function Weights(alpha: real, n: nat): (ws: seq<real>)
    ensures |ws| == n
  {
    seq(n, k requires 0 <= k < n => Weight(alpha, n, k))
  }

  /** Sum of the first `m` products of a weight and a point. */
  function WeightedTo(ws: seq<real>, cs: seq<real>, m: nat): real
    requires m <= |ws| && m <= |cs|
  {
    if m == 0 then 0.0 else WeightedTo(ws, cs, m - 1) + ws[m - 1] * cs[m - 1]
  }

  lemma WeightDecays(alpha: real, n: nat, k: nat)
    requires k < n
    ensures Weight(alpha, n + 1, k) == (1.0 - alpha) * Weight(alpha, n, k)
  {
  }

  lemma {:induction false} ScaledWeights(ws: seq<real>, ws': seq<real>, d: real, cs: seq<real>, m: nat)
    requires m <= |ws| && m <= |ws'| && m <= |cs|
    requires forall k :: 0 <= k < m ==> ws'[k] == d * ws[k]
    ensures WeightedTo(ws', cs, m) == d * WeightedTo(ws, cs, m)
  {
    if m > 0 {
      ScaledWeights(ws, ws', d, cs, m - 1);
      DecayedTerm(d, WeightedTo(ws, cs, m - 1), WeightedTo(ws', cs, m - 1), ws[m - 1], ws'[m - 1], cs[m - 1]);
    }
  }

  lemma DecayedTerm(d: real, sum: real, sum': real, w: real, w': real, c: real)
    requires sum' == d * sum && w' == d * w
    ensures sum' + w' * c == d * (sum + w * c)
  {
  }

  lemma WeightsOfNext(alpha: real, d: real, n: nat, ws: seq<real>, ws': seq<real>)
    requires n > 0 && ws == Weights(alpha, n) && ws' == Weights(alpha, n + 1) && d == 1.0 - alpha
    ensures forall k :: 0 <= k < n ==> ws'[k] == d * ws[k]
    ensures ws'[n] == alpha
  {
    forall k | 0 <= k < n
      ensures ws'[k] == d * ws[k]
    {
      WeightDecays(alpha, n, k);
    }
  }

  lemma MixStep(d: real, alpha: real, ws: seq<real>, ws': seq<real>, cs: seq<real>, n: nat, mix: real)
    requires |ws| == n < |ws'| && n < |cs|
    requires forall k :: 0 <= k < n ==> ws'[k] == d * ws[k]
    requires ws'[n] == alpha && mix == WeightedTo(ws, cs, n)
    ensures WeightedTo(ws', cs, n + 1) == d * mix + alpha * cs[n]
  {
    ScaledWeights(ws, ws', d, cs, n);
  }

  /** The running average is the geometric weighting of the whole series. */
  lemma {:induction false} ClosedForm(alpha: real, cs: seq<real>, n: nat)
    requires 0 < n <= |cs|
    ensures Ema(alpha, cs, n) == WeightedTo(Weights(alpha, n), cs, n)
  {
    if n == 1 {
      assert WeightedTo(Weights(alpha, 1), cs, 0) == 0.0;
      assert Weight(alpha, 1, 0) == 1.0;
    } else {
      var m, d, mean := n - 1, 1.0 - alpha, Ema(alpha, cs, n - 1);
      ClosedForm(alpha, cs, m);
      WeightsOfNext(alpha, d, m, Weights(alpha, m), Weights(alpha, n));
      MixStep(d, alpha, Weights(alpha, m), Weights(alpha, n), cs, m, mean);
      BlendIsMix(alpha, d, mean, cs[m]);
    }
  }

  lemma BlendIsMix(alpha: real, d: real, prior: real, x: real)
    requires d == 1.0 - alpha
    ensures Blend(alpha, prior, x) == d * prior + alpha * x
  {
  }

  lemma {:induction false} PowNonNegative(x: real, n: nat)
    requires x >= 0.0
    ensures Pow(x, n) >= 0.0
  {
    if n > 0 {
      PowNonNegative(x, n - 1);
      ScaleBound(x, 0.0, Pow(x, n - 1));
    }
  }

  /**
   The weights are a convex combination: none negative, and together one (the average of a constant series of ones).
   */
  lemma WeightsAreConvex(alpha: real, ones: seq<real>, n: nat)
    requires 0.0 <= alpha <= 1.0 && 0 < n <= |ones|
    requires forall k :: 0 <= k < |ones| ==> ones[k] == 1.0
    ensures forall k :: 0 <= k < n ==> Weight(alpha, n, k) >= 0.0
    ensures WeightedTo(Weights(alpha, n), ones, n) == 1.0
  {
    forall k | 0 <= k < n
      ensures Weight(alpha, n, k) >= 0.0
    {
      PowNonNegative(1.0 - alpha, n - 1 - k);
      ScaleBound(alpha, 0.0, Pow(1.0 - alpha, n - 1 - k));
    }
    InHull(alpha, ones, n, 1.0, 1.0);
    ClosedForm(alpha, ones, n);
  }

  lemma ScaledDown(alpha: real, up: real, room: real)
    requires 0.0 <= alpha <= 1.0 && up <= room && 0.0 <= room
    ensures alpha * up <= room
  {
    var x, y := alpha * up, alpha * room;
    ScaledOrder(alpha, up, room, x, y);
    ScaledOrder(room, alpha, 1.0, y, room);
  }

  lemma BlendAtMost(alpha: real, prior: real, x: real, hi: real)
    requires 0.0 <= alpha <= 1.0 && prior <= hi && x <= hi
    ensures Blend(alpha, prior, x) <= hi
  {
    ScaledDown(alpha, x - prior, hi - prior);
  }

  lemma BlendInHull(alpha: real, prior: real, x: real, lo: real, hi: real)
    requires 0.0 <= alpha <= 1.0 && lo <= prior <= hi && lo <= x <= hi
    ensures lo <= Blend(alpha, prior, x) <= hi
  {
    BlendAtMost(alpha, prior, x, hi);
    BlendAtMost(alpha, -prior, -x, -lo);
    BlendOfNegated(alpha, prior, x);
  }

  /** The average lies between any bounds on the points. */
  lemma {:induction false} InHull(alpha: real, cs: seq<real>, n: nat, lo: real, hi: real)
    requires 0.0 <= alpha <= 1.0 && 0 < n <= |cs|
    requires forall k :: 0 <= k < n ==> lo <= cs[k] <= hi
    ensures lo <= Ema(alpha, cs, n) <= hi
  {
    if n > 1 {
      InHull(alpha, cs, n - 1, lo, hi);
      BlendInHull(alpha, Ema(alpha, cs, n - 1), cs[n - 1], lo, hi);
    }
  }

  lemma GapShrinks(alpha: real, prior: real, x: real)
    ensures x - Blend(alpha, prior, x) == (1.0 - alpha) * (x - prior)
  {
  }

  lemma BlendOrder(fast: real, slow: real, f: real, s: real, c: real, x: real)
    requires 0.0 <= slow <= fast <= 1.0 && s <= f <= c <= x
    ensures Blend(slow, s, x) <= Blend(fast, f, x) <= x
  {
    GapShrinks(fast, f, x);
    GapShrinks(slow, s, x);
    GapOrder(1.0 - fast, 1.0 - slow, x - f, x - s);
  }

  lemma GapOrder(p: real, q: real, df: real, ds: real)
    requires 0.0 <= p <= q && 0.0 <= df <= ds
    ensures 0.0 <= p * df <= q * ds
  {
    ScaleBound(p, 0.0, df);
    ScaleBound(p, df, ds);
    ScaleBound(ds, p, q);
  }

  ghost predicate NeverFalls(cs: seq<real>, n: nat)
    requires n <= |cs|
  {
    forall j, k :: 0 <= j <= k < n ==> cs[j] <= cs[k]
  }

  /** On a series that never falls, the slower average is never above the faster one, nor that above the last point. */
  lemma {:induction false} RisingOrder(fast: real, slow: real, cs: seq<real>, n: nat)
    requires 0.0 <= slow <= fast <= 1.0 && 0 < n <= |cs| && NeverFalls(cs, n)
    ensures Ema(slow, cs, n) <= Ema(fast, cs, n) <= cs[n - 1]
  {
    if n > 1 {
      RisingOrder(fast, slow, cs, n - 1);
      BlendOrder(fast, slow, Ema(fast, cs, n - 1), Ema(slow, cs, n - 1), cs[n - 2], cs[n - 1]);
    }
  }

  function Negated(cs: seq<real>): (r: seq<real>)
    ensures |r| == |cs|
  {
    seq(|cs|, i requires 0 <= i < |cs| => -cs[i])
  }

  lemma {:induction false} EmaOfNegated(alpha: real, cs: seq<real>, n: nat)
    requires 0 < n <= |cs|
    ensures Ema(alpha, Negated(cs), n) == -Ema(alpha, cs, n)
  {
    if n > 1 {
      EmaOfNegated(alpha, cs, n - 1);
      BlendOfNegated(alpha, Ema(alpha, cs, n - 1), cs[n - 1]);
    }
  }

  lemma BlendOfNegated(alpha: real, prior: real, x: real)
    ensures Blend(alpha, -prior, -x) == -Blend(alpha, prior, x)
  {
  }

  /** And dually on a series that never rises. */
  lemma FallingOrder(fast: real, slow: real, cs: seq<real>, n: nat)
    requires 0.0 <= slow <= fast <= 1.0 && 0 < n <= |cs|
    requires forall j, k :: 0 <= j <= k < n ==> cs[j] >= cs[k]
    ensures cs[n - 1] <= Ema(fast, cs, n) <= Ema(slow, cs, n)
  {
    RisingOrder(fast, slow, Negated(cs), n);
    EmaOfNegated(fast, cs, n);
    EmaOfNegated(slow, cs, n);
  }

  lemma {:induction false} EmaOfPrefix(alpha: real, cs: seq<real>, ds: seq<real>, n: nat)
    requires 0 < n <= |cs| && n <= |ds|
    requires forall i :: 0 <= i < n ==> cs[i] == ds[i]
    ensures Ema(alpha, cs, n) == Ema(alpha, ds, n)
  {
    if n > 1 {
      EmaOfPrefix(alpha, cs, ds, n - 1);
    }
  }
}
