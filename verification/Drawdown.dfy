/**
 The running-peak drawdown of the backtest loop (internal/backtest/engine.go, lines 216-224) against its definition.
 */
module Drawdown {
  import opened RealMath

  /** The fall from `high` to `low`, in percent of `high`. */
  function FallPct(high: real, low: real): real
    requires high > 0.0
  {
    (high - low) / high * 100.0
  }

  /** Running peak after the curve's points 0..n. */
  function Peak(e: seq<real>, n: nat): real
    requires n < |e|
  {
    if n == 0 then e[0] else if e[n] > Peak(e, n - 1) then e[n] else Peak(e, n - 1)
  }

  /** The loop's running maximum drawdown after the curve's points 0..n; point 0 is the initial equity. */
  function MaxDrawdown(e: seq<real>, n: nat): real
    requires n < |e|
  {
    if n == 0 then 0.0
    else
      var before, peak := MaxDrawdown(e, n - 1), Peak(e, n);
      if peak > 0.0 && FallPct(peak, e[n]) > before then FallPct(peak, e[n]) else before
  }

  lemma {:induction false} PeakIsMaximum(e: seq<real>, n: nat)
    requires n < |e|
    ensures forall i :: 0 <= i <= n ==> e[i] <= Peak(e, n)
    ensures exists i :: 0 <= i <= n && e[i] == Peak(e, n)
  {
    if n == 0 {
      assert e[0] == Peak(e, 0);
    } else {
      PeakIsMaximum(e, n - 1);
      var i :| 0 <= i <= n - 1 && e[i] == Peak(e, n - 1);
      assert e[if e[n] > Peak(e, n - 1) then n else i] == Peak(e, n);
    }
  }

  lemma FallAgainstHigherPeak(h: real, high: real, low: real)
    requires 0.0 < h <= high && low >= 0.0
    ensures FallPct(h, low) <= FallPct(high, low)
  {
    var p, q := low / h, low / high;
    assert q <= p by {
      assert p * h == low && q * high == low;
      if q > p {
        ProductPositive(q - p, high, (q - p) * high);
      }
    }
    FallIsOneMinusRatio(h, low);
    FallIsOneMinusRatio(high, low);
  }

  lemma FallIsOneMinusRatio(high: real, low: real)
    requires high > 0.0
    ensures FallPct(high, low) == 100.0 - 100.0 * (low / high)
  {
    assert (high - low) / high == high / high - low / high;
  }

  lemma FallSign(high: real, low: real)
    requires high > 0.0
    ensures FallPct(high, low) <= 100.0 <==> low >= 0.0
    ensures low <= high ==> FallPct(high, low) >= 0.0
  {
    FallIsOneMinusRatio(high, low);
    var q := low / high;
    assert q * high == low;
    if q < 0.0 {
      ProductPositive(-q, high, -low);
    } else if q > 1.0 {
      ProductPositive(q - 1.0, high, low - high);
    }
  }

  /** Every later point's fall from the peak so far is bounded by the result, and some point's fall is the result. */
  lemma {:induction false} DrawdownIsWorstFallFromPeak(e: seq<real>, n: nat) returns (worst: nat)
    requires n < |e| && e[0] > 0.0
    ensures forall j :: 0 <= j <= n ==> Peak(e, j) > 0.0 && FallPct(Peak(e, j), e[j]) <= MaxDrawdown(e, n)
    ensures worst <= n && Peak(e, worst) > 0.0 && FallPct(Peak(e, worst), e[worst]) == MaxDrawdown(e, n)
  {
    if n == 0 {
      worst := 0;
      assert FallPct(e[0], e[0]) == 0.0;
    } else {
      worst := DrawdownIsWorstFallFromPeak(e, n - 1);
      assert Peak(e, n - 1) > 0.0;
      if FallPct(Peak(e, n), e[n]) > MaxDrawdown(e, n - 1) {
        worst := n;
      }
    }
  }

  /** From any start: no fall from a positive peak so far exceeds the result, which is one of them or zero. */
  lemma {:induction false} DrawdownFromAnyStart(e: seq<real>, n: nat)
    requires n < |e|
    ensures forall j :: 0 <= j <= n && Peak(e, j) > 0.0 ==> FallPct(Peak(e, j), e[j]) <= MaxDrawdown(e, n)
    ensures MaxDrawdown(e, n) >= 0.0
    ensures MaxDrawdown(e, n) > 0.0 ==>
              exists j :: 0 <= j <= n && Peak(e, j) > 0.0 && FallPct(Peak(e, j), e[j]) == MaxDrawdown(e, n)
  {
    if n == 0 {
      if e[0] > 0.0 {
        assert FallPct(e[0], e[0]) == 0.0;
      }
    } else {
      DrawdownFromAnyStart(e, n - 1);
      if MaxDrawdown(e, n) > MaxDrawdown(e, n - 1) {
        assert Peak(e, n) > 0.0 && FallPct(Peak(e, n), e[n]) == MaxDrawdown(e, n);
      } else if MaxDrawdown(e, n) > 0.0 {
        var j :| 0 <= j <= n - 1 && Peak(e, j) > 0.0 && FallPct(Peak(e, j), e[j]) == MaxDrawdown(e, n - 1);
        assert Peak(e, j) > 0.0;
      }
    }
  }

  /** `dd` is the largest percentage fall over all ordered pairs of points with a positive first point. */
  ghost predicate IsLargestFall(e: seq<real>, n: nat, dd: real)
    requires n < |e|
  {
    && (forall i, j :: 0 <= i <= j <= n && e[i] > 0.0 ==> FallPct(e[i], e[j]) <= dd)
    && (exists i, j :: 0 <= i <= j <= n && e[i] > 0.0 && FallPct(e[i], e[j]) == dd)
  }

  /** The lowest positive one of the points 0..n. */
  function LowestPositive(e: seq<real>, n: nat): (low: real)
    requires n < |e| && e[0] > 0.0
    ensures low > 0.0
  {
    if n == 0 then e[0]
    else
      var low := LowestPositive(e, n - 1);
      if 0.0 < e[n] < low then e[n] else low
  }

  lemma {:induction false} LowestPositiveIsLeast(e: seq<real>, n: nat) returns (at: nat)
    requires n < |e| && e[0] > 0.0
    ensures at <= n && e[at] == LowestPositive(e, n)
    ensures forall i :: 0 <= i <= n && e[i] > 0.0 ==> LowestPositive(e, n) <= e[i]
  {
    if n == 0 {
      at := 0;
    } else {
      at := LowestPositiveIsLeast(e, n - 1);
      if e[at] != LowestPositive(e, n) {
        at := n;
      }
    }
  }

  /** Below zero the comparison turns round: the lower start falls further, in percent of itself. */
  lemma FallFromLowerStart(h: real, high: real, low: real)
    requires 0.0 < h <= high && low < 0.0
    ensures FallPct(high, low) <= FallPct(h, low)
    ensures FallPct(high, low) == FallPct(h, low) ==> h == high
  {
    var p, q := low / h, low / high;
    FallIsOneMinusRatio(h, low);
    FallIsOneMinusRatio(high, low);
    RatioOrder(-p, -q, h, high, -low);
  }

  lemma RatioOrder(p: real, q: real, h: real, high: real, loss: real)
    requires 0.0 < h <= high && loss > 0.0 && p * h == loss && q * high == loss
    ensures q <= p && (p == q ==> h == high)
  {
    SignOfProduct(q, high, loss);
    var gap := q * (high - h);
    if h < high {
      ProductPositive(q, high - h, gap);
    }
    assert (p - q) * h == gap;
    SignOfProduct(p - q, h, gap);
  }

  /**
   When the online result is the brute-force one. From a positive start it always is the fall of some pair, and no pair
   falls further exactly when, at every negative point, not even the lowest positive point before it does.
   */
  lemma OnlineIsLargestFallIff(e: seq<real>, n: nat)
    requires n < |e| && e[0] > 0.0
    ensures IsLargestFall(e, n, MaxDrawdown(e, n)) <==>
            forall j :: 0 <= j <= n && e[j] < 0.0 ==> FallPct(LowestPositive(e, j), e[j]) <= MaxDrawdown(e, n)
  {
    var dd := MaxDrawdown(e, n);
    SomePairReaches(e, n);
    forall i, j | 0 <= i <= j <= n && e[i] > 0.0 && e[j] >= 0.0
      ensures FallPct(e[i], e[j]) <= dd
    {
      FromPeakIsEnough(e, n, i, j);
    }
    forall j | 0 <= j <= n && e[j] < 0.0
      ensures FallPct(LowestPositive(e, j), e[j]) <= dd <==>
              forall i :: 0 <= i <= j && e[i] > 0.0 ==> FallPct(e[i], e[j]) <= dd
    {
      var at := LowestPositiveIsLeast(e, j);
      forall i | 0 <= i <= j && e[i] > 0.0
        ensures FallPct(e[i], e[j]) <= FallPct(LowestPositive(e, j), e[j])
      {
        FallFromLowerStart(LowestPositive(e, j), e[i], e[j]);
      }
    }
  }

  lemma SomePairReaches(e: seq<real>, n: nat)
    requires n < |e| && e[0] > 0.0
    ensures exists i, j :: 0 <= i <= j <= n && e[i] > 0.0 && FallPct(e[i], e[j]) == MaxDrawdown(e, n)
  {
    var worst := DrawdownIsWorstFallFromPeak(e, n);
    PeakIsMaximum(e, worst);
    var top :| 0 <= top <= worst && e[top] == Peak(e, worst);
  }

  lemma FromPeakIsEnough(e: seq<real>, n: nat, i: nat, j: nat)
    requires n < |e| && e[0] > 0.0 && i <= j <= n && e[i] > 0.0 && e[j] >= 0.0
    ensures FallPct(e[i], e[j]) <= MaxDrawdown(e, n)
  {
    var worst := DrawdownIsWorstFallFromPeak(e, n);
    PeakIsMaximum(e, j);
    FallAgainstHigherPeak(e[i], Peak(e, j), e[j]);
  }

  /** So on a curve that never goes negative it always is. */
  lemma OnlineEqualsBruteForce(e: seq<real>, n: nat)
    requires n < |e| && e[0] > 0.0
    requires forall j :: 0 <= j <= n ==> e[j] >= 0.0
    ensures IsLargestFall(e, n, MaxDrawdown(e, n))
  {
    OnlineIsLargestFallIff(e, n);
  }

  /** And at the first negative point it is exactly when every positive point so far is at the peak. */
  lemma FirstNegativePoint(e: seq<real>, n: nat)
    requires n < |e| && e[0] > 0.0 && e[n] < 0.0
    requires forall j :: 0 <= j < n ==> e[j] >= 0.0
    ensures IsLargestFall(e, n, MaxDrawdown(e, n)) <==> forall i :: 0 <= i < n && e[i] > 0.0 ==> e[i] == Peak(e, n)
  {
    DrawdownAtFirstNegative(e, n);
    OnlineIsLargestFallIff(e, n);
    PeakIsMaximum(e, n);
    var at := LowestPositiveIsLeast(e, n);
    FallFromLowerStart(LowestPositive(e, n), Peak(e, n), e[n]);
  }

  /** The first fall below zero is the worst so far: more than all of the peak. */
  lemma DrawdownAtFirstNegative(e: seq<real>, n: nat)
    requires n < |e| && e[0] > 0.0 && e[n] < 0.0
    requires forall j :: 0 <= j < n ==> e[j] >= 0.0
    ensures Peak(e, n) > 0.0 && MaxDrawdown(e, n) == FallPct(Peak(e, n), e[n])
  {
    PeakIsMaximum(e, n);
    assert e[0] <= Peak(e, n);
    DrawdownRange(e, n - 1);
    FallSign(Peak(e, n), e[n]);
  }

  /**
   From a positive start the result is never negative, and it stays within 100% exactly when equity never goes
   negative.
   */
  lemma DrawdownRange(e: seq<real>, n: nat)
    requires n < |e| && e[0] > 0.0
    ensures MaxDrawdown(e, n) >= 0.0
    ensures MaxDrawdown(e, n) <= 100.0 <==> forall j :: 0 <= j <= n ==> e[j] >= 0.0
  {
    var worst := DrawdownIsWorstFallFromPeak(e, n);
    PeakIsMaximum(e, worst);
    FallSign(Peak(e, worst), e[worst]);
    forall j | 0 <= j <= n
      ensures FallPct(Peak(e, j), e[j]) <= 100.0 <==> e[j] >= 0.0
    {
      FallSign(Peak(e, j), e[j]);
    }
  }
}
