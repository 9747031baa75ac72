/**
 Win and loss totals over a run's bars (internal/backtest/engine.go, lines 205-215), apart from how the bars arose.
 */
module Tally {
  /** Whether a bar traded, and what marked equity did from its open to its close. */
  datatype BarResult = BarResult(traded: bool, delta: real)

  ghost function TradedBars(rs: seq<BarResult>, n: nat): set<nat>
    requires n <= |rs|
  {
    set i: nat | i < n && rs[i].traded
  }

  ghost function WinningBars(rs: seq<BarResult>, n: nat): set<nat>
    requires n <= |rs|
  {
    set i: nat | i < n && rs[i].traded && rs[i].delta > 1e-9
  }

  ghost function LosingBars(rs: seq<BarResult>, n: nat): set<nat>
    requires n <= |rs|
  {
    set i: nat | i < n && rs[i].traded && rs[i].delta < -1e-9
  }

  /** Sum of the deltas of those of the first `n` bars that are in `bars`. */
  ghost function DeltasOver(rs: seq<BarResult>, bars: set<nat>, n: nat): real
    requires n <= |rs|
  {
    if n == 0 then 0.0
    else DeltasOver(rs, bars, n - 1) + if n - 1 in bars then rs[n - 1].delta else 0.0
  }

  ghost function GrossWin(rs: seq<BarResult>, n: nat): real
    requires n <= |rs|
  {
    DeltasOver(rs, WinningBars(rs, n), n)
  }

  ghost function GrossLoss(rs: seq<BarResult>, n: nat): real
    requires n <= |rs|
  {
    -DeltasOver(rs, LosingBars(rs, n), n)
  }

  lemma {:induction false} DeltasOverSameBars(rs: seq<BarResult>, s: set<nat>, t: set<nat>, n: nat)
    requires n <= |rs|
    requires forall i: nat :: i < n ==> (i in s <==> i in t)
    ensures DeltasOver(rs, s, n) == DeltasOver(rs, t, n)
  {
    if n > 0 {
      DeltasOverSameBars(rs, s, t, n - 1);
    }
  }

  /** How one more bar changes the four totals. */
  lemma TalliesGrow(rs: seq<BarResult>, n: nat)
    requires n < |rs|
    ensures var won := rs[n].traded && rs[n].delta > 1e-9;
            && |WinningBars(rs, n + 1)| == |WinningBars(rs, n)| + (if won then 1 else 0)
            && GrossWin(rs, n + 1) == GrossWin(rs, n) + (if won then rs[n].delta else 0.0)
    ensures var lost := rs[n].traded && rs[n].delta < -1e-9;
            && |LosingBars(rs, n + 1)| == |LosingBars(rs, n)| + (if lost then 1 else 0)
            && GrossLoss(rs, n + 1) == GrossLoss(rs, n) - (if lost then rs[n].delta else 0.0)
  {
    var w, w', l, l' := WinningBars(rs, n), WinningBars(rs, n + 1), LosingBars(rs, n), LosingBars(rs, n + 1);
    assert w' == if n in w' then w + {n} else w;
    assert l' == if n in l' then l + {n} else l;
    DeltasOverSameBars(rs, w', w, n);
    DeltasOverSameBars(rs, l', l, n);
  }

  /** Gross win less gross loss is the total delta of the traded bars, give or take 1e-9 for each of them. */
  lemma {:induction false} NetOfGrosses(rs: seq<BarResult>, n: nat)
    requires n <= |rs|
    ensures var t := TradedBars(rs, n);
            -1e-9 * |t| as real <= GrossWin(rs, n) - GrossLoss(rs, n) - DeltasOver(rs, t, n) <= 1e-9 * |t| as real
    ensures |WinningBars(rs, n)| + |LosingBars(rs, n)| <= |TradedBars(rs, n)|
  {
    if n > 0 {
      NetOfGrosses(rs, n - 1);
      TalliesGrow(rs, n - 1);
      var t, t' := TradedBars(rs, n - 1), TradedBars(rs, n);
      assert t' == if n - 1 in t' then t + {n - 1} else t;
      DeltasOverSameBars(rs, t', t, n - 1);
    }
  }
}
