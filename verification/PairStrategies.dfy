/**
 What the two-leg mean-reversion strategies share, and the log-spread one (internal/strategy/statarb.go) with its capped
 history. Logarithm and square root are arbitrary functions.
 */
module PairStrategies {
  import opened Types
  import opened RealMath
  import opened Instruments
  import opened Series
  import opened Buffers

  /** What the z-score of the window's last entry against the others calls for: a direction and a confidence. */
  datatype Reversion = Reversion(dir: real, conf: real)

  function CopySign(x: real): real {
    if x < 0.0 then -1.0 else 1.0
  }

  function ReversionOf(z: real, zEntry: real, base: real, slope: real): Reversion
    requires zEntry > 0.0
  {
    Reversion(-CopySign(z), Min(0.82, base + slope * Min(1.0, (Abs(z) - zEntry) / (zEntry + 0.5))))
  }

  /** None when the others have no spread to measure by, or the score is inside the threshold. */
  function Revert(window: seq<real>, zEntry: real, base: real, slope: real, sqrt: real -> real): Option<Reversion>
    requires |window| >= 3 && zEntry > 0.0
  {
    var cur, prev := window[|window| - 1], window[..|window| - 1];
    var sigma := sqrt(Variance(prev));
    if sigma < 1e-12 then None
    else
      var z := (cur - Mean(prev)) / sigma;
      if Abs(z) < zEntry then None else Some(ReversionOf(z, zEntry, base, slope))
  }

  method ZScore(window: seq<real>, zEntry: real, base: real, slope: real, sqrt: real -> real)
    returns (r: Option<Reversion>)
    requires |window| >= 3 && zEntry > 0.0
    ensures r == Revert(window, zEntry, base, slope, sqrt)
  {
    var cur, prev := window[|window| - 1], window[..|window| - 1];
    var mu, sigma, ok := MeanStd(prev, sqrt);
    if !ok {
      return None;
    }
    var z := (cur - mu) / sigma;
    if Abs(z) < zEntry {
      return None;
    }
    return Some(ReversionOf(z, zEntry, base, slope));
  }

  /** The pair's prices when a bar of one leg arrives: that leg's close and the other's last close, if it has one. */
  function PairPrices(leg1: Instrument, leg2: Instrument, lastPx: map<string, real>, b: Bar): Option<(real, real)> {
    var k, k1, k2 := InstKey(b.instrument), InstKey(leg1), InstKey(leg2);
    if k == k1 then
      if k2 in lastPx && lastPx[k2] > 0.0 then Some((b.close, lastPx[k2])) else None
    else if k == k2 then
      if k1 in lastPx && lastPx[k1] > 0.0 then Some((lastPx[k1], b.close)) else None
    else None
  }

  function PairSignals(id: string, leg1: Instrument, leg2: Instrument, dir1: real, dir2: real, conf: real,
                       reason: string, ts: int): seq<Signal>
  {
    [Signal(id, leg1, dir1, conf, reason, ts, 0.0, 0.0, 0.0, false),
     Signal(id, leg2, dir2, conf, reason, ts, 0.0, 0.0, 0.0, false)]
  }

  /** How a history takes a new entry: truncated to a capacity, or kept whole. */
  datatype Memory = Capped | Unlimited

  function Push<T>(m: Memory, xs: seq<T>, v: T, cap: nat): seq<T> {
    if m == Capped then LastOf(xs + [v], cap) else xs + [v]
  }

  // ---------- StatArb ----------

  datatype StatArbParams = StatArbParams(
    id: string,
    leg1: Instrument,
    leg2: Instrument,
    hedge: real,
    lookback: nat,
    zEntry: real,
    log: real -> real,
    sqrt: real -> real
  ) {
    /** What the constructor establishes, whatever it is given. */
    predicate Valid() {
      lookback >= 5 && zEntry > 0.0
    }

    function MaxBuf(): nat {
      lookback + 80
    }

    predicate HasLegs() {
      leg1.symbol != "" && leg2.symbol != ""
    }

    /** The hedged log spread. */
    function Spread(p1: real, p2: real): real {
      log(p1) - hedge * log(p2)
    }
  }

  datatype StatArbState = StatArbState(lastPx: map<string, real>, spreads: seq<real>)

  const STATARB_INITIAL := StatArbState(map[], [])

  /** What a spread history emits. */
  function StatArbSignals(p: StatArbParams, spreads: seq<real>, ts: int): seq<Signal>
    requires p.Valid()
  {
    if |spreads| < p.lookback then []
    else
      match Revert(LastOf(spreads, p.lookback), p.zEntry, 0.42, 0.18, p.sqrt)
      case None => []
      case Some(r) => PairSignals(p.id, p.leg1, p.leg2, r.dir, -r.dir, r.conf, "stat_arb_spread_mean_revert", ts)
  }

  function StatArbStep(p: StatArbParams, m: Memory, st: StatArbState, b: Bar): (StatArbState, seq<Signal>)
    requires p.Valid()
  {
    if !p.HasLegs() || b.close <= 0.0 then (st, [])
    else
      var lastPx := st.lastPx[InstKey(b.instrument) := b.close];
      match PairPrices(p.leg1, p.leg2, lastPx, b)
      case None => (StatArbState(lastPx, st.spreads), [])
      case Some((p1, p2)) =>
        var spreads := Push(m, st.spreads, p.Spread(p1, p2), p.MaxBuf());
        (StatArbState(lastPx, spreads), StatArbSignals(p, spreads, b.timestamp))
  }

  class StatArb {
    const p: StatArbParams
    var lastPx: map<string, real>
    var spreads: seq<real>

    constructor (p: StatArbParams)
      ensures this.p == p && StatArbState(lastPx, spreads) == STATARB_INITIAL
    {
      this.p := p;
      lastPx, spreads := map[], [];
    }

    method OnBar(b: Bar) returns (sigs: seq<Signal>)
      requires p.Valid()
      modifies this
      ensures (StatArbState(lastPx, spreads), sigs) == StatArbStep(p, Capped, old(StatArbState(lastPx, spreads)), b)
    {
      if p.leg1.symbol == "" || p.leg2.symbol == "" {
        return [];
      }
      var k := InstKey(b.instrument);
      if b.close <= 0.0 {
        return [];
      }
      lastPx := lastPx[k := b.close];
      var k1, k2 := InstKey(p.leg1), InstKey(p.leg2);
      var p1, p2, have := 0.0, 0.0, false;
      if k == k1 {
        p1 := b.close;
        p2 := if k2 in lastPx then lastPx[k2] else 0.0;
        have := p2 > 0.0;
      } else if k == k2 {
        p2 := b.close;
        p1 := if k1 in lastPx then lastPx[k1] else 0.0;
        have := p1 > 0.0;
      } else {
        return [];
      }
      if !have {
        return [];
      }
      var sp := p.Spread(p1, p2);
      spreads := PushCap(spreads, sp, p.MaxBuf());
      if |spreads| < p.lookback {
        return [];
      }
      var hist := spreads[|spreads| - p.lookback..];
      assert hist == LastOf(spreads, p.lookback);
      var r := ZScore(hist, p.zEntry, 0.42, 0.18, p.sqrt);
      if r.None? {
        return [];
      }
      return PairSignals(p.id, p.leg1, p.leg2, r.value.dir, -r.value.dir, r.value.conf, "stat_arb_spread_mean_revert",
                         b.timestamp);
    }
  }

  /** The capped strategy's state is the unlimited one's with the history truncated. */
  ghost predicate StatArbTruncates(p: StatArbParams, capped: StatArbState, whole: StatArbState) {
    capped == StatArbState(whole.lastPx, LastOf(whole.spreads, p.MaxBuf()))
  }

  lemma StatArbSpreadsTruncate(p: StatArbParams, whole: seq<real>, v: real, ts: int)
    requires p.Valid()
    ensures Push(Capped, LastOf(whole, p.MaxBuf()), v, p.MaxBuf())
            == LastOf(Push(Unlimited, whole, v, p.MaxBuf()), p.MaxBuf())
    ensures StatArbSignals(p, Push(Capped, LastOf(whole, p.MaxBuf()), v, p.MaxBuf()), ts)
         == StatArbSignals(p, Push(Unlimited, whole, v, p.MaxBuf()), ts)
  {
    LastOfLast(whole, v, p.MaxBuf());
    WindowOfLast(whole + [v], p.MaxBuf(), p.lookback);
  }

  lemma StatArbStepTruncates(p: StatArbParams, capped: StatArbState, whole: StatArbState, b: Bar)
    requires p.Valid() && StatArbTruncates(p, capped, whole)
    ensures StatArbTruncates(p, StatArbStep(p, Capped, capped, b).0, StatArbStep(p, Unlimited, whole, b).0)
    ensures StatArbStep(p, Capped, capped, b).1 == StatArbStep(p, Unlimited, whole, b).1
  {
    if p.HasLegs() && b.close > 0.0 {
      match PairPrices(p.leg1, p.leg2, whole.lastPx[InstKey(b.instrument) := b.close], b)
      case None =>
      case Some((p1, p2)) =>
        StatArbSpreadsTruncate(p, whole.spreads, p.Spread(p1, p2), b.timestamp);
    }
  }

  function StatArbRun(p: StatArbParams, m: Memory): (StatArbState, Bar) -> (StatArbState, seq<Signal>)
    requires p.Valid()
  {
    (st, b) requires p.Valid() => StatArbStep(p, m, st, b)
  }

  lemma {:induction false} StatArbRunsTruncate(p: StatArbParams, bars: seq<Bar>)
    requires p.Valid()
    ensures StatArbTruncates(p, Reached(StatArbRun(p, Capped), STATARB_INITIAL, bars),
                             Reached(StatArbRun(p, Unlimited), STATARB_INITIAL, bars))
  {
    if bars != [] {
      var before := bars[..|bars| - 1];
      StatArbRunsTruncate(p, before);
      StatArbStepTruncates(p, Reached(StatArbRun(p, Capped), STATARB_INITIAL, before),
                           Reached(StatArbRun(p, Unlimited), STATARB_INITIAL, before), bars[|bars| - 1]);
    }
  }

  /** On every bar sequence the capped strategy emits exactly what one that never truncates would. */
  lemma StatArbRefinesUnlimited(p: StatArbParams, bars: seq<Bar>)
    requires p.Valid() && bars != []
    ensures Emitted(StatArbRun(p, Capped), STATARB_INITIAL, bars)
            == Emitted(StatArbRun(p, Unlimited), STATARB_INITIAL, bars)
  {
    var before := bars[..|bars| - 1];
    StatArbRunsTruncate(p, before);
    StatArbStepTruncates(p, Reached(StatArbRun(p, Capped), STATARB_INITIAL, before),
                         Reached(StatArbRun(p, Unlimited), STATARB_INITIAL, before), bars[|bars| - 1]);
  }
}
