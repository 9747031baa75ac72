/**
 The rolling-beta pair strategy (internal/strategy/delta_neutral.go): two histories, the second fed from the first.
 */
module DeltaNeutralPair {
  import opened Types
  import opened RealMath
  import opened Instruments
  import opened Series
  import opened Buffers
  import opened PairStrategies

  datatype Params = Params(
    id: string,
    leg1: Instrument,
    leg2: Instrument,
    betaWindow: nat,
    lookback: nat,
    zEntry: real,
    sqrt: real -> real
  ) {
    /** What the constructor establishes, whatever it is given. */
    predicate Valid() {
      betaWindow >= 5 && lookback >= 5 && zEntry > 0.0
    }

    function MaxPairs(): nat {
      betaWindow + lookback + 120
    }

    function MaxSpreads(): nat {
      lookback + 80
    }

    predicate HasLegs() {
      leg1.symbol != "" && leg2.symbol != ""
    }
  }

  datatype State = State(lastPx: map<string, real>, pairs: seq<(real, real)>, spreadHist: seq<real>)

  const INITIAL := State(map[], [], [])

  function Firsts(win: seq<(real, real)>): (x: seq<real>)
    ensures |x| == |win|
  {
    seq(|win|, i requires 0 <= i < |win| => win[i].0)
  }

  function Seconds(win: seq<(real, real)>): (y: seq<real>)
    ensures |y| == |win|
  {
    seq(|win|, i requires 0 <= i < |win| => win[i].1)
  }

  /** The hedge ratio of a window of price pairs, when there is a usable one. */
  function Beta(win: seq<(real, real)>): Option<real> {
    var x, y := Firsts(win), Seconds(win);
    if !SlopeDefined(x, y) || Abs(Slope(x, y)) < 1e-9 then None else Some(Slope(x, y))
  }

  function Residual(p1: real, beta: real, p2: real): real {
    p1 - beta * p2
  }

  /** What a residual history emits. */
  function Signals(p: Params, spreads: seq<real>, beta: real, ts: int): seq<Signal>
    requires p.Valid()
  {
    if |spreads| < p.lookback then []
    else
      match Revert(LastOf(spreads, p.lookback), p.zEntry, 0.4, 0.2, p.sqrt)
      case None => []
      case Some(r) =>
        PairSignals(p.id, p.leg1, p.leg2, r.dir, -r.dir * CopySign(beta), r.conf, "delta_neutral_beta_spread_revert",
                    ts)
  }

  function Step(p: Params, m: Memory, st: State, b: Bar): (State, seq<Signal>)
    requires p.Valid()
  {
    if !p.HasLegs() || b.close <= 0.0 then (st, [])
    else
      var lastPx := st.lastPx[InstKey(b.instrument) := b.close];
      match PairPrices(p.leg1, p.leg2, lastPx, b)
      case None => (st.(lastPx := lastPx), [])
      case Some((p1, p2)) =>
        Regress(p, m, State(lastPx, Push(m, st.pairs, (p1, p2), p.MaxPairs()), st.spreadHist), p1, p2, b.timestamp)
  }

  /** The part of a step after the price pair is recorded. */
  function Regress(p: Params, m: Memory, st: State, p1: real, p2: real, ts: int): (State, seq<Signal>)
    requires p.Valid()
  {
    if |st.pairs| < p.betaWindow then (st, [])
    else
      match Beta(LastOf(st.pairs, p.betaWindow))
      case None => (st, [])
      case Some(beta) =>
        var spreads := Push(m, st.spreadHist, Residual(p1, beta, p2), p.MaxSpreads());
        (st.(spreadHist := spreads), Signals(p, spreads, beta, ts))
  }

  class DeltaNeutral {
    const p: Params
    var lastPx: map<string, real>
    var pairs: seq<(real, real)>
    var spreadHist: seq<real>

    constructor (p: Params)
      ensures this.p == p && State(lastPx, pairs, spreadHist) == INITIAL
    {
      this.p := p;
      lastPx, pairs, spreadHist := map[], [], [];
    }

    method OnBar(b: Bar) returns (sigs: seq<Signal>)
      requires p.Valid()
      modifies this
      ensures (State(lastPx, pairs, spreadHist), sigs) == Step(p, Capped, old(State(lastPx, pairs, spreadHist)), b)
    {
      if p.leg1.symbol == "" || p.leg2.symbol == "" {
        return [];
      }
      if b.close <= 0.0 {
        return [];
      }
      var k := InstKey(b.instrument);
      lastPx := lastPx[k := b.close];
      var k1, k2 := InstKey(p.leg1), InstKey(p.leg2);
      var p1, p2, have := 0.0, 0.0, false;
      if k == k1 {
        p1 := b.close;
        p2 := if k2 in lastPx then lastPx[k2] else 0.0;
        have := p2 > 0.0;
      } else if k == k2 {
        p2 := b.close;
        p1 := if k1 in lastPx then lastPx[k1] else 0.0;
        have := p1 > 0.0;
      } else {
        return [];
      }
      if !have {
        return [];
      }
      pairs := PushCap(pairs, (p1, p2), p.MaxPairs());
      sigs := OnPair(p1, p2, b.timestamp);
    }

    /** The rest of the bar, once its price pair is recorded. */
    method OnPair(p1: real, p2: real, ts: int) returns (sigs: seq<Signal>)
      requires p.Valid()
      modifies this
      ensures (State(lastPx, pairs, spreadHist), sigs)
              == Regress(p, Capped, old(State(lastPx, pairs, spreadHist)), p1, p2, ts)
    {
      if |pairs| < p.betaWindow {
        return [];
      }
      var win := pairs[|pairs| - p.betaWindow..];
      assert win == LastOf(pairs, p.betaWindow);
      var beta := WindowBeta(win);
      if beta.None? {
        return [];
      }
      spreadHist := PushCap(spreadHist, Residual(p1, beta.value, p2), p.MaxSpreads());
      if |spreadHist| < p.lookback {
        return [];
      }
      var hist := spreadHist[|spreadHist| - p.lookback..];
      assert hist == LastOf(spreadHist, p.lookback);
      var r := ZScore(hist, p.zEntry, 0.4, 0.2, p.sqrt);
      if r.None? {
        return [];
      }
      return PairSignals(p.id, p.leg1, p.leg2, r.value.dir, -r.value.dir * CopySign(beta.value), r.value.conf,
                         "delta_neutral_beta_spread_revert", ts);
    }
  }

  /** Splits the window into its two columns and fits the first on the second. */
  method WindowBeta(win: seq<(real, real)>) returns (r: Option<real>)
    ensures r == Beta(win)
  {
    var x, y := new real[|win|], new real[|win|];
    for i := 0 to |win|
      invariant forall k :: 0 <= k < i ==> x[k] == win[k].0 && y[k] == win[k].1
    {
      x[i] := win[i].0;
      y[i] := win[i].1;
    }
    assert x[..] == Firsts(win) && y[..] == Seconds(win);
    var beta, ok := OlsSlopeXY(x[..], y[..]);
    if !ok || Abs(beta) < 1e-9 {
      return None;
    }
    return Some(beta);
  }

  /** The capped strategy's state is the unlimited one's with both histories truncated. */
  ghost predicate Truncates(p: Params, capped: State, whole: State) {
    capped == State(whole.lastPx, LastOf(whole.pairs, p.MaxPairs()), LastOf(whole.spreadHist, p.MaxSpreads()))
  }

  lemma SpreadsTruncate(p: Params, whole: seq<real>, v: real, beta: real, ts: int)
    requires p.Valid()
    ensures Push(Capped, LastOf(whole, p.MaxSpreads()), v, p.MaxSpreads())
            == LastOf(Push(Unlimited, whole, v, p.MaxSpreads()), p.MaxSpreads())
    ensures Signals(p, Push(Capped, LastOf(whole, p.MaxSpreads()), v, p.MaxSpreads()), beta, ts)
         == Signals(p, Push(Unlimited, whole, v, p.MaxSpreads()), beta, ts)
  {
    LastOfLast(whole, v, p.MaxSpreads());
    WindowOfLast(whole + [v], p.MaxSpreads(), p.lookback);
  }

  lemma RegressTruncates(p: Params, capped: State, whole: State, p1: real, p2: real, ts: int)
    requires p.Valid() && Truncates(p, capped, whole)
    ensures Truncates(p, Regress(p, Capped, capped, p1, p2, ts).0, Regress(p, Unlimited, whole, p1, p2, ts).0)
    ensures Regress(p, Capped, capped, p1, p2, ts).1 == Regress(p, Unlimited, whole, p1, p2, ts).1
  {
    WindowOfLast(whole.pairs, p.MaxPairs(), p.betaWindow);
    match Beta(LastOf(whole.pairs, p.betaWindow))
    case None =>
    case Some(beta) =>
      SpreadsTruncate(p, whole.spreadHist, Residual(p1, beta, p2), beta, ts);
  }

  lemma StepTruncates(p: Params, capped: State, whole: State, b: Bar)
    requires p.Valid() && Truncates(p, capped, whole)
    ensures Truncates(p, Step(p, Capped, capped, b).0, Step(p, Unlimited, whole, b).0)
    ensures Step(p, Capped, capped, b).1 == Step(p, Unlimited, whole, b).1
  {
    if p.HasLegs() && b.close > 0.0 {
      var lastPx := whole.lastPx[InstKey(b.instrument) := b.close];
      match PairPrices(p.leg1, p.leg2, lastPx, b)
      case None =>
      case Some((p1, p2)) =>
        LastOfLast(whole.pairs, (p1, p2), p.MaxPairs());
        RegressTruncates(p, State(lastPx, LastOf(capped.pairs + [(p1, p2)], p.MaxPairs()), capped.spreadHist),
                         State(lastPx, whole.pairs + [(p1, p2)], whole.spreadHist), p1, p2, b.timestamp);
    }
  }

  function Run(p: Params, m: Memory): (State, Bar) -> (State, seq<Signal>)
    requires p.Valid()
  {
    (st, b) requires p.Valid() => Step(p, m, st, b)
  }

  lemma {:induction false} RunsTruncate(p: Params, bars: seq<Bar>)
    requires p.Valid()
    ensures Truncates(p, Reached(Run(p, Capped), INITIAL, bars), Reached(Run(p, Unlimited), INITIAL, bars))
  {
    if bars != [] {
      var before := bars[..|bars| - 1];
      RunsTruncate(p, before);
      StepTruncates(p, Reached(Run(p, Capped), INITIAL, before), Reached(Run(p, Unlimited), INITIAL, before),
                    bars[|bars| - 1]);
    }
  }

  /** On every bar sequence the capped strategy emits exactly what one that never truncates would. */
  lemma RefinesUnlimited(p: Params, bars: seq<Bar>)
    requires p.Valid() && bars != []
    ensures Emitted(Run(p, Capped), INITIAL, bars) == Emitted(Run(p, Unlimited), INITIAL, bars)
  {
    var before := bars[..|bars| - 1];
    RunsTruncate(p, before);
    StepTruncates(p, Reached(Run(p, Capped), INITIAL, before), Reached(Run(p, Unlimited), INITIAL, before),
                  bars[|bars| - 1]);
  }

  /** Both legs trade, and when the hedge ratio is positive they trade in opposite directions. */
  lemma LegsOppose(p: Params, spreads: seq<real>, beta: real, ts: int)
    requires p.Valid() && Signals(p, spreads, beta, ts) != []
    ensures var s := Signals(p, spreads, beta, ts);
            && |s| == 2 && s[0].instrument == p.leg1 && s[1].instrument == p.leg2
            && s[0].direction != 0.0
            && (s[1].direction == -s[0].direction <==> beta >= 0.0)
            && s[0].confidence == s[1].confidence <= 0.6
  {
    var r := Revert(LastOf(spreads, p.lookback), p.zEntry, 0.4, 0.2, p.sqrt).value;
    assert r.conf <= 0.6;
  }
}
