/**
 The backtest loop (internal/backtest/engine.go, lines 87-227) and its fill simulator
 (internal/execution/simulator.go): cash, signed position, marked equity, wins and losses.

 The strategy stack, the context and the random source are inputs: each bar carries what the stack answered
 (or that the context was done), and `draws(k)` is the k-th value drawn from [0, 1).
 */
module Backtest {
  import opened Types
  import opened RealMath
  import Drawdown
  import opened Tally

  datatype Outcome = ContextDone | StackFailed | Emitted(signals: seq<Signal>)

  datatype Input = Input(bar: Bar, outcome: Outcome)

  datatype Fill = Fill(side: Side, qty: real, price: real, fee: real) {
    /** What the fill costs against the close: the fee plus the adverse price move, per unit, times quantity. */
    function Friction(close: real): real {
      fee + qty * (if side == Buy then price - close else close - price)
    }
  }

  datatype Account = Account(cash: real, pos: real, trades: nat) {
    function Settle(f: Fill): Account {
      if f.side == Buy then Account(cash - (f.qty * f.price + f.fee), pos + f.qty, trades + 1)
      else Account(cash + (f.qty * f.price - f.fee), pos - f.qty, trades + 1)
    }
  }

  /**
   A run's starting equity, how it marks an account at a price, and its order rule: the fill a signal leads to,
   if any, given the account and the close. The loop is proved for every marking and rule; `SimpleConfig` has
   those of the source.
   */
  datatype Config = Config(initial: real, mark: (Account, real) -> real, fill: (Account, real, Signal) -> Option<Fill>)

  /** Cash plus position times price: the marking closure of the source. */
  ghost predicate MarksLinearly(c: Config) {
    forall a: Account, px: real :: c.mark(a, px) == a.cash + a.pos * px
  }

  function AfterSignal(c: Config, a: Account, close: real, s: Signal): Account {
    match c.fill(a, close, s)
    case None => a
    case Some(f) => a.Settle(f)
  }

  function AfterSignals(c: Config, a: Account, close: real, sigs: seq<Signal>, m: nat): Account
    requires m <= |sigs|
  {
    if m == 0 then a else AfterSignal(c, AfterSignals(c, a, close, sigs, m - 1), close, sigs[m - 1])
  }

  function FrictionOf(c: Config, a: Account, close: real, s: Signal): real {
    match c.fill(a, close, s)
    case None => 0.0
    case Some(f) => f.Friction(close)
  }

  function FrictionOfSignals(c: Config, a: Account, close: real, sigs: seq<Signal>, m: nat): real
    requires m <= |sigs|
  {
    if m == 0 then 0.0
    else
      FrictionOfSignals(c, a, close, sigs, m - 1)
      + FrictionOf(c, AfterSignals(c, a, close, sigs, m - 1), close, sigs[m - 1])
  }

  /** The number of bars the loop processes in full: all of them, or those before the first one that ends it. */
  function Processed(inputs: seq<Input>): (n: nat)
    ensures n <= |inputs|
    ensures forall i :: 0 <= i < n ==> inputs[i].outcome.Emitted?
    ensures n < |inputs| ==> !inputs[n].outcome.Emitted?
  {
    if inputs == [] || !inputs[0].outcome.Emitted? then 0 else 1 + Processed(inputs[1..])
  }

  ghost predicate AllEmitted(inputs: seq<Input>, n: nat) {
    n <= |inputs| && forall i :: 0 <= i < n ==> inputs[i].outcome.Emitted?
  }

  /** Cash, position and trade count after the first `n` bars. */
  function AccountAfter(c: Config, inputs: seq<Input>, n: nat): Account
    requires AllEmitted(inputs, n)
  {
    if n == 0 then Account(c.initial, 0.0, 0)
    else
      var x := inputs[n - 1];
      AfterSignals(c, AccountAfter(c, inputs, n - 1), x.bar.close, x.outcome.signals, |x.outcome.signals|)
  }

  /** Point `n` of the equity curve: the initial equity, then the account marked at each bar's close. */
  function Equity(c: Config, inputs: seq<Input>, n: nat): real
    requires AllEmitted(inputs, n)
  {
    if n == 0 then c.initial else c.mark(AccountAfter(c, inputs, n), inputs[n - 1].bar.close)
  }

  function EquityCurve(c: Config, inputs: seq<Input>, n: nat): (e: seq<real>)
    requires AllEmitted(inputs, n)
    ensures |e| == n + 1
  {
    seq(n + 1, i requires 0 <= i <= n => Equity(c, inputs, i))
  }

  /** Position carried into bar `i` times the change of close since the previous bar. */
  function HeldGain(c: Config, inputs: seq<Input>, i: nat): real
    requires i < |inputs| && AllEmitted(inputs, i)
  {
    if i == 0 then 0.0
    else AccountAfter(c, inputs, i).pos * (inputs[i].bar.close - inputs[i - 1].bar.close)
  }

  function HeldGains(c: Config, inputs: seq<Input>, n: nat): real
    requires n <= |inputs| && (n > 0 ==> AllEmitted(inputs, n - 1))
  {
    if n == 0 then 0.0 else HeldGains(c, inputs, n - 1) + HeldGain(c, inputs, n - 1)
  }

  function Frictions(c: Config, inputs: seq<Input>, n: nat): real
    requires AllEmitted(inputs, n)
  {
    if n == 0 then 0.0
    else
      var x := inputs[n - 1];
      Frictions(c, inputs, n - 1)
      + FrictionOfSignals(c, AccountAfter(c, inputs, n - 1), x.bar.close, x.outcome.signals, |x.outcome.signals|)
  }

  // ---------- the accounting identities ----------

  /** Every trade lowers marked equity by exactly its friction. */
  lemma TradeCostsItsFriction(c: Config, a: Account, f: Fill, close: real)
    requires MarksLinearly(c)
    ensures c.mark(a.Settle(f), close) == c.mark(a, close) - f.Friction(close)
  {
    var p, q := a.pos, f.qty;
    assert (p + q) * close == p * close + q * close;
    assert (p - q) * close == p * close - q * close;
    assert q * (f.price - close) == q * f.price - q * close;
    assert q * (close - f.price) == q * close - q * f.price;
  }

  lemma {:induction false} SignalsCostTheirFriction(c: Config, a: Account, close: real, sigs: seq<Signal>, m: nat)
    requires m <= |sigs| && MarksLinearly(c)
    ensures c.mark(AfterSignals(c, a, close, sigs, m), close)
            == c.mark(a, close) - FrictionOfSignals(c, a, close, sigs, m)
  {
    if m > 0 {
      SignalsCostTheirFriction(c, a, close, sigs, m - 1);
      var before := AfterSignals(c, a, close, sigs, m - 1);
      match c.fill(before, close, sigs[m - 1])
      case None =>
      case Some(f) => TradeCostsItsFriction(c, before, f, close);
    }
  }

  lemma MarkMoves(c: Config, a: Account, from: real, to: real)
    requires MarksLinearly(c)
    ensures c.mark(a, to) == c.mark(a, from) + a.pos * (to - from)
  {
  }

  /** The account carried into bar `n`, marked at that bar's close before any of its trades. */
  lemma {:induction false} MarkAtNextClose(c: Config, inputs: seq<Input>, n: nat)
    requires n < |inputs| && AllEmitted(inputs, n) && MarksLinearly(c)
    ensures c.mark(AccountAfter(c, inputs, n), inputs[n].bar.close)
         == c.initial + HeldGains(c, inputs, n + 1) - Frictions(c, inputs, n)
    decreases n, 1
  {
    PnLDecomposition(c, inputs, n);
    if n > 0 {
      var a, from, to := AccountAfter(c, inputs, n), inputs[n - 1].bar.close, inputs[n].bar.close;
      MarkMoves(c, a, from, to);
      GainOfNext(c, inputs, n, a, from, to);
    }
  }

  lemma GainOfNext(c: Config, inputs: seq<Input>, n: nat, a: Account, from: real, to: real)
    requires 0 < n < |inputs| && AllEmitted(inputs, n) && a == AccountAfter(c, inputs, n)
    requires from == inputs[n - 1].bar.close && to == inputs[n].bar.close
    ensures HeldGains(c, inputs, n + 1) == HeldGains(c, inputs, n) + a.pos * (to - from)
  {
  }

  /** Marked equity is the initial equity plus what the held positions gained, less what trading cost. */
  lemma {:induction false} PnLDecomposition(c: Config, inputs: seq<Input>, n: nat)
    requires AllEmitted(inputs, n) && MarksLinearly(c)
    ensures Equity(c, inputs, n) == c.initial + HeldGains(c, inputs, n) - Frictions(c, inputs, n)
    decreases n, 0
  {
    if n > 0 {
      var x := inputs[n - 1];
      MarkAtNextClose(c, inputs, n - 1);
      SignalsCostTheirFriction(c, AccountAfter(c, inputs, n - 1), x.bar.close, x.outcome.signals, |x.outcome.signals|);
    }
  }

  /** Whether bar `i` traded, and its change from the account marked at the open to the equity at the close. */
  function BarResultAt(c: Config, inputs: seq<Input>, i: nat): BarResult
    requires AllEmitted(inputs, i + 1)
  {
    BarResult(AccountAfter(c, inputs, i + 1).trades > AccountAfter(c, inputs, i).trades,
              Equity(c, inputs, i + 1) - c.mark(AccountAfter(c, inputs, i), inputs[i].bar.open))
  }

  function BarResults(c: Config, inputs: seq<Input>, n: nat): (rs: seq<BarResult>)
    requires AllEmitted(inputs, n)
    ensures |rs| == n
  {
    seq(n, i requires 0 <= i < n => BarResultAt(c, inputs, i))
  }

  /** What the loop hands to the result builder. */
  datatype Totals = Totals(equity: real, maxDD: real, trades: nat, wins: nat, losses: nat, grossWin: real,
                           grossLoss: real)

  datatype Result = Result(
    initialEquity: real,
    equityFinal: real,
    returnPct: real,
    maxDDPct: real,
    trades: nat,
    wins: nat,
    losses: nat,
    winRatePct: real,
    profitFactor: real,
    startTS: int,
    endTS: int
  )

  function BuildResult(initial: real, t: Totals, startTS: int, endTS: int): (r: Result)
    ensures initial > 0.0 ==> initial * (1.0 + r.returnPct / 100.0) == t.equity
    ensures r.winRatePct * (t.wins + t.losses) as real == 100.0 * t.wins as real
    ensures t.grossLoss > 1e-12 ==> r.profitFactor * t.grossLoss == t.grossWin
    ensures initial <= 0.0 ==> r.returnPct == 0.0
    ensures t.wins + t.losses == 0 ==> r.winRatePct == 0.0
    ensures t.grossLoss <= 1e-12 ==> r.profitFactor == if t.grossWin > 1e-12 then 999.99 else 0.0
  {
    Result(
      initial, t.equity,
      if initial > 0.0 then (t.equity - initial) / initial * 100.0 else 0.0,
      t.maxDD, t.trades, t.wins, t.losses,
      if t.wins + t.losses > 0 then t.wins as real / (t.wins + t.losses) as real * 100.0 else 0.0,
      if t.grossLoss > 1e-12 then t.grossWin / t.grossLoss else if t.grossWin > 1e-12 then 999.99 else 0.0,
      startTS, endTS)
  }

  function StartTS(inputs: seq<Input>): int {
    if inputs == [] then 0 else inputs[0].bar.timestamp
  }

  function EndTS(inputs: seq<Input>): int {
    if inputs == [] then 0 else inputs[|inputs| - 1].bar.timestamp
  }

  /** Bars whose close the final equity is marked at: a done context still marks at the bar it stops on. */
  function MarkedBars(inputs: seq<Input>): (n: nat)
    ensures Processed(inputs) <= n <= Processed(inputs) + 1 && n <= |inputs|
    ensures n > Processed(inputs) <==> Processed(inputs) < |inputs| && inputs[Processed(inputs)].outcome.ContextDone?
  {
    var k := Processed(inputs);
    if k < |inputs| && inputs[k].outcome.ContextDone? then k + 1 else k
  }

  /** Bar `i` of a run, in the terms the loop uses. */
  lemma BarStep(c: Config, inputs: seq<Input>, n: nat, i: nat, a: Account)
    requires i < n && AllEmitted(inputs, n)
    requires a == AfterSignals(c, AccountAfter(c, inputs, i), inputs[i].bar.close, inputs[i].outcome.signals,
                               |inputs[i].outcome.signals|)
    ensures a == AccountAfter(c, inputs, i + 1)
    ensures EquityCurve(c, inputs, n)[i + 1] == c.mark(a, inputs[i].bar.close)
    ensures BarResults(c, inputs, n)[i]
         == BarResult(a.trades > AccountAfter(c, inputs, i).trades,
                      c.mark(a, inputs[i].bar.close) - c.mark(AccountAfter(c, inputs, i), inputs[i].bar.open))
  {
  }

  /** The equity the loop ends with: the last marked point, or the open account marked where the context was done. */
  function FinalEquity(c: Config, inputs: seq<Input>): real {
    var k := Processed(inputs);
    if MarkedBars(inputs) > k then c.mark(AccountAfter(c, inputs, k), inputs[k].bar.close) else Equity(c, inputs, k)
  }

  /** The end of the loop's body: the running peak and the worst fall from it. */
  method TrackDrawdown(peak: real, maxDD: real, equity: real, ghost curve: seq<real>, ghost i: nat)
    returns (peak': real, maxDD': real)
    requires i + 1 < |curve| && equity == curve[i + 1]
    requires peak == Drawdown.Peak(curve, i) && maxDD == Drawdown.MaxDrawdown(curve, i)
    ensures peak' == Drawdown.Peak(curve, i + 1) && maxDD' == Drawdown.MaxDrawdown(curve, i + 1)
  {
    peak', maxDD' := peak, maxDD;
    if equity > peak' {
      peak' := equity;
    }
    if peak' > 0.0 {
      var dd := (peak' - equity) / peak' * 100.0;
      if dd > maxDD' {
        maxDD' := dd;
      }
    }
  }

  /** The loop over bars, for any order rule. */
  method RunBars(c: Config, inputs: seq<Input>) returns (t: Totals)
    ensures var k := Processed(inputs);
            var bars := BarResults(c, inputs, k);
            && t.equity == FinalEquity(c, inputs)
            && t.maxDD == Drawdown.MaxDrawdown(EquityCurve(c, inputs, k), k)
            && t.trades == AccountAfter(c, inputs, k).trades
            && t.wins == |WinningBars(bars, k)| && t.losses == |LosingBars(bars, k)|
            && t.grossWin == GrossWin(bars, k) && t.grossLoss == GrossLoss(bars, k)
  {
    var cash, pos := c.initial, 0.0;
    var trades, wins, losses := 0, 0, 0;
    var grossWin, grossLoss := 0.0, 0.0;
    var equity := c.initial;
    var peak, maxDD := equity, 0.0;
    ghost var last := Processed(inputs);
    ghost var curve, bars := EquityCurve(c, inputs, last), BarResults(c, inputs, last);
    var i := 0;
    while i < |inputs|
      invariant i <= last
      invariant Account(cash, pos, trades) == AccountAfter(c, inputs, i)
      invariant equity == curve[i]
      invariant peak == Drawdown.Peak(curve, i) && maxDD == Drawdown.MaxDrawdown(curve, i)
      invariant wins == |WinningBars(bars, i)| && losses == |LosingBars(bars, i)|
      invariant grossWin == GrossWin(bars, i) && grossLoss == GrossLoss(bars, i)
    {
      var close, open := inputs[i].bar.close, inputs[i].bar.open;
      if inputs[i].outcome.ContextDone? {
        return Totals(c.mark(Account(cash, pos, trades), close), maxDD, trades, wins, losses, grossWin, grossLoss);
      }
      var openMark := c.mark(Account(cash, pos, trades), open);
      if inputs[i].outcome.StackFailed? {
        break;
      }
      var traded;
      cash, pos, trades, traded := TradeSignals(c, cash, pos, trades, close, inputs[i].outcome.signals);
      BarStep(c, inputs, last, i, Account(cash, pos, trades));
      equity := c.mark(Account(cash, pos, trades), close);
      TalliesGrow(bars, i);
      if traded {
        var barDelta := equity - openMark;
        if barDelta > 1e-9 {
          wins := wins + 1;
          grossWin := grossWin + barDelta;
        } else if barDelta < -1e-9 {
          losses := losses + 1;
          grossLoss := grossLoss + -barDelta;
        }
      }
      peak, maxDD := TrackDrawdown(peak, maxDD, equity, curve, i);
      i := i + 1;
    }
    return Totals(equity, maxDD, trades, wins, losses, grossWin, grossLoss);
  }

  /** The inner loop over one bar's signals. */
  method TradeSignals(c: Config, cash0: real, pos0: real, trades0: nat, close: real, sigs: seq<Signal>)
    returns (cash: real, pos: real, trades: nat, traded: bool)
    ensures Account(cash, pos, trades) == AfterSignals(c, Account(cash0, pos0, trades0), close, sigs, |sigs|)
    ensures traded <==> trades > trades0
  {
    cash, pos, trades, traded := cash0, pos0, trades0, false;
    for m := 0 to |sigs|
      invariant Account(cash, pos, trades) == AfterSignals(c, Account(cash0, pos0, trades0), close, sigs, m)
      invariant trades >= trades0 && (traded <==> trades > trades0)
    {
      var fill := c.fill(Account(cash, pos, trades), close, sigs[m]);
      if fill.None? {
        continue;
      }
      var f := fill.value;
      if f.side == Buy {
        cash := cash - (f.qty * f.price + f.fee);
        pos := pos + f.qty;
      } else {
        cash := cash + (f.qty * f.price - f.fee);
        pos := pos - f.qty;
      }
      trades := trades + 1;
      traded := true;
    }
  }

  // ---------- the source's own order rule ----------

  datatype FillSim = FillSim(feeBps: real, slippageBps: real) {
    /** Executed price after side-dependent slippage, and the fee. */
    function Apply(mid: real, side: Side, qty: real, draw: real): (real, real) {
      var slip := slippageBps / 10000.0 * (1.0 + (draw - 0.5) * 0.5);
      var price := if side == Buy then mid * (1.0 + slip) else mid * (1.0 - slip);
      (price, Abs(qty * price) * (feeBps / 10000.0))
    }
  }

  function RiskFraction(riskPerTradePct: real): (f: real)
    ensures f > 0.0
  {
    (if riskPerTradePct <= 0.0 then 0.5 else riskPerTradePct) / 100.0
  }

  /** Base-unit quantity a signal asks for: a fraction of marked equity over the price, scaled by the signal. */
  function Delta(eqMark: real, riskFrac: real, close: real, s: Signal): real
    requires close > 0.0
  {
    eqMark * riskFrac / close * s.direction * s.confidence
  }

  /** The order a signal leads to, if any; the random source is advanced once per fill. */
  function SizedFill(sim: FillSim, riskPct: real, draws: nat -> real, a: Account, close: real,
                     s: Signal): Option<Fill>
  {
    match SizedQty(riskPct, Marked(a, close), close, s)
    case None => None
    case Some(dq) => Some(FillOf(sim, dq, close, draws(a.trades)))
  }

  function Marked(a: Account, px: real): real {
    a.cash + a.pos * px
  }

  /** The signed quantity to trade, if any. */
  function SizedQty(riskPct: real, eqMark: real, close: real, s: Signal): Option<real> {
    if s.confidence <= 0.0 || s.direction == 0.0 || eqMark <= 0.0 || close <= 0.0 then None
    else
      var dq := Delta(eqMark, RiskFraction(riskPct), close, s);
      if -1e-12 < dq < 1e-12 then None else Some(dq)
  }

  /** The fill of a signed quantity. */
  function FillOf(sim: FillSim, dq: real, close: real, draw: real): Fill {
    var side := if dq < 0.0 then Sell else Buy;
    var (px, fee) := sim.Apply(close, side, Abs(dq), draw);
    Fill(side, Abs(dq), px, fee)
  }

  function SimpleConfig(sim: FillSim, initial: real, riskPct: real, draws: nat -> real): (c: Config)
    ensures MarksLinearly(c)
  {
    Config(initial, Marked,
           (a, close, s) => SizedFill(sim, riskPct, draws, a, close, s))
  }

  /** The whole backtest: its final equity is what the decomposition says, its other figures are those of the loop. */
  method RunSimple(sim: FillSim, initial: real, riskPct: real, draws: nat -> real, inputs: seq<Input>)
    returns (r: Result)
    ensures var c, k := SimpleConfig(sim, initial, riskPct, draws), Processed(inputs);
            var bars := BarResults(c, inputs, k);
            && r.equityFinal == initial + HeldGains(c, inputs, MarkedBars(inputs)) - Frictions(c, inputs, k)
            && r.maxDDPct == Drawdown.MaxDrawdown(EquityCurve(c, inputs, k), k)
            && r.trades == AccountAfter(c, inputs, k).trades
            && r.wins == |WinningBars(bars, k)| && r.losses == |LosingBars(bars, k)|
            && r == BuildResult(initial, Totals(r.equityFinal, r.maxDDPct, r.trades, r.wins, r.losses,
                                                GrossWin(bars, k), GrossLoss(bars, k)),
                                StartTS(inputs), EndTS(inputs))
    ensures r.trades == TradesBy(SimpleConfig(sim, initial, riskPct, draws), TradeRule(riskPct), inputs,
                                 Processed(inputs))
    ensures r.initialEquity == initial
    ensures if inputs == [] then r.startTS == r.endTS == 0
            else r.startTS == inputs[0].bar.timestamp && r.endTS == inputs[|inputs| - 1].bar.timestamp
  {
    var c := SimpleConfig(sim, initial, riskPct, draws);
    var t := RunBars(c, inputs);
    FinalEquityDecomposes(c, inputs);
    TradesAreCounted(sim, initial, riskPct, draws, c, inputs, Processed(inputs));
    return BuildResult(initial, t, StartTS(inputs), EndTS(inputs));
  }

  /** Final equity is the initial equity plus what the held positions gained, less what trading cost. */
  lemma FinalEquityDecomposes(c: Config, inputs: seq<Input>)
    requires MarksLinearly(c)
    ensures FinalEquity(c, inputs)
         == c.initial + HeldGains(c, inputs, MarkedBars(inputs)) - Frictions(c, inputs, Processed(inputs))
  {
    var k := Processed(inputs);
    if MarkedBars(inputs) > k {
      MarkAtNextClose(c, inputs, k);
    } else {
      PnLDecomposition(c, inputs, k);
    }
  }

  lemma DeltaScales(eqMark: real, riskFrac: real, close: real, s: Signal, dq: real, k: real)
    requires eqMark > 0.0 && riskFrac > 0.0 && close > 0.0 && s.confidence > 0.0
    requires dq == Delta(eqMark, riskFrac, close, s) && k == eqMark * riskFrac * s.confidence
    ensures dq * close == k * s.direction
    ensures k > 0.0
  {
    var base := eqMark * riskFrac;
    ProductPositive(eqMark, riskFrac, base);
    ProductPositive(base, s.confidence, k);
    assert base / close * close == base;
  }

  lemma SameSign(dq: real, close: real, k: real, d: real)
    requires close > 0.0 && k > 0.0 && dq * close == k * d
    ensures dq < 0.0 <==> d < 0.0
    ensures Abs(dq) * close == k * Abs(d)
  {
    SignOfProduct(d, k, k * d);
    SignOfProduct(dq, close, dq * close);
  }

  /** The risk fraction of marked equity, scaled by a signal's confidence. */
  function Stake(riskPct: real, eqMark: real, s: Signal): real {
    eqMark * RiskFraction(riskPct) * s.confidence
  }

  function Notional(qty: real, px: real): real {
    qty * px
  }

  /**
   A fill's notional at the close is the risk fraction of marked equity, scaled by the signal, on the signal's side.
   */
  lemma FillSpendsRiskFraction(sim: FillSim, riskPct: real, draws: nat -> real, a: Account, close: real, s: Signal,
                               f: Fill, k: real)
    requires SizedFill(sim, riskPct, draws, a, close, s) == Some(f)
    requires k == Stake(riskPct, Marked(a, close), s)
    ensures Notional(f.qty, close) == k * Abs(s.direction)
    ensures f.side == Buy <==> s.direction > 0.0
  {
    QtySpendsRiskFraction(riskPct, Marked(a, close), close, s, k);
  }

  lemma QtySpendsRiskFraction(riskPct: real, eqMark: real, close: real, s: Signal, k: real)
    requires SizedQty(riskPct, eqMark, close, s).Some? && k == Stake(riskPct, eqMark, s)
    ensures var dq := SizedQty(riskPct, eqMark, close, s).value;
            Notional(Abs(dq), close) == k * Abs(s.direction) && (dq >= 0.0 <==> s.direction > 0.0)
  {
    var dq := SizedQty(riskPct, eqMark, close, s).value;
    DeltaScales(eqMark, RiskFraction(riskPct), close, s, dq, k);
    SameSign(dq, close, k, s.direction);
  }

  /**
   A fill the loop makes has positive quantity and is marked at a positive close, so its friction is the fee plus
   quantity times the distance from the close exactly when slippage is not negative.
   */
  lemma FrictionIsFeePlusDistance(sim: FillSim, riskPct: real, draws: nat -> real, a: Account, close: real, s: Signal)
    requires SizedFill(sim, riskPct, draws, a, close, s).Some?
    requires 0.0 <= draws(a.trades) < 1.0
    ensures var f := SizedFill(sim, riskPct, draws, a, close, s).value;
            f.Friction(close) == f.fee + f.qty * Abs(f.price - close) <==> sim.slippageBps >= 0.0
  {
    var f, u := SizedFill(sim, riskPct, draws, a, close, s).value, draws(a.trades);
    var jitter := 1.0 + (u - 0.5) * 0.5;
    var slip := sim.slippageBps / 10000.0 * jitter;
    var adverse := if f.side == Buy then f.price - close else close - f.price;
    assert adverse == close * slip;
    SignOfProduct(sim.slippageBps / 10000.0, jitter, slip);
    SignOfProduct(slip, close, adverse);
    assert Abs(f.price - close) == Abs(adverse);
    if adverse < 0.0 {
      ProductPositive(f.qty, -adverse, f.qty * -adverse);
      assert f.qty * Abs(adverse) > 0.0 > f.qty * adverse;
    }
  }

  // ---------- which signals trade, and on what terms ----------

  /** The risk percentage in force: half a percent when none is set. */
  function RiskPct(riskPct: real): (pct: real)
    ensures pct == if riskPct > 0.0 then riskPct else 0.5
  {
    if riskPct > 0.0 then riskPct else 0.5
  }

  /**
   A signal trades: it has a direction and a positive confidence, close and marked equity are positive, and what it
   stakes buys at least 1e-12 units.
   */
  predicate Trades(riskPct: real, eqMark: real, close: real, s: Signal) {
    && s.confidence > 0.0 && s.direction != 0.0 && close > 0.0 && eqMark > 0.0
    && eqMark * RiskPct(riskPct) * s.confidence * Abs(s.direction) >= 1e-10 * close
  }

  lemma StakeInTerms(riskPct: real, eqMark: real, s: Signal)
    ensures 100.0 * Stake(riskPct, eqMark, s) == eqMark * RiskPct(riskPct) * s.confidence
  {
    var f, pct := RiskFraction(riskPct), RiskPct(riskPct);
    assert 100.0 * f == pct;
    assert 100.0 * (eqMark * f * s.confidence) == eqMark * (100.0 * f) * s.confidence;
  }

  lemma LargeEnoughIff(q: real, close: real, stake: real, d: real, staked: real)
    requires close > 0.0 && d >= 0.0 && q * close == stake * d && staked == 100.0 * stake
    ensures q >= 1e-12 <==> staked * d >= 1e-10 * close
  {
    var gap := (q - 1e-12) * close;
    SignOfProduct(q - 1e-12, close, gap);
    assert gap == stake * d - 1e-12 * close;
    assert staked * d == 100.0 * (stake * d);
  }

  lemma QtyExactlyWhen(riskPct: real, eqMark: real, close: real, s: Signal)
    ensures SizedQty(riskPct, eqMark, close, s).Some? <==> Trades(riskPct, eqMark, close, s)
  {
    if s.confidence > 0.0 && s.direction != 0.0 && eqMark > 0.0 && close > 0.0 {
      var dq, k := Delta(eqMark, RiskFraction(riskPct), close, s), Stake(riskPct, eqMark, s);
      var staked := eqMark * RiskPct(riskPct) * s.confidence;
      DeltaScales(eqMark, RiskFraction(riskPct), close, s, dq, k);
      SameSign(dq, close, k, s.direction);
      StakeInTerms(riskPct, eqMark, s);
      LargeEnoughIff(Abs(dq), close, k, Abs(s.direction), staked);
    }
  }

  /** A fill is made exactly for the signals that trade. */
  lemma FillsExactlyWhen(sim: FillSim, riskPct: real, draws: nat -> real, a: Account, close: real, s: Signal)
    ensures SizedFill(sim, riskPct, draws, a, close, s).Some? <==> Trades(riskPct, a.cash + a.pos * close, close, s)
  {
    QtyExactlyWhen(riskPct, Marked(a, close), close, s);
    assert Marked(a, close) == a.cash + a.pos * close;
  }

  /**
   The terms of a fill: its notional at the close is the risk percentage of marked equity scaled by the signal; its
   price is worse than the close by three to five quarters of the slippage, as drawn; its fee is charged on its value.
   */
  lemma FillInTerms(sim: FillSim, riskPct: real, draws: nat -> real, a: Account, close: real, s: Signal, f: Fill,
                    eqMark: real)
    requires SizedFill(sim, riskPct, draws, a, close, s) == Some(f) && eqMark == Marked(a, close)
    ensures f.side == if s.direction > 0.0 then Buy else Sell
    ensures 100.0 * Notional(f.qty, close) == eqMark * RiskPct(riskPct) * s.confidence * Abs(s.direction)
    ensures f.qty > 0.0 && FillTerms(sim, f, close, draws(a.trades))
  {
    var k := Stake(riskPct, eqMark, s);
    FillSpendsRiskFraction(sim, riskPct, draws, a, close, s, f, k);
    StakeInTerms(riskPct, eqMark, s);
    TimesHundred(Notional(f.qty, close), k, Abs(s.direction), eqMark * RiskPct(riskPct) * s.confidence);
    var dq := SizedQty(riskPct, eqMark, close, s).value;
    ApplyInTerms(sim, dq, close, draws(a.trades), f);
  }

  lemma TimesHundred(x: real, k: real, d: real, staked: real)
    requires x == k * d && 100.0 * k == staked
    ensures 100.0 * x == staked * d
  {
  }

  /** What executing a fill costs: in price, and in fee. */
  predicate FillTerms(sim: FillSim, f: Fill, close: real, draw: real) {
    && 40000.0 * (if f.side == Buy then f.price - close else close - f.price)
        == close * sim.slippageBps * (3.0 + 2.0 * draw)
    && 10000.0 * f.fee == Abs(f.qty * f.price) * sim.feeBps
  }

  lemma ApplyInTerms(sim: FillSim, dq: real, close: real, draw: real, f: Fill)
    requires f == FillOf(sim, dq, close, draw) && dq != 0.0
    ensures f.qty > 0.0 && FillTerms(sim, f, close, draw)
  {
    var slip := sim.slippageBps / 10000.0 * (1.0 + (draw - 0.5) * 0.5);
    SlipInTerms(close, sim.slippageBps, draw, slip);
    var value := Abs(f.qty * f.price);
    FeeInTerms(value, sim.feeBps);
  }

  lemma SlipInTerms(close: real, bps: real, draw: real, slip: real)
    requires slip == bps / 10000.0 * (1.0 + (draw - 0.5) * 0.5)
    ensures 40000.0 * (close * (1.0 + slip) - close) == close * bps * (3.0 + 2.0 * draw)
    ensures 40000.0 * (close - close * (1.0 - slip)) == close * bps * (3.0 + 2.0 * draw)
  {
    assert 40000.0 * slip == bps * (3.0 + 2.0 * draw);
    assert close * (40000.0 * slip) == close * bps * (3.0 + 2.0 * draw);
  }

  lemma FeeInTerms(value: real, bps: real)
    ensures 10000.0 * (value * (bps / 10000.0)) == value * bps
  {
  }

  function TradeRule(riskPct: real): (Account, real, Signal) -> bool {
    (a: Account, close: real, s: Signal) => Trades(riskPct, Marked(a, close), close, s)
  }

  /** How many of a bar's first `m` signals trade, by some rule. */
  function TradesIn(c: Config, rule: (Account, real, Signal) -> bool, a: Account, close: real, sigs: seq<Signal>,
                    m: nat): nat
    requires m <= |sigs|
  {
    if m == 0 then 0
    else
      TradesIn(c, rule, a, close, sigs, m - 1)
      + if rule(AfterSignals(c, a, close, sigs, m - 1), close, sigs[m - 1]) then 1 else 0
  }

  /** How many signals trade over a run's first `n` bars. */
  function TradesBy(c: Config, rule: (Account, real, Signal) -> bool, inputs: seq<Input>, n: nat): nat
    requires AllEmitted(inputs, n)
  {
    if n == 0 then 0
    else
      var x := inputs[n - 1];
      TradesBy(c, rule, inputs, n - 1)
      + TradesIn(c, rule, AccountAfter(c, inputs, n - 1), x.bar.close, x.outcome.signals, |x.outcome.signals|)
  }

  /** The order rule makes a fill exactly for the signals that trade. */
  ghost predicate FillsTraders(c: Config, rule: (Account, real, Signal) -> bool) {
    forall a: Account, close: real, s: Signal :: c.fill(a, close, s).Some? <==> rule(a, close, s)
  }

  lemma {:induction false} TradesInBar(c: Config, rule: (Account, real, Signal) -> bool, a: Account, close: real,
                                       sigs: seq<Signal>, m: nat)
    requires m <= |sigs| && FillsTraders(c, rule)
    ensures AfterSignals(c, a, close, sigs, m).trades == a.trades + TradesIn(c, rule, a, close, sigs, m)
  {
    if m > 0 {
      TradesInBar(c, rule, a, close, sigs, m - 1);
    }
  }

  lemma {:induction false} TradesInRun(c: Config, rule: (Account, real, Signal) -> bool, inputs: seq<Input>, n: nat)
    requires AllEmitted(inputs, n) && FillsTraders(c, rule)
    ensures AccountAfter(c, inputs, n).trades == TradesBy(c, rule, inputs, n)
  {
    if n > 0 {
      TradesInRun(c, rule, inputs, n - 1);
      var x := inputs[n - 1];
      TradesInBar(c, rule, AccountAfter(c, inputs, n - 1), x.bar.close, x.outcome.signals, |x.outcome.signals|);
    }
  }

  lemma SimpleFillsTraders(sim: FillSim, initial: real, riskPct: real, draws: nat -> real)
    ensures FillsTraders(SimpleConfig(sim, initial, riskPct, draws), TradeRule(riskPct))
  {
    forall a: Account, close: real, s: Signal
      ensures SimpleConfig(sim, initial, riskPct, draws).fill(a, close, s).Some? <==> TradeRule(riskPct)(a, close, s)
    {
      QtyExactlyWhen(riskPct, Marked(a, close), close, s);
    }
  }

  /** A run's trade count is the number of its signals that trade. */
  lemma TradesAreCounted(sim: FillSim, initial: real, riskPct: real, draws: nat -> real, c: Config, inputs: seq<Input>,
                         n: nat)
    requires AllEmitted(inputs, n) && c == SimpleConfig(sim, initial, riskPct, draws)
    ensures AccountAfter(c, inputs, n).trades == TradesBy(c, TradeRule(riskPct), inputs, n)
  {
    SimpleFillsTraders(sim, initial, riskPct, draws);
    TradesInRun(c, TradeRule(riskPct), inputs, n);
  }

  lemma BarDeltaShape(c: Config, inputs: seq<Input>, i: nat, a: Account)
    requires AllEmitted(inputs, i + 1) && a == AccountAfter(c, inputs, i)
    ensures var bar, sigs := inputs[i].bar, inputs[i].outcome.signals;
            BarResultAt(c, inputs, i).delta
            == c.mark(AfterSignals(c, a, bar.close, sigs, |sigs|), bar.close) - c.mark(a, bar.open)
  {
  }

  /** What a bar's marked equity did from its open to its close: the held position's move, less the bar's frictions. */
  lemma BarDeltaDecomposes(c: Config, inputs: seq<Input>, i: nat, a: Account, close: real, open: real,
                           sigs: seq<Signal>)
    requires AllEmitted(inputs, i + 1) && MarksLinearly(c) && a == AccountAfter(c, inputs, i)
    requires close == inputs[i].bar.close && open == inputs[i].bar.open && sigs == inputs[i].outcome.signals
    ensures BarResultAt(c, inputs, i).delta == a.pos * (close - open) - FrictionOfSignals(c, a, close, sigs, |sigs|)
  {
    BarDeltaShape(c, inputs, i, a);
    SignalsCostTheirFriction(c, a, close, sigs, |sigs|);
    MarkMoves(c, a, open, close);
  }

  // ---------- a run on which the drawdown is not the largest fall ----------

  /** Three bars at half a percent of risk: one unit in two hundred sold short at 100, down to 50 and up to 40000. */
  ghost predicate ShortRun(riskPct: real, inputs: seq<Input>, s: Signal) {
    && riskPct == 0.5 && |inputs| == 3
    && s.direction == -1.0 && s.confidence == 1.0
    && inputs[0].bar.close == 100.0 && inputs[0].outcome == Emitted([s])
    && inputs[1].bar.close == 50.0 && inputs[1].outcome == Emitted([])
    && inputs[2].bar.close == 40000.0 && inputs[2].outcome == Emitted([])
  }

  /** What the run leaves, whatever its order rule, when that fills the one signal at 100. */
  lemma ShortAccount(riskPct: real, inputs: seq<Input>, s: Signal, c: Config)
    requires ShortRun(riskPct, inputs, s) && c.initial == 100.0
    requires c.fill(Account(100.0, 0.0, 0), 100.0, s) == Some(Fill(Sell, 0.005, 100.0, 0.0))
    ensures AllEmitted(inputs, 3)
    ensures AccountAfter(c, inputs, 1) == Account(100.5, -0.005, 1)
    ensures AccountAfter(c, inputs, 2) == AccountAfter(c, inputs, 3) == Account(100.5, -0.005, 1)
  {
    var a0 := Account(100.0, 0.0, 0);
    assert AfterSignals(c, a0, 100.0, [s], 1) == AfterSignal(c, AfterSignals(c, a0, 100.0, [s], 0), 100.0, s);
    assert AccountAfter(c, inputs, 0) == a0;
  }

  lemma ShortCurve(inputs: seq<Input>, c: Config)
    requires AllEmitted(inputs, 3) && MarksLinearly(c) && c.initial == 100.0
    requires inputs[0].bar.close == 100.0 && inputs[1].bar.close == 50.0 && inputs[2].bar.close == 40000.0
    requires AccountAfter(c, inputs, 1) == Account(100.5, -0.005, 1)
    requires AccountAfter(c, inputs, 2) == AccountAfter(c, inputs, 3) == Account(100.5, -0.005, 1)
    ensures EquityCurve(c, inputs, 3) == [100.0, 100.0, 100.25, -99.5]
  {
  }

  lemma ShortFill(riskPct: real, draws: nat -> real, a: Account, s: Signal)
    requires riskPct == 0.5 && s.direction == -1.0 && s.confidence == 1.0 && a == Account(100.0, 0.0, 0)
    ensures SizedFill(FillSim(0.0, 0.0), riskPct, draws, a, 100.0, s) == Some(Fill(Sell, 0.005, 100.0, 0.0))
  {
    assert Marked(a, 100.0) == 100.0;
    ShortQty(riskPct, s);
    SaleWithoutCosts(0.005, 100.0, draws(0));
  }

  lemma ShortQty(riskPct: real, s: Signal)
    requires riskPct == 0.5 && s.direction == -1.0 && s.confidence == 1.0
    ensures SizedQty(riskPct, 100.0, 100.0, s) == Some(-0.005)
  {
  }

  lemma SaleWithoutCosts(qty: real, close: real, draw: real)
    requires qty > 0.0
    ensures FillOf(FillSim(0.0, 0.0), -qty, close, draw) == Fill(Sell, qty, close, 0.0)
  {
  }

  /** Its equity goes 100, 100, 100.25, -99.5: from the start it falls by 199.5%, and the run reports less. */
  lemma ShortRunBreaksBruteForce(riskPct: real, draws: nat -> real, inputs: seq<Input>, s: Signal, c: Config)
    requires ShortRun(riskPct, inputs, s) && c == SimpleConfig(FillSim(0.0, 0.0), 100.0, riskPct, draws)
    ensures Processed(inputs) == 3 && EquityCurve(c, inputs, 3) == [100.0, 100.0, 100.25, -99.5]
    ensures Drawdown.FallPct(EquityCurve(c, inputs, 3)[0], EquityCurve(c, inputs, 3)[3]) == 199.5
    ensures Drawdown.MaxDrawdown(EquityCurve(c, inputs, 3), 3) < 199.5
    ensures !Drawdown.IsLargestFall(EquityCurve(c, inputs, 3), 3, Drawdown.MaxDrawdown(EquityCurve(c, inputs, 3), 3))
  {
    ShortFill(riskPct, draws, Account(100.0, 0.0, 0), s);
    ShortRunOf(riskPct, inputs, s, c);
  }

  /** The same for any configuration that marks linearly and fills the one signal at 100. */
  lemma ShortRunOf(riskPct: real, inputs: seq<Input>, s: Signal, c: Config)
    requires ShortRun(riskPct, inputs, s) && c.initial == 100.0 && MarksLinearly(c)
    requires c.fill(Account(100.0, 0.0, 0), 100.0, s) == Some(Fill(Sell, 0.005, 100.0, 0.0))
    ensures Processed(inputs) == 3 && EquityCurve(c, inputs, 3) == [100.0, 100.0, 100.25, -99.5]
    ensures Drawdown.FallPct(EquityCurve(c, inputs, 3)[0], EquityCurve(c, inputs, 3)[3]) == 199.5
    ensures Drawdown.MaxDrawdown(EquityCurve(c, inputs, 3), 3) < 199.5
    ensures !Drawdown.IsLargestFall(EquityCurve(c, inputs, 3), 3, Drawdown.MaxDrawdown(EquityCurve(c, inputs, 3), 3))
  {
    ShortAccount(riskPct, inputs, s, c);
    ShortCurve(inputs, c);
    ShortFalls(EquityCurve(c, inputs, 3));
    assert Processed(inputs[1..][1..]) == 1 && Processed(inputs[1..]) == 2;
  }

  lemma ShortFalls(e: seq<real>)
    requires e == [100.0, 100.0, 100.25, -99.5]
    ensures Drawdown.FallPct(e[0], e[3]) == 199.5 && Drawdown.MaxDrawdown(e, 3) < 199.5
    ensures !Drawdown.IsLargestFall(e, 3, Drawdown.MaxDrawdown(e, 3))
  {
    Drawdown.DrawdownAtFirstNegative(e, 3);
    Drawdown.FirstNegativePoint(e, 3);
    assert Drawdown.Peak(e, 0) == 100.0 && Drawdown.Peak(e, 1) == 100.0 && Drawdown.Peak(e, 2) == 100.25;
  }
}
