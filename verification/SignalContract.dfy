/**
 What the strategies promise the sizing loop: no signal's direction or confidence exceeds one, whatever state they are
 in and whatever bar arrives. That is enough for the per-tick risk budget. The ten kinds are those of
 internal/strategy/factory.go, lines 28-49.
 */
module SignalContract {
  import opened Types
  import opened RealMath
  import opened RiskGate
  import opened Sizing
  import Tick
  import EMACross
  import VolatilityExpansion
  import PairStrategies
  import DeltaNeutralPair
  import OptionsGammaRank
  import OtherStrategies

  ghost predicate AllWithinUnit(sigs: seq<Signal>) {
    forall s :: s in sigs ==> WithinUnit(s)
  }

  /** A bar's signals from one of the strategies, in some state. */
  datatype Origin =
    | Cross(p: EMACross.Params, w: EMACross.Session, st: EMACross.BarState, b: Bar)
    | Expansion(v: VolatilityExpansion.Params, vs: VolatilityExpansion.VolState, b: Bar)
    | LogSpread(a: PairStrategies.StatArbParams, ls: PairStrategies.StatArbState, b: Bar)
    | BetaSpread(d: DeltaNeutralPair.Params, ds: DeltaNeutralPair.State, b: Bar)
    | RankFade(o: OptionsGammaRank.Params, buf: seq<real>, b: Bar)
    | Momentum(id: string, universe: seq<Instrument>, b: Bar)
    | MeanReversion(id: string, universe: seq<Instrument>, b: Bar)
    | Breakout(id: string, universe: seq<Instrument>, b: Bar)
    | MetaScore(id: string, universe: seq<Instrument>, score: Option<real>, b: Bar)
    | SessionEnd(id: string, universe: seq<Instrument>, due: bool, b: Bar)
  {
    predicate Valid() {
      match this
      case Cross(p, _, _, _) => p.Valid()
      case LogSpread(a, _, _) => a.Valid()
      case BetaSpread(d, _, _) => d.Valid()
      case RankFade(o, _, _) => o.Valid()
      case _ => true
    }

    function Emitted(): seq<Signal>
      requires Valid()
    {
      match this
      case Cross(p, w, st, b) => EMACross.Step(p, w, st, b).1
      case Expansion(v, vs, b) => VolatilityExpansion.Step(v, vs, b).1
      case LogSpread(a, s, b) => PairStrategies.StatArbStep(a, PairStrategies.Capped, s, b).1
      case BetaSpread(d, ds, b) => DeltaNeutralPair.Step(d, PairStrategies.Capped, ds, b).1
      case RankFade(o, buf, b) => OptionsGammaRank.Step(o, PairStrategies.Capped, buf, b).1
      case Momentum(id, universe, b) => OtherStrategies.Momentum(id, universe, b)
      case MeanReversion(id, universe, b) => OtherStrategies.MeanReversion(id, universe, b)
      case Breakout(id, universe, b) => OtherStrategies.Breakout(id, universe, b)
      case MetaScore(id, universe, score, b) => OtherStrategies.MetaScore(id, universe, score, b)
      case SessionEnd(id, universe, due, b) => OtherStrategies.FlattenSessionEnd(id, universe, due, b)
    }
  }

  lemma CrossWithinUnit(p: EMACross.Params, w: EMACross.Session, st: EMACross.BarState, b: Bar)
    requires p.Valid()
    ensures AllWithinUnit(EMACross.Step(p, w, st, b).1)
  {
  }

  lemma ExpansionWithinUnit(p: VolatilityExpansion.Params, st: VolatilityExpansion.VolState, b: Bar)
    ensures AllWithinUnit(VolatilityExpansion.Step(p, st, b).1)
  {
  }

  lemma LogSpreadWithinUnit(p: PairStrategies.StatArbParams, st: PairStrategies.StatArbState, b: Bar)
    requires p.Valid()
    ensures AllWithinUnit(PairStrategies.StatArbStep(p, PairStrategies.Capped, st, b).1)
  {
  }

  lemma BetaSpreadWithinUnit(p: DeltaNeutralPair.Params, st: DeltaNeutralPair.State, b: Bar)
    requires p.Valid()
    ensures AllWithinUnit(DeltaNeutralPair.Step(p, PairStrategies.Capped, st, b).1)
  {
  }

  lemma RankFadeWithinUnit(p: OptionsGammaRank.Params, buf: seq<real>, b: Bar)
    requires p.Valid()
    ensures AllWithinUnit(OptionsGammaRank.Step(p, PairStrategies.Capped, buf, b).1)
  {
  }

  lemma PlainWithinUnit(id: string, universe: seq<Instrument>, dir: real, conf: real, reason: string, b: Bar)
    requires Abs(dir) <= 1.0 && conf <= 1.0
    ensures AllWithinUnit(OtherStrategies.ForSymbol(id, universe, dir, conf, reason, b))
  {
    OtherStrategies.ForSymbolSignals(id, universe, dir, conf, reason, b);
  }

  lemma BarOnlyWithinUnit(id: string, universe: seq<Instrument>, b: Bar)
    ensures AllWithinUnit(OtherStrategies.Momentum(id, universe, b))
    ensures AllWithinUnit(OtherStrategies.MeanReversion(id, universe, b))
    ensures AllWithinUnit(OtherStrategies.Breakout(id, universe, b))
  {
    forall dir, conf, reason | Abs(dir) <= 1.0 && conf <= 1.0
      ensures AllWithinUnit(OtherStrategies.ForSymbol(id, universe, dir, conf, reason, b))
    {
      PlainWithinUnit(id, universe, dir, conf, reason, b);
    }
  }

  lemma EmittedWithinUnit(o: Origin)
    requires o.Valid()
    ensures AllWithinUnit(o.Emitted())
  {
    match o
    case Cross(p, w, st, b) => CrossWithinUnit(p, w, st, b);
    case Expansion(v, vs, b) => ExpansionWithinUnit(v, vs, b);
    case LogSpread(a, s, b) => LogSpreadWithinUnit(a, s, b);
    case BetaSpread(d, ds, b) => BetaSpreadWithinUnit(d, ds, b);
    case RankFade(r, buf, b) => RankFadeWithinUnit(r, buf, b);
    case Momentum(id, universe, b) => BarOnlyWithinUnit(id, universe, b);
    case MeanReversion(id, universe, b) => BarOnlyWithinUnit(id, universe, b);
    case Breakout(id, universe, b) => BarOnlyWithinUnit(id, universe, b);
    case MetaScore(_, _, _, _) =>
    case SessionEnd(_, _, _, _) =>
  }

  /**
   The strategies together never break the budget: a tick fed by any mix of them risks at most the per-trade share of
   equity.
   */
  lemma StrategiesKeepTickBudget(cfg: RiskConfig, t: Tick.TickInput, origins: seq<Origin>, risk: OrderIntent -> real,
                                 total: real)
    requires t.Mid() > 0.0 && |origins| == |t.signals|
    requires forall j :: 0 <= j < |origins| ==> origins[j].Valid() && t.signals[j] in origins[j].Emitted()
    requires forall i :: risk(i) == Tick.RiskOf(i, t.book, t.Mid())
    requires total == Tick.EntryRiskTotal(Tick.OrdersFrom(Tick.Decisions(cfg, t), 0), risk)
    ensures 0.0 <= total <= Max(0.0, RiskBudget(cfg, t.equity))
  {
    forall j | 0 <= j < |t.signals| ensures WithinUnit(t.signals[j]) {
      EmittedWithinUnit(origins[j]);
    }
    Tick.TickRiskWithinBudget(cfg, t, risk, total);
  }
}
