/**
 When one tick's entries keep the per-trade risk budget (internal/app/runner.go, lines 459-575), for any signals at all:
 what they risk in total, what that needs of the signals, and what the gate bounds when the signals promise nothing.
 */
module TickBudget {
  import opened Types
  import opened RealMath
  import opened RiskGate
  import opened Sizing
  import opened Tick

  /** How much of its share of the budget a signal asks for. */
  function Strength(s: Signal): real {
    Abs(s.direction) * s.confidence
  }

  /** What the signals from `k` on whose entries were placed ask for together. */
  function PlacedStrength(sigs: seq<Signal>, ds: seq<Decision>, k: nat): real
    requires k <= |sigs| == |ds|
    decreases |ds| - k
  {
    if k == |ds| || ds[k].Halt? then 0.0
    else (if ds[k].Place? && !ds[k].order.reduceOnly then Strength(sigs[k]) else 0.0) + PlacedStrength(sigs, ds, k + 1)
  }

  function Times(x: real, y: real): real {
    x * y
  }

  // ---------- what the entries risk in total ----------

  /** What a signal may risk: its strength times a share of the budget. */
  function Claim(cfg: RiskConfig, t: TickInput, s: Signal): real {
    Scaled(RiskBudget(cfg, t.equity), s, Scale(ActiveFrom(t.signals, 0)))
  }

  lemma BoundedLoss(q: real, u: real, part: real, capped: bool, price: real, limit: real, loss: real)
    requires q > 0.0 && u > 0.0 && ReachesBound(q, u, part, capped, price, limit) && loss == q * u
    ensures 0.0 <= loss <= part && (!capped ==> loss == part)
  {
    ProductPositive(q, u, loss);
  }

  /** One entry risks its signal's claim, or less when the notional cap binds. */
  lemma EntryRisksItsClaim(cfg: RiskConfig, s: Signal, book: BookTop, mid: real, equity: real, scale: real,
                           i: OrderIntent, claim: real, loss: real)
    requires mid > 0.0 && SizeEntry(cfg, s, book, mid, equity, scale) == Some(i)
    requires claim == Scaled(RiskBudget(cfg, equity), s, scale) && loss == RiskOf(i, book, mid)
    ensures 0.0 <= loss <= claim && (cfg.maxNotionalPerTradePct <= 0.0 ==> loss == claim)
  {
    var u := RiskPerUnit(s, book, mid);
    SizedFields(cfg, s, book, mid, equity, scale, i);
    EntrySpendsItsPart(cfg, s, book, mid, equity, scale, i.quantity);
    LossOfBound(s, book, mid, i, u, claim, cfg.maxNotionalPerTradePct > 0.0, SizingPrice(s, book, mid),
                NotionalLimit(cfg, equity), loss);
  }

  /** From the size to the loss, for any order with the signal's side and stop. */
  lemma LossOfBound(s: Signal, book: BookTop, mid: real, i: OrderIntent, u: real, part: real, capped: bool, price: real,
                    limit: real, loss: real)
    requires i.side == SideOf(s) && i.stopLossPrice == s.stopLossPrice && u == RiskPerUnit(s, book, mid)
    requires i.quantity > 0.0 && u > 0.0 && ReachesBound(i.quantity, u, part, capped, price, limit)
    requires loss == RiskOf(i, book, mid)
    ensures loss == i.quantity * u && 0.0 <= loss <= part && (!capped ==> loss == part)
  {
    RiskIsPerUnit(s, book, mid, i, u);
    BoundedLoss(i.quantity, u, part, capped, price, limit, loss);
  }

  /** What the placed entries from signal `k` on claim together. */
  function ClaimedTotal(sigs: seq<Signal>, ds: seq<Decision>, claim: Signal -> real, k: nat): real
    requires k <= |sigs| == |ds|
    decreases |ds| - k
  {
    if k == |ds| || ds[k].Halt? then 0.0
    else
      (if ds[k].Place? && !ds[k].order.reduceOnly then claim(sigs[k]) else 0.0)
      + ClaimedTotal(sigs, ds, claim, k + 1)
  }

  /** Every placed entry of the tick risks at most, or exactly, what its signal claims. */
  ghost predicate RisksClaims(sigs: seq<Signal>, ds: seq<Decision>, risk: OrderIntent -> real, claim: Signal -> real,
                              exact: bool)
  {
    |sigs| == |ds| && forall j :: 0 <= j < |ds| && ds[j].Place? && !ds[j].order.reduceOnly ==>
      0.0 <= risk(ds[j].order) <= claim(sigs[j]) && (exact ==> risk(ds[j].order) == claim(sigs[j]))
  }

  lemma {:induction false} ClaimsAddUp(sigs: seq<Signal>, ds: seq<Decision>, risk: OrderIntent -> real,
                                       claim: Signal -> real, exact: bool, k: nat)
    requires RisksClaims(sigs, ds, risk, claim, exact) && k <= |ds|
    ensures 0.0 <= EntryRiskTotal(OrdersFrom(ds, k), risk) <= ClaimedTotal(sigs, ds, claim, k)
    ensures exact ==> EntryRiskTotal(OrdersFrom(ds, k), risk) == ClaimedTotal(sigs, ds, claim, k)
    decreases |ds| - k
  {
    if k < |ds| && !ds[k].Halt? {
      ClaimsAddUp(sigs, ds, risk, claim, exact, k + 1);
      if ds[k].Place? {
        assert ([ds[k].order] + OrdersFrom(ds, k + 1))[1..] == OrdersFrom(ds, k + 1);
      }
    }
  }

  /** Claims are strengths times one part of the budget. */
  lemma {:induction false} ClaimsAreStrengths(sigs: seq<Signal>, ds: seq<Decision>, claim: Signal -> real, part: real,
                                              k: nat)
    requires k <= |sigs| == |ds| && forall s :: claim(s) == part * Strength(s)
    ensures ClaimedTotal(sigs, ds, claim, k) == part * PlacedStrength(sigs, ds, k)
    decreases |ds| - k
  {
    if k < |ds| && !ds[k].Halt? {
      ClaimsAreStrengths(sigs, ds, claim, part, k + 1);
      Distributes(part, Strength(sigs[k]), PlacedStrength(sigs, ds, k + 1));
    }
  }

  lemma Distributes(part: real, x: real, y: real)
    ensures part * (x + y) == part * x + part * y
  {
  }

  lemma PlacedRisksItsClaim(cfg: RiskConfig, t: TickInput, j: nat, risk: OrderIntent -> real, claim: Signal -> real)
    requires j < |t.signals| && t.Mid() > 0.0
    requires forall i :: risk(i) == RiskOf(i, t.book, t.Mid())
    requires forall s :: claim(s) == Claim(cfg, t, s)
    requires DecisionFor(cfg, t, j).Place? && !DecisionFor(cfg, t, j).order.reduceOnly
    ensures var r, c := risk(DecisionFor(cfg, t, j).order), claim(t.signals[j]);
            0.0 <= r <= c && (cfg.maxNotionalPerTradePct <= 0.0 ==> r == c)
  {
    var i, s := DecisionFor(cfg, t, j).order, t.signals[j];
    EntryRisksItsClaim(cfg, s, t.book, t.Mid(), t.equity, Scale(ActiveFrom(t.signals, 0)), i, claim(s), risk(i));
  }

  lemma EntriesRiskClaims(cfg: RiskConfig, t: TickInput, risk: OrderIntent -> real, claim: Signal -> real)
    requires t.Mid() > 0.0
    requires forall i :: risk(i) == RiskOf(i, t.book, t.Mid())
    requires forall s :: claim(s) == Claim(cfg, t, s)
    ensures RisksClaims(t.signals, Decisions(cfg, t), risk, claim, cfg.maxNotionalPerTradePct <= 0.0)
  {
    forall j | 0 <= j < |t.signals| && DecisionFor(cfg, t, j).Place? && !DecisionFor(cfg, t, j).order.reduceOnly
      ensures var r, c := risk(DecisionFor(cfg, t, j).order), claim(t.signals[j]);
              0.0 <= r <= c && (cfg.maxNotionalPerTradePct <= 0.0 ==> r == c)
    {
      PlacedRisksItsClaim(cfg, t, j, risk, claim);
    }
  }

  lemma ClaimIsStrength(budget: real, s: Signal, scale: real, part: real)
    requires part == budget * scale
    ensures Scaled(budget, s, scale) == part * Strength(s)
  {
    var d, c := Abs(s.direction), s.confidence;
    assert budget * d * c * scale == budget * scale * (d * c);
  }

  lemma ClaimsOfTick(cfg: RiskConfig, t: TickInput, ds: seq<Decision>, claim: Signal -> real, part: real)
    requires |ds| == |t.signals| && part == Part(cfg, t)
    requires forall s :: claim(s) == Claim(cfg, t, s)
    ensures ClaimedTotal(t.signals, ds, claim, 0) == Times(part, PlacedStrength(t.signals, ds, 0))
  {
    forall s ensures claim(s) == part * Strength(s) {
      ClaimIsStrength(RiskBudget(cfg, t.equity), s, Scale(ActiveFrom(t.signals, 0)), part);
    }
    ClaimsAreStrengths(t.signals, ds, claim, part, 0);
  }

  /**
   The entries of a tick together risk their signals' strengths times a share of the budget: exactly that without a
   notional cap, at most that with one.
   */
  lemma TotalRisk(cfg: RiskConfig, t: TickInput, ds: seq<Decision>, risk: OrderIntent -> real, total: real, part: real,
                  strength: real)
    requires t.Mid() > 0.0 && ds == Decisions(cfg, t) && part == Part(cfg, t)
    requires strength == PlacedStrength(t.signals, ds, 0)
    requires forall i :: risk(i) == RiskOf(i, t.book, t.Mid())
    requires total == EntryRiskTotal(OrdersFrom(ds, 0), risk)
    ensures 0.0 <= total <= Times(part, strength)
    ensures cfg.maxNotionalPerTradePct <= 0.0 ==> total == Times(part, strength)
  {
    var claim := (s: Signal) => Claim(cfg, t, s);
    EntriesRiskClaims(cfg, t, risk, claim);
    ClaimsAddUp(t.signals, ds, risk, claim, cfg.maxNotionalPerTradePct <= 0.0, 0);
    ClaimsOfTick(cfg, t, ds, claim, part);
  }

  // ---------- the same with a notional cap ----------

  /** What a signal's order risks: its claim, or what the notional cap leaves of it. */
  function CappedClaim(cfg: RiskConfig, t: TickInput, s: Signal): real {
    Capped(Claim(cfg, t, s), cfg.maxNotionalPerTradePct > 0.0,
           CapRisk(NotionalLimit(cfg, t.equity), SizingPrice(s, t.book, t.Mid()), RiskPerUnit(s, t.book, t.Mid())))
  }

  function Capped(claim: real, capped: bool, cap: real): real {
    if capped then Min(claim, cap) else claim
  }

  /** What a notional limit puts at risk, at a price and a risk per unit. */
  function CapRisk(limit: real, price: real, u: real): real {
    if price == 0.0 then 0.0 else limit / price * u
  }

  lemma SmallerLoss(q: real, u: real, part: real, price: real, limit: real, loss: real)
    requires q > 0.0 && u > 0.0 && price > 0.0 && ReachesBound(q, u, part, true, price, limit) && loss == q * u
    ensures loss == Capped(part, true, CapRisk(limit, price, u))
  {
    var cap := limit / price;
    assert cap * price == limit;
    CappedQuantity(q, price, cap);
    ScaleBound(u, q, cap);
  }

  lemma CappedQuantity(q: real, price: real, cap: real)
    requires price > 0.0 && q * price <= cap * price
    ensures q <= cap && (q * price == cap * price ==> q == cap)
  {
    SignOfProduct(cap - q, price, (cap - q) * price);
    assert (cap - q) * price == cap * price - q * price;
    SignOfProduct(q - cap, price, (q - cap) * price);
    assert (q - cap) * price == q * price - cap * price;
  }

  lemma EntryRisksExactly(cfg: RiskConfig, s: Signal, book: BookTop, mid: real, equity: real, scale: real,
                          i: OrderIntent, claim: real, loss: real)
    requires mid > 0.0 && SizeEntry(cfg, s, book, mid, equity, scale) == Some(i)
    requires claim == Scaled(RiskBudget(cfg, equity), s, scale) && loss == RiskOf(i, book, mid)
    ensures loss >= 0.0
    ensures loss == Capped(claim, cfg.maxNotionalPerTradePct > 0.0,
                           CapRisk(NotionalLimit(cfg, equity), SizingPrice(s, book, mid), RiskPerUnit(s, book, mid)))
  {
    var u := RiskPerUnit(s, book, mid);
    SizedFields(cfg, s, book, mid, equity, scale, i);
    EntrySpendsItsPart(cfg, s, book, mid, equity, scale, i.quantity);
    PriceIsPositive(s, book, mid);
    LossIsCapped(s, book, mid, i, u, claim, cfg.maxNotionalPerTradePct > 0.0, SizingPrice(s, book, mid),
                 NotionalLimit(cfg, equity), loss);
  }

  lemma LossIsCapped(s: Signal, book: BookTop, mid: real, i: OrderIntent, u: real, part: real, capped: bool,
                     price: real,
                     limit: real, loss: real)
    requires i.side == SideOf(s) && i.stopLossPrice == s.stopLossPrice && u == RiskPerUnit(s, book, mid)
    requires i.quantity > 0.0 && u > 0.0 && price > 0.0
    requires ReachesBound(i.quantity, u, part, capped, price, limit) && loss == RiskOf(i, book, mid)
    ensures loss >= 0.0 && loss == Capped(part, capped, CapRisk(limit, price, u))
  {
    LossOfBound(s, book, mid, i, u, part, capped, price, limit, loss);
    if capped {
      SmallerLoss(i.quantity, u, part, price, limit, loss);
    }
  }

  lemma PriceIsPositive(s: Signal, book: BookTop, mid: real)
    requires mid > 0.0
    ensures SizingPrice(s, book, mid) > 0.0
  {
  }

  lemma PlacedRisksExactly(cfg: RiskConfig, t: TickInput, j: nat, risk: OrderIntent -> real, claim: Signal -> real)
    requires j < |t.signals| && t.Mid() > 0.0
    requires forall i :: risk(i) == RiskOf(i, t.book, t.Mid())
    requires forall s :: claim(s) == CappedClaim(cfg, t, s)
    requires DecisionFor(cfg, t, j).Place? && !DecisionFor(cfg, t, j).order.reduceOnly
    ensures 0.0 <= risk(DecisionFor(cfg, t, j).order) == claim(t.signals[j])
  {
    var i, s, scale := DecisionFor(cfg, t, j).order, t.signals[j], Scale(ActiveFrom(t.signals, 0));
    EntryRisksExactly(cfg, s, t.book, t.Mid(), t.equity, scale, i, Claim(cfg, t, s), risk(i));
  }

  /** The entries of a tick together risk exactly their capped claims: the budget is kept exactly when those fit it. */
  lemma TotalRiskExactly(cfg: RiskConfig, t: TickInput, ds: seq<Decision>, risk: OrderIntent -> real,
                         claim: Signal -> real)
    requires t.Mid() > 0.0 && ds == Decisions(cfg, t)
    requires forall i :: risk(i) == RiskOf(i, t.book, t.Mid())
    requires forall s :: claim(s) == CappedClaim(cfg, t, s)
    ensures EntryRiskTotal(OrdersFrom(ds, 0), risk) == ClaimedTotal(t.signals, ds, claim, 0)
  {
    forall j | 0 <= j < |t.signals| && DecisionFor(cfg, t, j).Place? && !DecisionFor(cfg, t, j).order.reduceOnly
      ensures 0.0 <= risk(DecisionFor(cfg, t, j).order) == claim(t.signals[j])
    {
      PlacedRisksExactly(cfg, t, j, risk, claim);
    }
    ClaimsAddUp(t.signals, ds, risk, claim, true, 0);
  }

  // ---------- when the budget is kept ----------

  /** `n` of the parts make the budget. */
  lemma PartsMakeBudget(budget: real, active: nat, part: real, n: real)
    requires budget > 0.0 && part == budget * Scale(active) && n == Max(1.0, active as real)
    ensures part > 0.0 && part * n == budget
  {
    var scale := Scale(active);
    ProductPositive(budget, scale, part);
    assert scale * n == 1.0;
    assert part * n == budget * (scale * n);
  }

  lemma ScaledIff(part: real, x: real, n: real)
    requires part > 0.0
    ensures part * x <= part * n <==> x <= n
  {
    if x <= n {
      ScaleBound(part, x, n);
    } else {
      ProductPositive(part, x - n, part * (x - n));
      assert part * (x - n) == part * x - part * n;
    }
  }

  /**
   With a positive budget, the entries of a tick keep it when the signals placed ask for no more than there are active
   signals, or one; without a notional cap, exactly then.
   */
  lemma BudgetKeptExactlyWhen(cfg: RiskConfig, t: TickInput, ds: seq<Decision>, risk: OrderIntent -> real, total: real,
                              strength: real, n: real)
    requires t.Mid() > 0.0 && ds == Decisions(cfg, t) && strength == PlacedStrength(t.signals, ds, 0)
    requires n == Max(1.0, ActiveFrom(t.signals, 0) as real)
    requires forall i :: risk(i) == RiskOf(i, t.book, t.Mid())
    requires total == EntryRiskTotal(OrdersFrom(ds, 0), risk)
    requires RiskBudget(cfg, t.equity) > 0.0
    ensures strength <= n ==> total <= RiskBudget(cfg, t.equity)
    ensures cfg.maxNotionalPerTradePct <= 0.0 ==> (total <= RiskBudget(cfg, t.equity) <==> strength <= n)
  {
    var part, budget := Part(cfg, t), RiskBudget(cfg, t.equity);
    PartsMakeBudget(budget, ActiveFrom(t.signals, 0), part, n);
    TotalRisk(cfg, t, ds, risk, total, part, strength);
    KeptIff(part, strength, n, budget, total, cfg.maxNotionalPerTradePct <= 0.0);
  }

  lemma KeptIff(part: real, strength: real, n: real, budget: real, total: real, exact: bool)
    requires part > 0.0 && part * n == budget && total <= Times(part, strength)
    requires exact ==> total == Times(part, strength)
    ensures strength <= n ==> total <= budget
    ensures exact ==> (total <= budget <==> strength <= n)
  {
    ScaledIff(part, strength, n);
  }

  // ---------- what the gate bounds ----------

  /** Risk as the gate measures it: from the price it checks against, whether there is a stop or not. */
  function GateRisk(i: OrderIntent, book: BookTop): real {
    var ref := Reference(i.side, book);
    i.quantity * if i.stopLossPrice > 0.0 then Abs(ref - i.stopLossPrice) else ref
  }

  /** What the gate lets one entry risk. */
  function GateLimit(cfg: RiskConfig, equity: real): real {
    Max(0.0, RiskBudget(cfg, equity)) + 1e-9
  }

  /** Any accepted entry risks at most the budget and the gate's tolerance, whatever its signal claimed. */
  lemma AcceptedRisk(cfg: RiskConfig, alarms: Alarms, i: OrderIntent, book: BookTop, equity: real)
    requires PreTrade(cfg, alarms, i, book, equity) == None && !i.reduceOnly && i.quantity >= 0.0
    ensures Reference(i.side, book) > 0.0
    ensures 0.0 <= GateRisk(i, book) <= GateLimit(cfg, equity)
  {
    var ref := Reference(i.side, book);
    EntryAcceptedExactlyWhen(cfg, alarms, i, book, equity, ref);
    if i.stopLossPrice > 0.0 {
      FittingLoss(cfg, i, equity, ref, i.quantity * Abs(ref - i.stopLossPrice));
    } else {
      FittingNotional(cfg, i, equity, ref, i.quantity * ref);
    }
  }

  lemma FittingLoss(cfg: RiskConfig, i: OrderIntent, equity: real, ref: real, loss: real)
    requires SizeFits(cfg, i, equity, ref) && i.stopLossPrice > 0.0 && i.quantity >= 0.0
    requires loss == i.quantity * Abs(ref - i.stopLossPrice)
    ensures 0.0 <= loss <= RiskBudget(cfg, equity) + 1e-9
  {
    ScaledOrder(i.quantity, 0.0, Abs(ref - i.stopLossPrice), 0.0, loss);
    WithinBudget(cfg, loss, equity);
  }

  lemma FittingNotional(cfg: RiskConfig, i: OrderIntent, equity: real, ref: real, notional: real)
    requires SizeFits(cfg, i, equity, ref) && i.stopLossPrice <= 0.0 && i.quantity >= 0.0 && ref > 0.0
    requires notional == i.quantity * ref
    ensures 0.0 <= notional <= RiskBudget(cfg, equity)
  {
    ScaledOrder(i.quantity, 0.0, ref, 0.0, notional);
    WithinBudget(cfg, notional, equity);
  }

  /** A percentage of equity against a part of it. */
  lemma WithinBudget(cfg: RiskConfig, risk: real, equity: real)
    ensures 100.0 * risk <= equity * cfg.maxRiskPerTradePct <==> risk <= RiskBudget(cfg, equity)
    ensures 100.0 * risk <= equity * cfg.maxRiskPerTradePct + 1e-7 <==> risk <= RiskBudget(cfg, equity) + 1e-9
  {
    BudgetInTerms(cfg, equity);
  }

  /** The sizer's measure and the gate's agree on stopped entries, and on others order as mid and reference do. */
  lemma MeasuresCompare(i: OrderIntent, book: BookTop, mid: real)
    requires i.quantity > 0.0 && Reference(i.side, book) > 0.0
    ensures i.stopLossPrice > 0.0 ==> RiskOf(i, book, mid) == GateRisk(i, book)
    ensures i.stopLossPrice <= 0.0 ==> (RiskOf(i, book, mid) <= GateRisk(i, book) <==> mid <= Reference(i.side, book))
  {
    var ref := Reference(i.side, book);
    if mid <= ref {
      ScaleBound(i.quantity, mid, ref);
    } else {
      ProductPositive(i.quantity, mid - ref, i.quantity * (mid - ref));
    }
  }

  lemma PlacedGateRisk(cfg: RiskConfig, t: TickInput, k: nat, i: OrderIntent)
    requires k < |t.signals| && t.Mid() > 0.0 && OrderFor(cfg, t, k) == Some(i) && !i.reduceOnly
    ensures Active(t.signals[k]) && 0.0 <= GateRisk(i, t.book) <= GateLimit(cfg, t.equity)
  {
    SizedQuantity(cfg, t.signals[k], t.book, t.Mid(), t.equity, Scale(ActiveFrom(t.signals, 0)));
    AcceptedRisk(cfg, t.env(k).gateAlarms, i, t.book, t.equity);
  }

  lemma EntriesAreWithinGate(cfg: RiskConfig, t: TickInput, risk: OrderIntent -> real, limit: real)
    requires t.Mid() > 0.0 && forall i :: risk(i) == GateRisk(i, t.book)
    requires limit == GateLimit(cfg, t.equity)
    ensures EntriesWithinShare(cfg, t, risk, limit)
  {
    forall j | 0 <= j < |t.signals| && DecisionFor(cfg, t, j).Place? && !DecisionFor(cfg, t, j).order.reduceOnly
      ensures Active(t.signals[j]) && 0.0 <= risk(DecisionFor(cfg, t, j).order) <= limit
    {
      PlacedGateRisk(cfg, t, j, DecisionFor(cfg, t, j).order);
    }
  }

  lemma SharesMultiply(sigs: seq<Signal>, share: real, active: nat)
    requires share >= 0.0 && active == ActiveFrom(sigs, 0)
    ensures SharesFrom(sigs, share, 0) == Times(active as real, share)
  {
    SharesAreMultiple(sigs, share, 0);
  }

  /**
   Whatever the signals, the entries of a tick together risk at most one budget, and a tolerance, per active signal.
   */
  lemma GateBoundsTick(cfg: RiskConfig, t: TickInput, risk: OrderIntent -> real, total: real, limit: real, active: nat)
    requires t.Mid() > 0.0 && forall i :: risk(i) == GateRisk(i, t.book)
    requires total == EntryRiskTotal(OrdersFrom(Decisions(cfg, t), 0), risk)
    requires limit == GateLimit(cfg, t.equity) && active == ActiveFrom(t.signals, 0)
    ensures 0.0 <= total <= Times(active as real, limit)
  {
    assert 0.0 <= total <= SharesFrom(t.signals, limit, 0) by {
      EntriesAreWithinGate(cfg, t, risk, limit);
      TotalWithinShares(cfg, t, risk, limit, total);
    }
    SharesMultiply(t.signals, limit, active);
  }

  // ---------- why the budget needs its condition on the signals ----------

  /** A quiet tick of two equal signals, each a buy with a stop one below the reference. */
  ghost predicate TwinTick(cfg: RiskConfig, t: TickInput, s: Signal) {
    && cfg.maxRiskPerTradePct == 0.5 && cfg.maxNotionalPerTradePct == 0.0 && cfg.minBookDepthUSD == 0.0
    && !cfg.requireBrokerStops && !cfg.exitOnOppositeSignal
    && s.direction == 1.0 && s.confidence == 2.0 && s.stopLossPrice == 99.0 && s.takeProfitPrice == 0.0 && !s.flatten
    && t.signals == [s, s] && t.book == BookTop(100.0, 1.0, 100.0, 1.0) && t.equity == 10000.0
    && forall k :: !t.env(k).paused && t.env(k).alarms == t.env(k).gateAlarms == Alarms(false, false)
  }

  /** Half a share each, at twice the strength: an order for the whole budget, which the gate lets pass. */
  lemma TwinOrder(cfg: RiskConfig, t: TickInput, s: Signal, k: nat)
    requires TwinTick(cfg, t, s) && k < 2
    ensures DecisionFor(cfg, t, k).Place? && !DecisionFor(cfg, t, k).order.reduceOnly
  {
    assert ActiveFrom(t.signals, 2) == 0 && ActiveFrom(t.signals, 1) == 1 && ActiveFrom(t.signals, 0) == 2;
    var sized := SizeEntry(cfg, s, t.book, 100.0, 10000.0, 0.5);
    assert Scaled(MaxQtyFromStop(cfg, 100.0, 99.0, 10000.0), s, 0.5) == 50.0;
    assert sized.Some? && sized.value.quantity == 50.0;
    EntryAcceptedExactlyWhen(cfg, Alarms(false, false), sized.value, t.book, 10000.0, 100.0);
  }

  /**
   A confidence of two, which no strategy claims, would break the budget if it came twice: sharing halves each order, so
   each passes the gate, and the two together risk twice the budget.
   */
  lemma OverconfidentTwinsBreakBudget(cfg: RiskConfig, t: TickInput, s: Signal, risk: OrderIntent -> real)
    requires TwinTick(cfg, t, s) && forall i :: risk(i) == RiskOf(i, t.book, t.Mid())
    ensures EntryRiskTotal(OrdersFrom(Decisions(cfg, t), 0), risk) == 100.0 && RiskBudget(cfg, t.equity) == 50.0
  {
    var ds := Decisions(cfg, t);
    TwinOrder(cfg, t, s, 0);
    TwinOrder(cfg, t, s, 1);
    assert PlacedStrength(t.signals, ds, 2) == 0.0 && PlacedStrength(t.signals, ds, 1) == 2.0;
    assert ActiveFrom(t.signals, 2) == 0 && ActiveFrom(t.signals, 1) == 1 && ActiveFrom(t.signals, 0) == 2;
    TotalRisk(cfg, t, ds, risk, EntryRiskTotal(OrdersFrom(ds, 0), risk), 25.0, 4.0);
  }

  /** Once alone, the same signal gets a full share, and the gate refuses what it asks for. */
  lemma OverconfidentAloneIsRefused(cfg: RiskConfig, alarms: Alarms, s: Signal, i: OrderIntent, book: BookTop,
                                    mid: real, equity: real)
    requires mid > 0.0 && Reference(SideOf(s), book) > 0.0 && s.stopLossPrice > 0.0 && cfg.maxNotionalPerTradePct <= 0.0
    requires SizeEntry(cfg, s, book, mid, equity, 1.0) == Some(i)
    ensures Scaled(RiskBudget(cfg, equity), s, 1.0) > RiskBudget(cfg, equity) + 1e-9 ==>
            PreTrade(cfg, alarms, i, book, equity).Some?
  {
    EntryRisksItsClaim(cfg, s, book, mid, equity, 1.0, i, Scaled(RiskBudget(cfg, equity), s, 1.0),
                       RiskOf(i, book, mid));
    EntryAcceptedExactlyWhen(cfg, alarms, i, book, equity, Reference(i.side, book));
  }
}
