/**
 One tick's signal loop (internal/app/runner.go, lines 459-577) and the exits it triggers (internal/app/exits.go,
 lines 24-33 and 96-159).

 What the loop reads from outside while it runs is an input: `env(k)` is what it sees while handling signal `k`.
 */
module Tick {
  import opened Types
  import opened RealMath
  import opened RiskGate
  import opened Sizing

  /**
   The flags and the portfolio snapshot read at a signal; the alarms asked before an entry and again inside the gate;
   and, for an exit, whether the runner has halted by then, the snapshot taken then, the book its venue answered with,
   the two alarm readings and the equity.
   */
  datatype Env = Env(
    paused: bool,
    halted: bool,
    positions: map<string, real>,
    alarms: Alarms,
    gateAlarms: Alarms,
    exitHalted: bool,
    exitPositions: map<string, real>,
    exitBook: Option<BookTop>,
    exitAlarms: Alarms,
    exitGateAlarms: Alarms,
    exitEquity: real
  )

  /** A tick: its signals, the instrument's book and the marked equity. */
  datatype TickInput = TickInput(
    signals: seq<Signal>,
    book: BookTop,
    equity: real,
    env: nat -> Env
  ) {
    function Mid(): real {
      (book.bidPrice + book.askPrice) / 2.0
    }
  }

  function MidKey(ins: Instrument): string {
    (if ins.venue == "" then "PAPER" else ins.venue) + ":" + ins.symbol
  }

  predicate PositionOpposes(posQty: real, direction: real) {
    && Abs(direction) >= 1e-12
    && Abs(posQty) >= 1e-12
    && (direction > 0.0) != (posQty > 0.0)
  }

  /** How many of the signals from `k` on could become entries. */
  function ActiveFrom(sigs: seq<Signal>, k: nat): nat
    requires k <= |sigs|
    decreases |sigs| - k
  {
    if k == |sigs| then 0 else (if Active(sigs[k]) then 1 else 0) + ActiveFrom(sigs, k + 1)
  }

  function Scale(active: nat): (scale: real)
    ensures 0.0 < scale <= 1.0
  {
    if active > 1 then 1.0 / active as real else 1.0
  }

  /** A reduce-only order for the whole snapshot position, when nothing stands in its way. */
  function ExitOrder(cfg: RiskConfig, t: TickInput, k: nat, ins: Instrument, reason: string): Option<OrderIntent> {
    var e, key := t.env(k), MidKey(ins);
    if e.exitHalted || key !in e.exitPositions || Abs(e.exitPositions[key]) < 1e-9 || e.exitBook.None? then None
    else
      var qty := e.exitPositions[key];
      var i := OrderIntent("exit_" + reason, ins, if qty < 0.0 then Buy else Sell, Market, Abs(qty), 0.0, true,
                           cfg.maxSlippageBpsDefault, 0.0, 0.0);
      if e.exitAlarms.killSwitch || e.exitAlarms.hardDrawdown then None
      else if PreTrade(cfg, e.exitGateAlarms, i, e.exitBook.value, e.exitEquity).Some? then None
      else Some(i)
  }

  /** An exit closes the position of its own snapshot exactly: bought or sold back whole, whatever its sign. */
  lemma ExitClosesPosition(cfg: RiskConfig, t: TickInput, k: nat, ins: Instrument, reason: string, i: OrderIntent)
    requires ExitOrder(cfg, t, k, ins, reason) == Some(i)
    ensures MidKey(ins) in t.env(k).exitPositions && i.reduceOnly && i.quantity > 0.0
    ensures t.env(k).exitPositions[MidKey(ins)] + (if i.side == Buy then i.quantity else -i.quantity) == 0.0
  {
  }

  predicate Flattens(t: TickInput, k: nat)
    requires k < |t.signals|
  {
    var e, key := t.env(k), MidKey(t.signals[k].instrument);
    !e.halted && key in e.positions && Abs(e.positions[key]) >= 1e-9
  }

  predicate ExitsOnOpposite(cfg: RiskConfig, t: TickInput, k: nat)
    requires k < |t.signals|
  {
    var s, e, key := t.signals[k], t.env(k), MidKey(t.signals[k].instrument);
    && cfg.exitOnOppositeSignal && !e.halted
    && key in e.positions && PositionOpposes(e.positions[key], s.direction)
  }

  /** The order signal `k` leads to, if the loop gets to it. */
  function OrderFor(cfg: RiskConfig, t: TickInput, k: nat): Option<OrderIntent>
    requires k < |t.signals|
  {
    var s, e := t.signals[k], t.env(k);
    if s.flatten then if Flattens(t, k) then ExitOrder(cfg, t, k, s.instrument, "flatten_signal") else None
    else if ExitsOnOpposite(cfg, t, k) then ExitOrder(cfg, t, k, s.instrument, "opposite_signal")
    else
      match SizeEntry(cfg, s, t.book, t.Mid(), t.equity, Scale(ActiveFrom(t.signals, 0)))
      case None => None
      case Some(i) =>
        if e.alarms.killSwitch || e.alarms.hardDrawdown then None
        else if PreTrade(cfg, e.gateAlarms, i, t.book, t.equity).Some? then None
        else Some(i)
  }

  /** What the loop does at a signal: end there, place nothing, or place an order. */
  datatype Decision = Halt | Skip | Place(order: OrderIntent)

  /** A pause ends the loop at the first signal that is not a flatten. */
  function DecisionFor(cfg: RiskConfig, t: TickInput, k: nat): Decision
    requires k < |t.signals|
  {
    if !t.signals[k].flatten && t.env(k).paused then Halt
    else
      match OrderFor(cfg, t, k)
      case None => Skip
      case Some(i) => Place(i)
  }

  function Decisions(cfg: RiskConfig, t: TickInput): (ds: seq<Decision>)
    ensures |ds| == |t.signals|
  {
    seq(|t.signals|, k requires 0 <= k < |t.signals| => DecisionFor(cfg, t, k))
  }

  /** The orders placed from signal `k` on. */
  function OrdersFrom(ds: seq<Decision>, k: nat): seq<OrderIntent>
    requires k <= |ds|
    decreases |ds| - k
  {
    if k == |ds| then []
    else
      match ds[k]
      case Halt => []
      case Skip => OrdersFrom(ds, k + 1)
      case Place(i) => [i] + OrdersFrom(ds, k + 1)
  }

  method PlaceSignals(cfg: RiskConfig, t: TickInput) returns (orders: seq<OrderIntent>)
    ensures orders == OrdersFrom(Decisions(cfg, t), 0)
  {
    var scale := TickScale(t.signals);
    ghost var ds := Decisions(cfg, t);
    orders := [];
    var k := 0;
    while k < |t.signals|
      invariant k <= |t.signals|
      invariant orders + OrdersFrom(ds, k) == OrdersFrom(ds, 0)
    {
      var decision := Decide(cfg, t, k, scale, ds);
      OneMoreDecision(ds, k, orders, OrdersFrom(ds, 0));
      if decision.Halt? {
        break;
      }
      if decision.Place? {
        orders := orders + [decision.order];
      }
      k := k + 1;
    }
  }

  lemma OneMoreDecision(ds: seq<Decision>, k: nat, orders: seq<OrderIntent>, whole: seq<OrderIntent>)
    requires k < |ds| && orders + OrdersFrom(ds, k) == whole
    ensures match ds[k]
            case Halt => orders == whole
            case Skip => orders + OrdersFrom(ds, k + 1) == whole
            case Place(i) => orders + [i] + OrdersFrom(ds, k + 1) == whole
  {
  }

  /** The first pass: how many signals could trade, and so how small each share of the budget is. */
  method TickScale(sigs: seq<Signal>) returns (scale: real)
    ensures scale == Scale(ActiveFrom(sigs, 0))
  {
    var active := 0;
    for k := 0 to |sigs|
      invariant active + ActiveFrom(sigs, k) == ActiveFrom(sigs, 0)
    {
      if sigs[k].confidence > 0.0 && Abs(sigs[k].direction) >= 1e-8 {
        active := active + 1;
      }
    }
    scale := 1.0;
    if active > 1 {
      scale := 1.0 / active as real;
    }
  }

  /** The body of the loop. */
  method Decide(cfg: RiskConfig, t: TickInput, k: nat, scale: real, ghost ds: seq<Decision>) returns (d: Decision)
    requires k < |t.signals| && scale == Scale(ActiveFrom(t.signals, 0)) && ds == Decisions(cfg, t)
    ensures d == ds[k]
  {
    var s, e := t.signals[k], t.env(k);
    var order: Option<OrderIntent> := None;
    if s.flatten {
      var key := MidKey(s.instrument);
      if !e.halted && key in e.positions && Abs(e.positions[key]) >= 1e-9 {
        order := ExitOrder(cfg, t, k, s.instrument, "flatten_signal");
      }
    } else if e.paused {
      return Halt;
    } else if ExitsOnOpposite(cfg, t, k) {
      order := ExitOrder(cfg, t, k, s.instrument, "opposite_signal");
    } else {
      var sized := SizeEntry(cfg, s, t.book, t.Mid(), t.equity, scale);
      if sized.Some? && !e.alarms.killSwitch && !e.alarms.hardDrawdown {
        var verdict := PreTrade(cfg, e.gateAlarms, sized.value, t.book, t.equity);
        if verdict.None? {
          order := sized;
        }
      }
    }
    if order.None? {
      return Skip;
    }
    return Place(order.value);
  }

  // ---------- the tick's risk budget ----------

  /** What an order puts at risk, from its own fields and the book. */
  function RiskOf(i: OrderIntent, book: BookTop, mid: real): real {
    var ref := if Reference(i.side, book) <= 0.0 then mid else Reference(i.side, book);
    i.quantity * if i.stopLossPrice > 0.0 then Abs(ref - i.stopLossPrice) else mid
  }

  /** Total risk of the entries among some orders. */
  function EntryRiskTotal(orders: seq<OrderIntent>, risk: OrderIntent -> real): real {
    if orders == [] then 0.0
    else (if orders[0].reduceOnly then 0.0 else risk(orders[0])) + EntryRiskTotal(orders[1..], risk)
  }

  /** One active signal's part of the budget. */
  function Part(cfg: RiskConfig, t: TickInput): real {
    RiskBudget(cfg, t.equity) * Scale(ActiveFrom(t.signals, 0))
  }

  /** An entry comes from an active signal and risks at most one share of the budget. */
  lemma OrderRisk(cfg: RiskConfig, t: TickInput, k: nat)
    requires k < |t.signals| && t.Mid() > 0.0 && WithinUnit(t.signals[k])
    requires OrderFor(cfg, t, k).Some? && !OrderFor(cfg, t, k).value.reduceOnly
    ensures Active(t.signals[k])
    ensures 0.0 <= RiskOf(OrderFor(cfg, t, k).value, t.book, t.Mid()) <= Part(cfg, t)
  {
    SizedRisk(cfg, t.signals[k], t.book, t.Mid(), t.equity, Scale(ActiveFrom(t.signals, 0)));
  }

  lemma SizedRisk(cfg: RiskConfig, s: Signal, book: BookTop, mid: real, equity: real, scale: real)
    requires mid > 0.0 && scale > 0.0 && WithinUnit(s)
    requires SizeEntry(cfg, s, book, mid, equity, scale).Some?
    ensures RiskBudget(cfg, equity) > 0.0
    ensures 0.0 <= RiskOf(SizeEntry(cfg, s, book, mid, equity, scale).value, book, mid)
                <= RiskBudget(cfg, equity) * scale
  {
    var i, u := SizeEntry(cfg, s, book, mid, equity, scale).value, RiskPerUnit(s, book, mid);
    SizedFields(cfg, s, book, mid, equity, scale, i);
    EntryRisk(cfg, s, book, mid, equity, scale);
    RiskIsPerUnit(s, book, mid, i, u);
    ScaleBound(i.quantity, 0.0, u);
  }

  lemma SizedFields(cfg: RiskConfig, s: Signal, book: BookTop, mid: real, equity: real, scale: real, i: OrderIntent)
    requires mid > 0.0 && SizeEntry(cfg, s, book, mid, equity, scale) == Some(i)
    ensures i.side == SideOf(s) && i.stopLossPrice == s.stopLossPrice && i.quantity > 0.0
    ensures RiskPerUnit(s, book, mid) > 0.0
  {
  }

  lemma RiskIsPerUnit(s: Signal, book: BookTop, mid: real, i: OrderIntent, u: real)
    requires i.side == SideOf(s) && i.stopLossPrice == s.stopLossPrice && u == RiskPerUnit(s, book, mid)
    ensures RiskOf(i, book, mid) == i.quantity * u
  {
  }

  /**
   If every entry comes from an active signal and risks at most `share`, the total is at most a share per active
   signal.
   */
  lemma {:induction false} SharesAddUp(sigs: seq<Signal>, ds: seq<Decision>, risk: OrderIntent -> real, share: real,
                                       k: nat)
    requires k <= |sigs| == |ds| && share >= 0.0
    requires forall j :: k <= j < |ds| && ds[j].Place? && !ds[j].order.reduceOnly ==>
               Active(sigs[j]) && 0.0 <= risk(ds[j].order) <= share
    ensures 0.0 <= EntryRiskTotal(OrdersFrom(ds, k), risk) <= SharesFrom(sigs, share, k)
    decreases |ds| - k
  {
    if k < |ds| && !ds[k].Halt? {
      SharesAddUp(sigs, ds, risk, share, k + 1);
      if ds[k].Place? {
        assert ([ds[k].order] + OrdersFrom(ds, k + 1))[1..] == OrdersFrom(ds, k + 1);
      }
    }
  }

  /** A share for every signal from `k` on that could become an entry. */
  function SharesFrom(sigs: seq<Signal>, share: real, k: nat): (total: real)
    requires k <= |sigs| && share >= 0.0
    ensures total >= 0.0
    decreases |sigs| - k
  {
    if k == |sigs| then 0.0 else (if Active(sigs[k]) then share else 0.0) + SharesFrom(sigs, share, k + 1)
  }

  lemma {:induction false} SharesAreMultiple(sigs: seq<Signal>, share: real, k: nat)
    requires k <= |sigs| && share >= 0.0
    ensures SharesFrom(sigs, share, k) == ActiveFrom(sigs, k) as real * share
    decreases |sigs| - k
  {
    if k < |sigs| {
      SharesAreMultiple(sigs, share, k + 1);
      OneMoreShare(ActiveFrom(sigs, k + 1), share);
    }
  }

  lemma OneMoreShare(n: nat, share: real)
    ensures (1 + n) as real * share == n as real * share + share
  {
  }

  /** The same, or nothing when there is no budget. */
  function ShareOf(cfg: RiskConfig, t: TickInput): real {
    Max(0.0, Part(cfg, t))
  }

  lemma PlacedRisk(cfg: RiskConfig, t: TickInput, risk: OrderIntent -> real, j: nat, share: real)
    requires j < |t.signals| && t.Mid() > 0.0 && WithinUnit(t.signals[j])
    requires forall i :: risk(i) == RiskOf(i, t.book, t.Mid())
    requires share == ShareOf(cfg, t)
    requires DecisionFor(cfg, t, j).Place? && !DecisionFor(cfg, t, j).order.reduceOnly
    ensures Active(t.signals[j]) && 0.0 <= risk(DecisionFor(cfg, t, j).order) <= share
  {
    OrderRisk(cfg, t, j);
  }

  /** Every entry of the tick comes from an active signal and risks at most `share`. */
  ghost predicate EntriesWithinShare(cfg: RiskConfig, t: TickInput, risk: OrderIntent -> real, share: real) {
    var ds := Decisions(cfg, t);
    forall j :: 0 <= j < |ds| && ds[j].Place? && !ds[j].order.reduceOnly ==>
      Active(t.signals[j]) && 0.0 <= risk(ds[j].order) <= share
  }

  lemma EntriesAreWithinShare(cfg: RiskConfig, t: TickInput, risk: OrderIntent -> real, share: real)
    requires t.Mid() > 0.0
    requires forall j :: 0 <= j < |t.signals| ==> WithinUnit(t.signals[j])
    requires forall i :: risk(i) == RiskOf(i, t.book, t.Mid())
    requires share == ShareOf(cfg, t)
    ensures EntriesWithinShare(cfg, t, risk, share)
  {
    forall j | 0 <= j < |t.signals| && DecisionFor(cfg, t, j).Place? && !DecisionFor(cfg, t, j).order.reduceOnly
      ensures Active(t.signals[j]) && 0.0 <= risk(DecisionFor(cfg, t, j).order) <= share
    {
      PlacedRisk(cfg, t, risk, j, share);
    }
  }

  /**
   All entries of one tick together risk at most the per-trade budget, for any number and mix of signals; with no
   positive budget there are none.
   */
  lemma TickRiskWithinBudget(cfg: RiskConfig, t: TickInput, risk: OrderIntent -> real, total: real)
    requires t.Mid() > 0.0
    requires forall j :: 0 <= j < |t.signals| ==> WithinUnit(t.signals[j])
    requires forall i :: risk(i) == RiskOf(i, t.book, t.Mid())
    requires total == EntryRiskTotal(OrdersFrom(Decisions(cfg, t), 0), risk)
    ensures 0.0 <= total <= Max(0.0, RiskBudget(cfg, t.equity))
  {
    var share := BudgetInShares(cfg, t);
    EntriesAreWithinShare(cfg, t, risk, share);
    TotalWithinShares(cfg, t, risk, share, total);
  }

  lemma BudgetInShares(cfg: RiskConfig, t: TickInput) returns (share: real)
    ensures share == ShareOf(cfg, t) && share >= 0.0
    ensures SharesFrom(t.signals, share, 0) <= Max(0.0, RiskBudget(cfg, t.equity))
  {
    share := ShareOf(cfg, t);
    SharesAreMultiple(t.signals, share, 0);
    SharesMakeBudget(ActiveFrom(t.signals, 0), RiskBudget(cfg, t.equity), share);
  }

  lemma TotalWithinShares(cfg: RiskConfig, t: TickInput, risk: OrderIntent -> real, share: real, total: real)
    requires share >= 0.0 && EntriesWithinShare(cfg, t, risk, share)
    requires total == EntryRiskTotal(OrdersFrom(Decisions(cfg, t), 0), risk)
    ensures 0.0 <= total <= SharesFrom(t.signals, share, 0)
  {
    SharesAddUp(t.signals, Decisions(cfg, t), risk, share, 0);
  }

  lemma SharesMakeBudget(active: nat, budget: real, share: real)
    requires share == Max(0.0, budget * Scale(active))
    ensures active as real * share <= Max(0.0, budget)
  {
    var scale := Scale(active);
    if budget > 0.0 {
      ProductPositive(budget, scale, budget * scale);
      if active > 0 {
        assert scale * active as real == 1.0;
        assert budget * scale * active as real == budget;
      }
    } else {
      ScaleBound(scale, budget, 0.0);
    }
  }
}
