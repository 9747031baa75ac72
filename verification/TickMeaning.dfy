/**
 Which signals of a tick become orders, and which orders those are, said without the decision functions of `Tick`
 (internal/app/runner.go, lines 463-577, and internal/app/exits.go, lines 24-33 and 96-159).
 */
module TickMeaning {
  import opened Types
  import opened RealMath
  import opened RiskGate
  import opened Sizing
  import opened Tick

  // ---------- shares and positions ----------

  ghost predicate CouldTrade(s: Signal) {
    s.confidence > 0.0 && Abs(s.direction) >= 1e-8
  }

  ghost function TradersFrom(sigs: seq<Signal>, k: nat): set<nat> {
    set j: nat | k <= j < |sigs| && CouldTrade(sigs[j])
  }

  /** The count that shares the budget is the number of signals that could trade. */
  lemma {:induction false} ActiveIsCount(sigs: seq<Signal>, k: nat)
    requires k <= |sigs|
    ensures ActiveFrom(sigs, k) == |TradersFrom(sigs, k)|
    decreases |sigs| - k
  {
    if k < |sigs| {
      ActiveIsCount(sigs, k + 1);
      var rest := TradersFrom(sigs, k + 1);
      assert TradersFrom(sigs, k) == if CouldTrade(sigs[k]) then rest + {k} else rest;
    } else {
      assert TradersFrom(sigs, k) == {};
    }
  }

  /** Each of them gets an equal share, and the shares make up the whole. */
  lemma ScaleIsShare(active: nat)
    ensures active > 0 ==> Scale(active) * active as real == 1.0
    ensures active == 0 ==> Scale(active) == 1.0
  {
  }

  /** A signal opposes a position exactly when they have opposite signs and neither is negligible. */
  lemma OpposesExactlyWhen(posQty: real, direction: real)
    ensures PositionOpposes(posQty, direction) <==>
            Abs(direction) >= 1e-12 && Abs(posQty) >= 1e-12 && posQty * direction < 0.0
  {
    if posQty > 0.0 {
      SignOfProduct(direction, posQty, direction * posQty);
      SignOfProduct(-direction, posQty, -direction * posQty);
    } else if posQty < 0.0 {
      SignOfProduct(direction, -posQty, direction * -posQty);
      SignOfProduct(-direction, -posQty, -direction * -posQty);
    }
  }

  // ---------- entries ----------

  /** Positions are looked up under the venue, PAPER when there is none, a colon and the symbol. */
  ghost predicate HeldUnder(key: string, ins: Instrument) {
    key == (if ins.venue == "" then "PAPER" else ins.venue) + ":" + ins.symbol
  }

  /** The signal meets a position of its instrument that it is to close rather than add to. */
  ghost predicate MeetsOpposite(cfg: RiskConfig, t: TickInput, k: nat, key: string)
    requires k < |t.signals|
  {
    var e, s := t.env(k), t.signals[k];
    && cfg.exitOnOppositeSignal && !e.halted && key in e.positions
    && Abs(s.direction) >= 1e-12 && Abs(e.positions[key]) >= 1e-12 && e.positions[key] * s.direction < 0.0
  }

  /** The gate lets an order pass, as it stands and in this book. */
  ghost predicate GatePasses(cfg: RiskConfig, alarms: Alarms, i: OrderIntent, book: BookTop, equity: real, ref: real) {
    && !alarms.killSwitch && !alarms.hardDrawdown && equity > 0.0 && ref > 0.0
    && (MustAttachExits(cfg, i.instrument) ==> i.stopLossPrice > 0.0 && i.takeProfitPrice > 0.0)
    && (i.stopLossPrice > 0.0 ==> ExitsFit(i.side, ref, i.stopLossPrice, i.takeProfitPrice))
    && SizeFits(cfg, i, equity, ref) && MarketFits(cfg, i, book)
  }

  /** The signal can be sized. */
  ghost predicate CanBeSized(cfg: RiskConfig, t: TickInput, s: Signal, price: real) {
    && CouldTrade(s)
    && (MustAttachExits(cfg, s.instrument) ==> s.stopLossPrice > 0.0 && s.takeProfitPrice > 0.0)
    && t.equity > 0.0 && cfg.maxRiskPerTradePct > 0.0
    && (s.stopLossPrice > 0.0 ==> Abs(price - s.stopLossPrice) >= 1e-12)
  }

  /** The order it is sized into. */
  ghost predicate SizedInto(cfg: RiskConfig, t: TickInput, k: nat, i: OrderIntent)
    requires k < |t.signals|
  {
    SizeEntry(cfg, t.signals[k], t.book, t.Mid(), t.equity, Scale(ActiveFrom(t.signals, 0))) == Some(i)
  }

  lemma SizedExactlyWhen(cfg: RiskConfig, t: TickInput, k: nat, price: real)
    requires k < |t.signals| && t.Mid() > 0.0 && EntryPrice(t.signals[k], t.book, t.Mid(), price)
    ensures (exists i :: SizedInto(cfg, t, k, i)) <==> CanBeSized(cfg, t, t.signals[k], price)
  {
    var s, scale := t.signals[k], Scale(ActiveFrom(t.signals, 0));
    EntrySizedExactlyWhen(cfg, s, t.book, t.Mid(), t.equity, scale, price);
    var sized := SizeEntry(cfg, s, t.book, t.Mid(), t.equity, scale);
    if sized.Some? {
      assert SizedInto(cfg, t, k, sized.value);
    }
  }

  /** An exit is reduce-only and a sized entry is not. */
  lemma KindsOfOrders(cfg: RiskConfig, t: TickInput, k: nat, ins: Instrument, reason: string, i: OrderIntent)
    requires k < |t.signals|
    ensures ExitOrder(cfg, t, k, ins, reason) == Some(i) ==> i.reduceOnly
    ensures SizedInto(cfg, t, k, i) ==> !i.reduceOnly
  {
  }

  lemma OppositeIsMet(cfg: RiskConfig, t: TickInput, k: nat, key: string)
    requires k < |t.signals| && HeldUnder(key, t.signals[k].instrument)
    ensures ExitsOnOpposite(cfg, t, k) <==> MeetsOpposite(cfg, t, k, key)
  {
    if key in t.env(k).positions {
      OpposesExactlyWhen(t.env(k).positions[key], t.signals[k].direction);
    }
  }

  /**
   Exactly when a signal's entry is placed: the loop is not paused, the signal neither flattens nor meets an opposite
   position, it is sized into that order, no alarm is on, and the gate lets the order pass.
   */
  lemma EntryPlacedExactlyWhen(cfg: RiskConfig, t: TickInput, k: nat, i: OrderIntent, key: string, ref: real)
    requires k < |t.signals| && !i.reduceOnly && HeldUnder(key, t.signals[k].instrument)
    requires ref == if t.signals[k].direction < 0.0 then t.book.bidPrice else t.book.askPrice
    ensures DecisionFor(cfg, t, k) == Place(i) <==>
            && !t.signals[k].flatten && !t.env(k).paused && !MeetsOpposite(cfg, t, k, key)
            && SizedInto(cfg, t, k, i)
            && !t.env(k).alarms.killSwitch && !t.env(k).alarms.hardDrawdown
            && GatePasses(cfg, t.env(k).gateAlarms, i, t.book, t.equity, ref)
  {
    OppositeIsMet(cfg, t, k, key);
    KindsOfOrders(cfg, t, k, t.signals[k].instrument, "flatten_signal", i);
    KindsOfOrders(cfg, t, k, t.signals[k].instrument, "opposite_signal", i);
    if SizedInto(cfg, t, k, i) {
      GateOfSized(cfg, t, k, i, ref);
    }
  }

  lemma GateOfSized(cfg: RiskConfig, t: TickInput, k: nat, i: OrderIntent, ref: real)
    requires k < |t.signals| && SizedInto(cfg, t, k, i)
    requires ref == if t.signals[k].direction < 0.0 then t.book.bidPrice else t.book.askPrice
    ensures PreTrade(cfg, t.env(k).gateAlarms, i, t.book, t.equity) == None <==>
            GatePasses(cfg, t.env(k).gateAlarms, i, t.book, t.equity, ref)
  {
    EntrySaysWhatSignalSays(cfg, t.signals[k], t.book, t.Mid(), t.equity, Scale(ActiveFrom(t.signals, 0)), i);
    EntryAcceptedExactlyWhen(cfg, t.env(k).gateAlarms, i, t.book, t.equity, ref);
  }

  // ---------- exits ----------

  /** An order that closes a position found in a snapshot. */
  ghost predicate Closes(i: OrderIntent, cfg: RiskConfig, ins: Instrument, qty: real, strategyID: string) {
    && i.instrument == ins && i.strategyID == strategyID && i.orderType == Market && i.reduceOnly
    && i.side == (if qty < 0.0 then Buy else Sell) && i.quantity == Abs(qty)
    && i.limitPrice == 0.0 && i.stopLossPrice == 0.0 && i.takeProfitPrice == 0.0
    && i.maxSlippageBps == cfg.maxSlippageBpsDefault
  }

  /** What an exit meets when it is built. */
  ghost predicate ExitGoesOut(cfg: RiskConfig, e: Env, key: string, i: OrderIntent) {
    && !e.exitHalted && key in e.exitPositions && Abs(e.exitPositions[key]) >= 1e-9 && e.exitBook.Some?
    && !e.exitAlarms.killSwitch && !e.exitAlarms.hardDrawdown
    && !e.exitGateAlarms.killSwitch && !e.exitGateAlarms.hardDrawdown && MarketFits(cfg, i, e.exitBook.value)
  }

  lemma ExitOrderExactlyWhen(cfg: RiskConfig, t: TickInput, k: nat, ins: Instrument, reason: string, i: OrderIntent,
                             key: string)
    requires HeldUnder(key, ins)
    ensures ExitOrder(cfg, t, k, ins, reason) == Some(i) <==>
            && ExitGoesOut(cfg, t.env(k), key, i)
            && Closes(i, cfg, ins, t.env(k).exitPositions[key], "exit_" + reason)
  {
    var e := t.env(k);
    if key in e.exitPositions && e.exitBook.Some? {
      var qty := e.exitPositions[key];
      var built := OrderIntent("exit_" + reason, ins, if qty < 0.0 then Buy else Sell, Market, Abs(qty), 0.0, true,
                               cfg.maxSlippageBpsDefault, 0.0, 0.0);
      ExitAcceptedExactlyWhen(cfg, e.exitGateAlarms, built, e.exitBook.value, e.exitEquity);
    }
  }

  /** The loop's own snapshot holds a position that is not negligible. */
  ghost predicate SeesPosition(e: Env, key: string) {
    !e.halted && key in e.positions && Abs(e.positions[key]) >= 1e-9
  }

  /**
   Exactly when a flattening signal's exit is placed: the loop sees a position of its instrument, and the exit goes
   out.
   */
  lemma FlattenPlacedExactlyWhen(cfg: RiskConfig, t: TickInput, k: nat, i: OrderIntent, key: string, e: Env, s: Signal)
    requires k < |t.signals| && i.reduceOnly && e == t.env(k) && s == t.signals[k] && s.flatten
    requires HeldUnder(key, s.instrument)
    ensures DecisionFor(cfg, t, k) == Place(i) <==>
            && SeesPosition(e, key) && ExitGoesOut(cfg, e, key, i)
            && Closes(i, cfg, s.instrument, e.exitPositions[key], "exit_flatten_signal")
  {
    FlattenDecision(cfg, t, k, i, s.instrument, key);
    ExitOrderExactlyWhen(cfg, t, k, s.instrument, "flatten_signal", i, key);
  }

  /** Any other signal's: the loop is not paused, the signal meets an opposite position, and the exit goes out. */
  lemma OppositePlacedExactlyWhen(cfg: RiskConfig, t: TickInput, k: nat, i: OrderIntent, key: string, e: Env, s: Signal)
    requires k < |t.signals| && i.reduceOnly && e == t.env(k) && s == t.signals[k] && !s.flatten
    requires HeldUnder(key, s.instrument)
    ensures DecisionFor(cfg, t, k) == Place(i) <==>
            && !e.paused && MeetsOpposite(cfg, t, k, key)
            && ExitGoesOut(cfg, e, key, i)
            && Closes(i, cfg, s.instrument, e.exitPositions[key], "exit_opposite_signal")
  {
    OppositeDecision(cfg, t, k, i, s.instrument, key);
    ExitOrderExactlyWhen(cfg, t, k, s.instrument, "opposite_signal", i, key);
  }

  /** A reduce-only decision comes from one of the two exits. */
  lemma FlattenDecision(cfg: RiskConfig, t: TickInput, k: nat, i: OrderIntent, ins: Instrument, key: string)
    requires k < |t.signals| && t.signals[k].flatten && ins == t.signals[k].instrument && HeldUnder(key, ins)
    ensures DecisionFor(cfg, t, k) == Place(i) <==>
            SeesPosition(t.env(k), key) && ExitOrder(cfg, t, k, ins, "flatten_signal") == Some(i)
  {
  }

  lemma OppositeDecision(cfg: RiskConfig, t: TickInput, k: nat, i: OrderIntent, ins: Instrument, key: string)
    requires k < |t.signals| && i.reduceOnly && !t.signals[k].flatten && ins == t.signals[k].instrument
    requires HeldUnder(key, ins)
    ensures DecisionFor(cfg, t, k) == Place(i) <==>
            !t.env(k).paused && MeetsOpposite(cfg, t, k, key) && ExitOrder(cfg, t, k, ins, "opposite_signal") == Some(i)
  {
    OppositeIsMet(cfg, t, k, key);
    KindsOfOrders(cfg, t, k, ins, "opposite_signal", i);
  }

  /** The loop ends at a signal exactly when it is paused there and the signal does not flatten. */
  lemma LoopEndsExactlyWhen(cfg: RiskConfig, t: TickInput, k: nat)
    requires k < |t.signals|
    ensures DecisionFor(cfg, t, k) == Halt <==> t.env(k).paused && !t.signals[k].flatten
  {
  }

  // ---------- the orders of a tick ----------

  /** The loop gets to signal `j`: it ends at none before. */
  ghost predicate Reached(ds: seq<Decision>, k: nat, j: nat) {
    j < |ds| && forall m :: k <= m < j ==> !ds[m].Halt?
  }

  ghost predicate AllPlaced(ds: seq<Decision>, k: nat, at: seq<nat>, orders: seq<OrderIntent>) {
    && |at| == |orders|
    && forall m :: 0 <= m < |at| ==> k <= at[m] && Reached(ds, k, at[m]) && ds[at[m]] == Place(orders[m])
  }

  ghost predicate Increasing(at: seq<nat>) {
    forall m, n :: 0 <= m < n < |at| ==> at[m] < at[n]
  }

  ghost predicate NoneMissed(ds: seq<Decision>, k: nat, at: seq<nat>) {
    forall j: nat :: k <= j && Reached(ds, k, j) && ds[j].Place? ==> j in at
  }

  /** The tick's orders are those of the signals that place one before the loop ends, each once, in signal order. */
  lemma {:induction false} OrdersAreThePlaced(ds: seq<Decision>, k: nat) returns (at: seq<nat>)
    requires k <= |ds|
    ensures AllPlaced(ds, k, at, OrdersFrom(ds, k)) && Increasing(at) && NoneMissed(ds, k, at)
    decreases |ds| - k
  {
    if k == |ds| || ds[k].Halt? {
      at := [];
    } else {
      var rest := OrdersAreThePlaced(ds, k + 1);
      at := if ds[k].Place? then [k] + rest else rest;
      PlacedFromNext(ds, k, rest, OrdersFrom(ds, k + 1), at);
      StillIncreasing(ds, k, rest, OrdersFrom(ds, k + 1), at);
      StillNoneMissed(ds, k, rest, at);
    }
  }

  lemma ReachedFromNext(ds: seq<Decision>, k: nat, j: nat)
    requires k < |ds| && !ds[k].Halt? && k < j
    ensures Reached(ds, k, j) <==> Reached(ds, k + 1, j)
  {
  }

  lemma PlacedFromNext(ds: seq<Decision>, k: nat, rest: seq<nat>, orders: seq<OrderIntent>, at: seq<nat>)
    requires k < |ds| && !ds[k].Halt? && AllPlaced(ds, k + 1, rest, orders)
    requires at == if ds[k].Place? then [k] + rest else rest
    ensures AllPlaced(ds, k, at, if ds[k].Place? then [ds[k].order] + orders else orders)
  {
    PlacedFurther(ds, k, rest, orders);
    if ds[k].Place? {
      PlacedFirst(ds, k, rest, orders);
    }
  }

  lemma PlacedFurther(ds: seq<Decision>, k: nat, rest: seq<nat>, orders: seq<OrderIntent>)
    requires k < |ds| && !ds[k].Halt? && AllPlaced(ds, k + 1, rest, orders)
    ensures AllPlaced(ds, k, rest, orders)
  {
    forall m | 0 <= m < |rest| ensures Reached(ds, k, rest[m]) {
      ReachedFromNext(ds, k, rest[m]);
    }
  }

  lemma PlacedFirst(ds: seq<Decision>, k: nat, rest: seq<nat>, orders: seq<OrderIntent>)
    requires k < |ds| && ds[k].Place? && AllPlaced(ds, k, rest, orders)
    ensures AllPlaced(ds, k, [k] + rest, [ds[k].order] + orders)
  {
  }

  lemma StillIncreasing(ds: seq<Decision>, k: nat, rest: seq<nat>, orders: seq<OrderIntent>, at: seq<nat>)
    requires AllPlaced(ds, k + 1, rest, orders) && Increasing(rest)
    requires k < |ds| && at == if ds[k].Place? then [k] + rest else rest
    ensures Increasing(at)
  {
  }

  lemma StillNoneMissed(ds: seq<Decision>, k: nat, rest: seq<nat>, at: seq<nat>)
    requires k < |ds| && !ds[k].Halt? && NoneMissed(ds, k + 1, rest) && at == if ds[k].Place? then [k] + rest else rest
    ensures NoneMissed(ds, k, at)
  {
    forall j: nat | k <= j && Reached(ds, k, j) && ds[j].Place? ensures j in at {
      if j > k {
        ReachedFromNext(ds, k, j);
        assert j in rest;
      }
    }
  }
}
