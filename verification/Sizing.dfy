/** From one signal to an entry order (internal/app/runner.go, lines 500-563), measured against the pre-trade gate. */
module Sizing {
  import opened Types
  import opened RealMath
  import opened RiskGate

  // ---------- one signal ----------

  predicate Active(s: Signal) {
    s.confidence > 0.0 && Abs(s.direction) >= 1e-8
  }

  /** The strategies' contract for the two fields that scale a trade. */
  predicate WithinUnit(s: Signal) {
    Abs(s.direction) <= 1.0 && s.confidence <= 1.0
  }

  function SideOf(s: Signal): Side {
    if s.direction < 0.0 then Sell else Buy
  }

  /** The price the sizing is done at: the side's own, or the mid when that is missing. */
  function SizingPrice(s: Signal, book: BookTop, mid: real): real {
    var ref := Reference(SideOf(s), book);
    if ref <= 0.0 then mid else ref
  }

  /** What one unit of the entry puts at risk: the distance to the stop, or the whole mid price without one. */
  function RiskPerUnit(s: Signal, book: BookTop, mid: real): real {
    if s.stopLossPrice > 0.0 then Abs(SizingPrice(s, book, mid) - s.stopLossPrice) else mid
  }

  function Scaled(q: real, s: Signal, scale: real): real {
    q * Abs(s.direction) * s.confidence * scale
  }

  function UncappedQty(cfg: RiskConfig, s: Signal, book: BookTop, mid: real, equity: real, scale: real): real {
    if s.stopLossPrice > 0.0
    then Scaled(MaxQtyFromStop(cfg, SizingPrice(s, book, mid), s.stopLossPrice, equity), s, scale)
    else Scaled(MaxQtyFromRisk(cfg, mid, equity), s, scale)
  }

  function CapQty(cfg: RiskConfig, price: real, equity: real): real
    requires price > 0.0
  {
    equity * (cfg.maxNotionalPerTradePct / 100.0) / price
  }

  function CappedQty(cfg: RiskConfig, s: Signal, book: BookTop, mid: real, equity: real, scale: real): real {
    var q, price := UncappedQty(cfg, s, book, mid, equity, scale), SizingPrice(s, book, mid);
    if cfg.maxNotionalPerTradePct > 0.0 && price > 0.0 && equity > 0.0 && CapQty(cfg, price, equity) > 0.0
    then Min(q, CapQty(cfg, price, equity))
    else q
  }

  /** The order an entry signal is sized into, if any. */
  function SizeEntry(cfg: RiskConfig, s: Signal, book: BookTop, mid: real, equity: real,
                     scale: real): Option<OrderIntent>
  {
    if !Active(s) then None
    else if MustAttachExits(cfg, s.instrument) && (s.stopLossPrice <= 0.0 || s.takeProfitPrice <= 0.0) then None
    else if s.stopLossPrice > 0.0 && RiskPerUnit(s, book, mid) < 1e-12 then None
    else
      var q := CappedQty(cfg, s, book, mid, equity, scale);
      if q <= 0.0 then None
      else Some(OrderIntent(s.strategyID, s.instrument, SideOf(s), Market, q, 0.0, false,
                            cfg.maxSlippageBpsDefault, s.stopLossPrice, s.takeProfitPrice))
  }

  // ---------- arithmetic of one entry ----------

  /** Scaling a quotient by at most `scale` leaves at most that share of the dividend. */
  lemma ScaledQuotient(budget: real, u: real, d: real, c: real, scale: real, q: real)
    requires u > 0.0 && 0.0 <= d <= 1.0 && 0.0 < c <= 1.0 && 0.0 < scale
    requires 0.0 < q <= budget / u * d * c * scale
    ensures budget > 0.0
    ensures q * u <= budget * scale
  {
    var base, k := budget / u, d * c * scale;
    FactorAtMostScale(d, c, scale, k);
    assert base * u == budget;
    assert q <= base * k by {
      assert base * d * c * scale == base * k;
    }
    PositiveBase(base, k);
    ProductPositive(base, u, budget);
    ScaleBound(base, k, scale);
    ScaleBound(u, q, base * scale);
    assert u * (base * scale) == budget * scale;
  }

  lemma FactorAtMostScale(d: real, c: real, scale: real, k: real)
    requires 0.0 <= d <= 1.0 && 0.0 < c <= 1.0 && 0.0 < scale && k == d * c * scale
    ensures 0.0 <= k <= scale
  {
    var dc := d * c;
    ScaledOrder(c, 0.0, d, 0.0, dc);
    ScaledOrder(c, d, 1.0, dc, c);
    ScaledOrder(scale, 0.0, dc, 0.0, k);
    ScaledOrder(scale, dc, 1.0, k, scale);
  }

  lemma PositiveBase(base: real, k: real)
    requires k >= 0.0 && base * k > 0.0
    ensures base > 0.0
  {
    if base <= 0.0 {
      ScaleBound(k, base, 0.0);
    }
  }

  /** An entry risks at most its share of the budget. */
  lemma EntryRisk(cfg: RiskConfig, s: Signal, book: BookTop, mid: real, equity: real, scale: real)
    requires mid > 0.0 && scale > 0.0 && WithinUnit(s)
    requires SizeEntry(cfg, s, book, mid, equity, scale).Some?
    ensures equity > 0.0 && RiskBudget(cfg, equity) > 0.0
    ensures SizeEntry(cfg, s, book, mid, equity, scale).value.quantity * RiskPerUnit(s, book, mid)
         <= RiskBudget(cfg, equity) * scale
  {
    var q, u := SizeEntry(cfg, s, book, mid, equity, scale).value.quantity, RiskPerUnit(s, book, mid);
    SizedQuantity(cfg, s, book, mid, equity, scale);
    ScaledQuotient(RiskBudget(cfg, equity), u, Abs(s.direction), s.confidence, scale, q);
  }

  /** A sized entry has positive equity behind it, and no more than the scaled budget buys. */
  lemma SizedQuantity(cfg: RiskConfig, s: Signal, book: BookTop, mid: real, equity: real, scale: real)
    requires mid > 0.0 && SizeEntry(cfg, s, book, mid, equity, scale).Some?
    ensures equity > 0.0 && RiskPerUnit(s, book, mid) > 0.0
    ensures 0.0 < SizeEntry(cfg, s, book, mid, equity, scale).value.quantity
         <= Scaled(RiskBudget(cfg, equity) / RiskPerUnit(s, book, mid), s, scale)
  {
    if equity <= 0.0 {
      ZeroScaled(s, scale);
    }
  }

  lemma ZeroScaled(s: Signal, scale: real)
    ensures Scaled(0.0, s, scale) == 0.0
  {
  }

  /** A quantity within two bounds, the second only if there is a cap, that reaches one of them. */
  predicate ReachesBound(q: real, u: real, part: real, capped: bool, price: real, limit: real) {
    && q * u <= part && (capped ==> q * price <= limit)
    && (q * u == part || (capped && q * price == limit))
  }

  /** What the size comes to, exactly: the signal's part of the budget, or less when the notional cap binds. */
  lemma EntrySpendsItsPart(cfg: RiskConfig, s: Signal, book: BookTop, mid: real, equity: real, scale: real, q: real)
    requires mid > 0.0 && SizeEntry(cfg, s, book, mid, equity, scale).Some?
    requires q == SizeEntry(cfg, s, book, mid, equity, scale).value.quantity
    ensures ReachesBound(q, RiskPerUnit(s, book, mid), Scaled(RiskBudget(cfg, equity), s, scale),
                         cfg.maxNotionalPerTradePct > 0.0, SizingPrice(s, book, mid), NotionalLimit(cfg, equity))
  {
    SizedQuantity(cfg, s, book, mid, equity, scale);
    if cfg.maxNotionalPerTradePct > 0.0 {
      CapIsPositive(cfg, SizingPrice(s, book, mid), equity);
    }
    SmallerSpends(cfg, s, equity, scale, RiskPerUnit(s, book, mid), SizingPrice(s, book, mid), q);
  }

  lemma SmallerSpends(cfg: RiskConfig, s: Signal, equity: real, scale: real, u: real, price: real, q: real)
    requires u > 0.0 && price > 0.0
    requires var base := Scaled(RiskBudget(cfg, equity) / u, s, scale);
             q == if cfg.maxNotionalPerTradePct > 0.0 then Min(base, CapQty(cfg, price, equity)) else base
    ensures ReachesBound(q, u, Scaled(RiskBudget(cfg, equity), s, scale), cfg.maxNotionalPerTradePct > 0.0, price,
                         NotionalLimit(cfg, equity))
  {
    var part, base := Scaled(RiskBudget(cfg, equity), s, scale), Scaled(RiskBudget(cfg, equity) / u, s, scale);
    ScaledBack(RiskBudget(cfg, equity), u, s, scale);
    if cfg.maxNotionalPerTradePct > 0.0 {
      CapSpendsLimit(cfg, price, equity);
      SmallerOfTwo(base, CapQty(cfg, price, equity), u, price, q, part, NotionalLimit(cfg, equity));
    }
  }

  function NotionalLimit(cfg: RiskConfig, equity: real): real {
    equity * (cfg.maxNotionalPerTradePct / 100.0)
  }

  lemma ScaledBack(budget: real, u: real, s: Signal, scale: real)
    requires u > 0.0
    ensures Scaled(budget / u, s, scale) * u == Scaled(budget, s, scale)
  {
    var base, d, c := budget / u, Abs(s.direction), s.confidence;
    assert base * u == budget;
    assert base * d * c * scale * u == (base * u) * d * c * scale;
  }

  lemma CapSpendsLimit(cfg: RiskConfig, price: real, equity: real)
    requires price > 0.0
    ensures CapQty(cfg, price, equity) * price == NotionalLimit(cfg, equity)
  {
  }

  lemma SmallerOfTwo(a: real, b: real, u: real, price: real, q: real, part: real, limit: real)
    requires u > 0.0 && price > 0.0 && q == Min(a, b) && a * u == part && b * price == limit
    ensures ReachesBound(q, u, part, true, price, limit)
  {
    ScaleBound(u, q, a);
    ScaleBound(price, q, b);
  }

  // ---------- when there is an entry, and what it says ----------

  /** The price an entry is measured from: its side of the book, or the mid when that is missing. */
  ghost predicate EntryPrice(s: Signal, book: BookTop, mid: real, price: real) {
    price == if s.direction < 0.0 then (if book.bidPrice > 0.0 then book.bidPrice else mid)
             else (if book.askPrice > 0.0 then book.askPrice else mid)
  }

  lemma EntryPriceIsSizing(s: Signal, book: BookTop, mid: real, price: real)
    requires EntryPrice(s, book, mid, price)
    ensures price == SizingPrice(s, book, mid)
    ensures RiskPerUnit(s, book, mid) == if s.stopLossPrice > 0.0 then Abs(price - s.stopLossPrice) else mid
  {
  }

  lemma ScaledPositiveIff(base: real, s: Signal, scale: real)
    requires s.confidence > 0.0 && Abs(s.direction) >= 1e-8 && scale > 0.0
    ensures Scaled(base, s, scale) > 0.0 <==> base > 0.0
  {
    var d, c := Abs(s.direction), s.confidence;
    SignOfProduct(base, d, base * d);
    SignOfProduct(base * d, c, base * d * c);
    SignOfProduct(base * d * c, scale, base * d * c * scale);
  }

  lemma BudgetBuysIff(cfg: RiskConfig, equity: real, u: real)
    requires equity > 0.0 && u > 0.0
    ensures RiskBudget(cfg, equity) / u > 0.0 <==> cfg.maxRiskPerTradePct > 0.0
  {
    var r, b := cfg.maxRiskPerTradePct / 100.0, RiskBudget(cfg, equity);
    SignOfProduct(r, equity, r * equity);
    SignOfProduct(b / u, u, b);
  }

  lemma UncappedPositiveIff(cfg: RiskConfig, s: Signal, book: BookTop, mid: real, equity: real, scale: real)
    requires mid > 0.0 && scale > 0.0 && s.confidence > 0.0 && Abs(s.direction) >= 1e-8
    requires s.stopLossPrice > 0.0 ==> RiskPerUnit(s, book, mid) >= 1e-12
    ensures UncappedQty(cfg, s, book, mid, equity, scale) > 0.0 <==> equity > 0.0 && cfg.maxRiskPerTradePct > 0.0
  {
    var u := RiskPerUnit(s, book, mid);
    if equity > 0.0 {
      BudgetBuysIff(cfg, equity, u);
      ScaledPositiveIff(RiskBudget(cfg, equity) / u, s, scale);
    } else {
      ZeroScaled(s, scale);
    }
  }

  lemma CappedPositiveIff(cfg: RiskConfig, s: Signal, book: BookTop, mid: real, equity: real, scale: real)
    requires mid > 0.0
    ensures CappedQty(cfg, s, book, mid, equity, scale) > 0.0 <==> UncappedQty(cfg, s, book, mid, equity, scale) > 0.0
  {
  }

  /**
   Exactly when a signal becomes an entry order: it is active, the exits its venue needs are there, equity and the risk
   percentage are positive, and a stop is at least 1e-12 away.
   */
  lemma EntrySizedExactlyWhen(cfg: RiskConfig, s: Signal, book: BookTop, mid: real, equity: real, scale: real,
                              price: real)
    requires mid > 0.0 && scale > 0.0 && EntryPrice(s, book, mid, price)
    ensures SizeEntry(cfg, s, book, mid, equity, scale).Some? <==>
            && s.confidence > 0.0 && Abs(s.direction) >= 1e-8
            && (MustAttachExits(cfg, s.instrument) ==> s.stopLossPrice > 0.0 && s.takeProfitPrice > 0.0)
            && equity > 0.0 && cfg.maxRiskPerTradePct > 0.0
            && (s.stopLossPrice > 0.0 ==> Abs(price - s.stopLossPrice) >= 1e-12)
  {
    EntryPriceIsSizing(s, book, mid, price);
    CappedPositiveIff(cfg, s, book, mid, equity, scale);
    if s.confidence > 0.0 && Abs(s.direction) >= 1e-8
       && (s.stopLossPrice > 0.0 ==> RiskPerUnit(s, book, mid) >= 1e-12) {
      UncappedPositiveIff(cfg, s, book, mid, equity, scale);
    }
  }

  /** Everything an entry order says, apart from its size, is the signal's, or what the configuration sets. */
  lemma EntrySaysWhatSignalSays(cfg: RiskConfig, s: Signal, book: BookTop, mid: real, equity: real, scale: real,
                                i: OrderIntent)
    requires SizeEntry(cfg, s, book, mid, equity, scale) == Some(i)
    ensures i.strategyID == s.strategyID && i.instrument == s.instrument && i.orderType == Market && !i.reduceOnly
    ensures i.side == if s.direction < 0.0 then Sell else Buy
    ensures i.stopLossPrice == s.stopLossPrice && i.takeProfitPrice == s.takeProfitPrice
    ensures i.limitPrice == 0.0 && i.maxSlippageBps == cfg.maxSlippageBpsDefault
  {
  }

  /**
   A quantity spends at most a part of a hundredth of `dividend`, and of a cap if there is one, and all of one of them.
   */
  predicate Spends(q: real, u: real, dividend: real, capped: bool, price: real, limit: real) {
    && 100.0 * (q * u) <= dividend && (capped ==> 100.0 * (q * price) <= limit)
    && (100.0 * (q * u) == dividend || (capped && 100.0 * (q * price) == limit))
  }

  /** Its size, in the configuration's own terms. */
  lemma EntrySizeInTerms(cfg: RiskConfig, s: Signal, book: BookTop, mid: real, equity: real, scale: real, price: real,
                         u: real, q: real)
    requires mid > 0.0 && EntryPrice(s, book, mid, price)
    requires u == if s.stopLossPrice > 0.0 then Abs(price - s.stopLossPrice) else mid
    requires SizeEntry(cfg, s, book, mid, equity, scale).Some?
    requires q == SizeEntry(cfg, s, book, mid, equity, scale).value.quantity
    ensures Spends(q, u, equity * cfg.maxRiskPerTradePct * Abs(s.direction) * s.confidence * scale,
                   cfg.maxNotionalPerTradePct > 0.0, price, equity * cfg.maxNotionalPerTradePct)
  {
    EntryPriceIsSizing(s, book, mid, price);
    EntrySpendsItsPart(cfg, s, book, mid, equity, scale, q);
    PartInTerms(cfg, equity, s, scale);
    BoundInTerms(q, u, Scaled(RiskBudget(cfg, equity), s, scale), cfg.maxNotionalPerTradePct > 0.0, price,
                 NotionalLimit(cfg, equity), equity * cfg.maxRiskPerTradePct * Abs(s.direction) * s.confidence * scale,
                 equity * cfg.maxNotionalPerTradePct);
  }

  lemma PartInTerms(cfg: RiskConfig, equity: real, s: Signal, scale: real)
    ensures 100.0 * Scaled(RiskBudget(cfg, equity), s, scale)
            == equity * cfg.maxRiskPerTradePct * Abs(s.direction) * s.confidence * scale
    ensures 100.0 * NotionalLimit(cfg, equity) == equity * cfg.maxNotionalPerTradePct
  {
    HundredTimes(equity, cfg.maxRiskPerTradePct, Abs(s.direction), s.confidence, scale);
  }

  lemma HundredTimes(e: real, p: real, d: real, c: real, scale: real)
    ensures 100.0 * (e * (p / 100.0) * d * c * scale) == e * p * d * c * scale
  {
    var b := e * (p / 100.0);
    assert 100.0 * b == e * p;
    var x, y := b * d, b * d * c;
    assert 100.0 * x == e * p * d;
    assert 100.0 * y == e * p * d * c;
  }

  lemma BoundInTerms(q: real, u: real, part: real, capped: bool, price: real, limit: real, part': real, limit': real)
    requires ReachesBound(q, u, part, capped, price, limit) && part' == 100.0 * part && limit' == 100.0 * limit
    ensures Spends(q, u, part', capped, price, limit')
  {
  }

  // ---------- the sizer against the gate ----------

  lemma NotionalPctRises(ref: real, p: real, q: real, equity: real)
    requires equity > 0.0 && ref > 0.0
    ensures p <= q <==> NotionalPct(ref, p, equity) <= NotionalPct(ref, q, equity)
  {
    var k := ref / equity * 100.0;
    assert k > 0.0 by {
      var r := ref / equity;
      assert r * equity == ref;
      if r <= 0.0 {
        ScaleBound(equity, r, 0.0);
      }
    }
    assert NotionalPct(ref, p, equity) == k * p && NotionalPct(ref, q, equity) == k * q;
    if p < q {
      ProductPositive(k, q - p, k * (q - p));
      assert k * (q - p) == k * q - k * p;
    } else if q < p {
      ProductPositive(k, p - q, k * (p - q));
      assert k * (p - q) == k * p - k * q;
    }
  }

  /** The cap quantity sits exactly on the notional limit. */
  lemma NotionalPctOfCap(cfg: RiskConfig, price: real, equity: real)
    requires price > 0.0 && equity > 0.0
    ensures NotionalPct(price, CapQty(cfg, price, equity), equity) == cfg.maxNotionalPerTradePct
  {
    var m, cap := cfg.maxNotionalPerTradePct / 100.0, CapQty(cfg, price, equity);
    assert price * cap == equity * m;
    assert equity * m / equity == m;
  }

  /** A sized entry passes the notional test. */
  lemma SizedWithinNotional(cfg: RiskConfig, s: Signal, book: BookTop, mid: real, equity: real, scale: real)
    requires equity > 0.0 && Reference(SideOf(s), book) > 0.0
    requires SizeEntry(cfg, s, book, mid, equity, scale).Some?
    ensures var i := SizeEntry(cfg, s, book, mid, equity, scale).value;
            !NotionalTooLarge(cfg, i.quantity, equity, Reference(i.side, book))
  {
    var i, ref := SizeEntry(cfg, s, book, mid, equity, scale).value, Reference(SideOf(s), book);
    if cfg.maxNotionalPerTradePct > 0.0 {
      CapIsPositive(cfg, ref, equity);
      NotionalPctOfCap(cfg, ref, equity);
      NotionalPctRises(ref, i.quantity, CapQty(cfg, ref, equity), equity);
    }
  }

  lemma CapIsPositive(cfg: RiskConfig, price: real, equity: real)
    requires price > 0.0 && equity > 0.0 && cfg.maxNotionalPerTradePct > 0.0
    ensures CapQty(cfg, price, equity) > 0.0
  {
    var m, cap := cfg.maxNotionalPerTradePct / 100.0, CapQty(cfg, price, equity);
    ProductPositive(equity, m, equity * m);
    assert cap * price == equity * m;
    if cap <= 0.0 {
      ScaleBound(price, cap, 0.0);
    }
  }

  /** A stop-sized entry is never rejected for exposure, whatever else the gate says. */
  lemma StopSizedNeverOverexposed(cfg: RiskConfig, alarms: Alarms, s: Signal, book: BookTop, mid: real, equity: real,
                                  scale: real)
    requires mid > 0.0 && 0.0 < scale <= 1.0 && WithinUnit(s) && s.stopLossPrice > 0.0
    requires SizeEntry(cfg, s, book, mid, equity, scale).Some?
    ensures PreTrade(cfg, alarms, SizeEntry(cfg, s, book, mid, equity, scale).value, book, equity)
            != Some(ExposureLimit)
  {
    EntryRisk(cfg, s, book, mid, equity, scale);
    if Reference(SideOf(s), book) > 0.0 {
      SizedWithinNotional(cfg, s, book, mid, equity, scale);
      ScaleBound(RiskBudget(cfg, equity), scale, 1.0);
    }
  }

  /**
   The notional share of an uncapped, unstopped entry: the risk percentage times how far the reference exceeds the mid.
   */
  lemma NotionalPctOfRiskSized(cfg: RiskConfig, ref: real, mid: real, equity: real, d: real, c: real, scale: real,
                               k: real)
    requires mid > 0.0 && equity > 0.0 && k == d * c * scale
    ensures NotionalPct(ref, RiskBudget(cfg, equity) / mid * d * c * scale, equity) * mid
         == cfg.maxRiskPerTradePct * (ref * k)
  {
    var r, budget := cfg.maxRiskPerTradePct / 100.0, RiskBudget(cfg, equity);
    var base := budget / mid;
    assert base * mid == budget;
    var q := base * d * c * scale;
    assert q == base * k;
    var pct := NotionalPct(ref, q, equity);
    assert pct * equity == ref * q * 100.0 by {
      assert ref * q / equity * equity == ref * q;
    }
    assert pct * equity * mid == ref * k * 100.0 * budget by {
      assert q * mid == k * budget;
      assert ref * q * mid == ref * (k * budget);
    }
    CancelFactor(equity, pct * mid, cfg.maxRiskPerTradePct * (ref * k));
  }

  lemma CancelFactor(e: real, x: real, y: real)
    requires e > 0.0 && e * x == e * y
    ensures x == y
  {
    assert x == (e * x) / e && y == (e * y) / e;
  }

  lemma SameSide(r: real, x: real, mid: real, pct: real)
    requires r > 0.0 && mid > 0.0 && pct * mid == r * x
    ensures pct > r <==> x > mid
  {
    if x > mid {
      ProductPositive(r, x - mid, r * (x - mid));
      assert pct * mid > r * mid;
      if pct <= r {
        ScaleBound(mid, pct, r);
      }
    } else {
      ScaleBound(r, x, mid);
      if pct > r {
        ProductPositive(mid, pct - r, mid * (pct - r));
      }
    }
  }

  lemma BudgetIsPositive(cfg: RiskConfig, s: Signal, mid: real, equity: real, scale: real, k: real)
    requires mid > 0.0 && scale > 0.0 && k == Abs(s.direction) * s.confidence * scale
    requires Active(s) && Scaled(MaxQtyFromRisk(cfg, mid, equity), s, scale) > 0.0
    ensures equity > 0.0 && cfg.maxRiskPerTradePct > 0.0
  {
    if equity <= 0.0 {
      ZeroScaled(s, scale);
    }
    var base, r := RiskBudget(cfg, equity) / mid, cfg.maxRiskPerTradePct / 100.0;
    var dc := Abs(s.direction) * s.confidence;
    ProductPositive(Abs(s.direction), s.confidence, dc);
    ProductPositive(dc, scale, k);
    assert Scaled(base, s, scale) == base * k;
    PositiveBase(base, k);
    ProductPositive(base, mid, RiskBudget(cfg, equity));
    if r <= 0.0 {
      ScaleBound(equity, r, 0.0);
    }
  }

  /**
   What an unstopped entry is sized to: what the budget buys at the mid, or what the notional cap buys at the
   reference.
   */
  lemma UnstoppedQuantity(cfg: RiskConfig, s: Signal, book: BookTop, mid: real, equity: real, scale: real, ref: real,
                          i: OrderIntent, base: real)
    requires mid > 0.0 && s.stopLossPrice <= 0.0 && ref == Reference(SideOf(s), book) > 0.0
    requires SizeEntry(cfg, s, book, mid, equity, scale) == Some(i)
    requires base == Scaled(MaxQtyFromRisk(cfg, mid, equity), s, scale)
    ensures equity > 0.0 && base > 0.0 && Active(s)
    ensures i.quantity == if cfg.maxNotionalPerTradePct > 0.0 then Min(base, CapQty(cfg, ref, equity)) else base
  {
    if equity <= 0.0 {
      ZeroScaled(s, scale);
    } else if cfg.maxNotionalPerTradePct > 0.0 {
      CapIsPositive(cfg, ref, equity);
    }
  }

  /** The reference, scaled, exceeds the mid. */
  predicate ScaledAbove(ref: real, k: real, mid: real) {
    ref * k > mid
  }

  /** Its notional, measured against the risk percentage. */
  lemma UnstoppedPct(cfg: RiskConfig, s: Signal, mid: real, equity: real, scale: real, k: real, ref: real, base: real,
                     q: real)
    requires mid > 0.0 && scale > 0.0 && equity > 0.0 && ref > 0.0 && Active(s) && base > 0.0
    requires k == Abs(s.direction) * s.confidence * scale
    requires base == Scaled(MaxQtyFromRisk(cfg, mid, equity), s, scale)
    requires q == if cfg.maxNotionalPerTradePct > 0.0 then Min(base, CapQty(cfg, ref, equity)) else base
    ensures NotionalPct(ref, q, equity) > cfg.maxRiskPerTradePct <==>
            ScaledAbove(ref, k, mid)
            && (cfg.maxNotionalPerTradePct <= 0.0 || cfg.maxNotionalPerTradePct > cfg.maxRiskPerTradePct)
  {
    assert cfg.maxRiskPerTradePct > 0.0 by {
      BudgetIsPositive(cfg, s, mid, equity, scale, k);
    }
    var pct := NotionalPct(ref, base, equity);
    BasePct(cfg, s, mid, equity, scale, k, ref, base, pct);
    CappedPct(cfg, ref, base, q, equity);
  }

  lemma BasePct(cfg: RiskConfig, s: Signal, mid: real, equity: real, scale: real, k: real, ref: real, base: real,
                pct: real)
    requires mid > 0.0 && equity > 0.0 && cfg.maxRiskPerTradePct > 0.0
    requires k == Abs(s.direction) * s.confidence * scale
    requires base == Scaled(MaxQtyFromRisk(cfg, mid, equity), s, scale) && pct == NotionalPct(ref, base, equity)
    ensures pct > cfg.maxRiskPerTradePct <==> ScaledAbove(ref, k, mid)
  {
    var x := ref * k;
    NotionalPctOfRiskSized(cfg, ref, mid, equity, Abs(s.direction), s.confidence, scale, k);
    assert pct * mid == cfg.maxRiskPerTradePct * x;
    SameSide(cfg.maxRiskPerTradePct, x, mid, pct);
  }

  /**
   Exactly when an entry without a stop is rejected for exposure: the scaled reference price exceeds the mid it was
   sized at, and no notional cap at or below the risk percentage has already shrunk it.
   */
  lemma UnstoppedOverexposedIff(cfg: RiskConfig, alarms: Alarms, s: Signal, book: BookTop, mid: real, equity: real,
                                scale: real, k: real, ref: real)
    requires mid > 0.0 && scale > 0.0 && s.stopLossPrice <= 0.0
    requires k == Abs(s.direction) * s.confidence * scale && ref == Reference(SideOf(s), book)
    requires SizeEntry(cfg, s, book, mid, equity, scale).Some?
    ensures PreTrade(cfg, alarms, SizeEntry(cfg, s, book, mid, equity, scale).value, book, equity)
            == Some(ExposureLimit)
       <==> && !alarms.killSwitch && !alarms.hardDrawdown && ref > 0.0 && ScaledAbove(ref, k, mid)
            && (cfg.maxNotionalPerTradePct <= 0.0 || cfg.maxNotionalPerTradePct > cfg.maxRiskPerTradePct)
  {
    var i, base := SizeEntry(cfg, s, book, mid, equity, scale).value,
        Scaled(MaxQtyFromRisk(cfg, mid, equity), s, scale);
    UnstoppedFields(cfg, s, book, mid, equity, scale, i);
    if ref > 0.0 {
      UnstoppedQuantity(cfg, s, book, mid, equity, scale, ref, i, base);
      SizedWithinNotional(cfg, s, book, mid, equity, scale);
      UnstoppedPct(cfg, s, mid, equity, scale, k, ref, base, i.quantity);
    }
    GateOfUnstopped(cfg, alarms, i, book, equity, ref);
  }

  lemma UnstoppedFields(cfg: RiskConfig, s: Signal, book: BookTop, mid: real, equity: real, scale: real, i: OrderIntent)
    requires mid > 0.0 && s.stopLossPrice <= 0.0 && SizeEntry(cfg, s, book, mid, equity, scale) == Some(i)
    ensures equity > 0.0 && !i.reduceOnly && i.stopLossPrice <= 0.0 && i.side == SideOf(s)
    ensures !MustAttachExits(cfg, i.instrument)
  {
    SizedQuantity(cfg, s, book, mid, equity, scale);
  }

  /** The gate and an unstopped entry that keeps the notional cap. */
  lemma GateOfUnstopped(cfg: RiskConfig, alarms: Alarms, i: OrderIntent, book: BookTop, equity: real, ref: real)
    requires equity > 0.0 && !i.reduceOnly && i.stopLossPrice <= 0.0 && ref == Reference(i.side, book)
    requires !MustAttachExits(cfg, i.instrument)
    requires ref > 0.0 ==> !NotionalTooLarge(cfg, i.quantity, equity, ref)
    ensures PreTrade(cfg, alarms, i, book, equity) == Some(ExposureLimit) <==>
            && !alarms.killSwitch && !alarms.hardDrawdown && ref > 0.0
            && NotionalPct(ref, i.quantity, equity) > cfg.maxRiskPerTradePct
  {
  }

  lemma CappedPct(cfg: RiskConfig, ref: real, q: real, capped: real, equity: real)
    requires ref > 0.0 && equity > 0.0
    requires capped == if cfg.maxNotionalPerTradePct > 0.0 then Min(q, CapQty(cfg, ref, equity)) else q
    ensures NotionalPct(ref, capped, equity)
         == if cfg.maxNotionalPerTradePct > 0.0 then Min(NotionalPct(ref, q, equity), cfg.maxNotionalPerTradePct)
            else NotionalPct(ref, q, equity)
  {
    if cfg.maxNotionalPerTradePct > 0.0 {
      NotionalPctOfCap(cfg, ref, equity);
      NotionalPctRises(ref, q, CapQty(cfg, ref, equity), equity);
      NotionalPctRises(ref, CapQty(cfg, ref, equity), q, equity);
    }
  }

  /** So an unstopped sell on an uncrossed book never is. */
  lemma UnstoppedSellNeverOverexposed(cfg: RiskConfig, alarms: Alarms, s: Signal, book: BookTop, mid: real,
                                      equity: real, scale: real)
    requires mid > 0.0 && 0.0 < scale <= 1.0 && WithinUnit(s) && s.stopLossPrice <= 0.0 && SideOf(s) == Sell
    requires book.bidPrice <= book.askPrice && mid == (book.bidPrice + book.askPrice) / 2.0
    requires SizeEntry(cfg, s, book, mid, equity, scale).Some?
    ensures PreTrade(cfg, alarms, SizeEntry(cfg, s, book, mid, equity, scale).value, book, equity)
            != Some(ExposureLimit)
  {
    var k, ref := Abs(s.direction) * s.confidence * scale, book.bidPrice;
    FactorAtMostScale(Abs(s.direction), s.confidence, scale, k);
    UnstoppedOverexposedIff(cfg, alarms, s, book, mid, equity, scale, k, ref);
    if ref > 0.0 {
      NotAboveMid(ref, k, mid);
    }
  }

  lemma NotAboveMid(ref: real, k: real, mid: real)
    requires 0.0 < ref <= mid && k <= 1.0
    ensures !ScaledAbove(ref, k, mid)
  {
    ScaleBound(ref, k, 1.0);
  }

  /** But an unstopped buy can be: sized at the mid, it is gated at the ask. */
  lemma UnstoppedBuyCanBeOverexposed(cfg: RiskConfig, s: Signal)
    requires cfg.maxRiskPerTradePct == 0.5 && cfg.maxNotionalPerTradePct == 0.0 && !cfg.requireBrokerStops
    requires s.direction == 1.0 && s.confidence == 1.0 && s.stopLossPrice == 0.0
    ensures var book := BookTop(99.0, 1.0, 101.0, 1.0);
            var sized := SizeEntry(cfg, s, book, 100.0, 10000.0, 1.0);
            sized.Some? && PreTrade(cfg, Alarms(false, false), sized.value, book, 10000.0) == Some(ExposureLimit)
  {
    var book := BookTop(99.0, 1.0, 101.0, 1.0);
    assert CappedQty(cfg, s, book, 100.0, 10000.0, 1.0) == 0.5;
    UnstoppedOverexposedIff(cfg, Alarms(false, false), s, book, 100.0, 10000.0, 1.0, 1.0, 101.0);
  }
}
