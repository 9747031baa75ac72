/** The pre-trade gate and the two position sizers (internal/risk/engine.go, lines 72-189 and 245-266). */
module RiskGate {
  import opened Types
  import opened RealMath

  datatype RiskConfig = RiskConfig(
    maxRiskPerTradePct: real,
    maxNotionalPerTradePct: real,
    maxSlippageBpsDefault: real,
    minBookDepthUSD: real,
    requireBrokerStops: bool,
    exitOnOppositeSignal: bool
  )

  datatype RiskError =
    | KillSwitch
    | CircuitBreaker
    | ExposureLimit
    | Slippage
    | Liquidity
    | MissingExitPlan
    | InvalidExits

  /** None is acceptance. */
  type Verdict = Option<RiskError>

  /** What the kill-switch file, its environment variable and the daily drawdown say when asked. */
  datatype Alarms = Alarms(killSwitch: bool, hardDrawdown: bool)

  function UpperAscii(c: char): char {
    if 'a' <= c <= 'z' then c - 'a' + 'A' else c
  }

  /** Case-insensitive comparison with the one venue that takes broker-held exits. */
  predicate IsOanda(venue: string) {
    && |venue| == 5
    && UpperAscii(venue[0]) == 'O' && UpperAscii(venue[1]) == 'A' && UpperAscii(venue[2]) == 'N'
    && UpperAscii(venue[3]) == 'D' && UpperAscii(venue[4]) == 'A'
  }

  predicate MustAttachExits(cfg: RiskConfig, ins: Instrument) {
    cfg.requireBrokerStops && IsOanda(ins.venue)
  }

  /** The price an entry is measured from: the ask for a buy, the bid for a sell. */
  function Reference(side: Side, book: BookTop): real {
    if side == Sell then book.bidPrice else book.askPrice
  }

  function RiskBudget(cfg: RiskConfig, equity: real): real {
    equity * (cfg.maxRiskPerTradePct / 100.0)
  }

  function ValidateExitGeometry(i: OrderIntent, ref: real): Verdict {
    var tol := Max(1e-10, ref * 1e-6);
    if ref <= 0.0 then Some(Liquidity)
    else if i.side == Buy then
      if i.stopLossPrice >= ref - tol then Some(InvalidExits)
      else if i.takeProfitPrice > 0.0 && i.takeProfitPrice <= ref + tol then Some(InvalidExits)
      else None
    else if i.stopLossPrice <= ref + tol then Some(InvalidExits)
    else if i.takeProfitPrice > 0.0 && i.takeProfitPrice >= ref - tol then Some(InvalidExits)
    else None
  }

  /** Notional as a percentage of equity. */
  function NotionalPct(ref: real, q: real, equity: real): real
    requires equity > 0.0
  {
    ref * q / equity * 100.0
  }

  /** The notional test. */
  predicate NotionalTooLarge(cfg: RiskConfig, quantity: real, equity: real, ref: real)
    requires equity > 0.0
  {
    ref > 0.0 && cfg.maxNotionalPerTradePct > 0.0 && NotionalPct(ref, quantity, equity) > cfg.maxNotionalPerTradePct
  }

  /** Book depth and spread tests, which do not look at equity or quantity. */
  function MarketChecks(cfg: RiskConfig, i: OrderIntent, book: BookTop): Verdict {
    var depth := Min(book.bidSize * book.bidPrice, book.askSize * book.askPrice);
    var slipBps := if i.maxSlippageBps <= 0.0 then cfg.maxSlippageBpsDefault else i.maxSlippageBps;
    if cfg.minBookDepthUSD > 0.0 && depth < cfg.minBookDepthUSD then Some(Liquidity)
    else if slipBps > 0.0 && book.askPrice > 0.0 && book.bidPrice > 0.0
         && (book.askPrice - book.bidPrice) / ((book.askPrice + book.bidPrice) / 2.0) * 10000.0 > slipBps * 2.0
    then Some(Slippage)
    else None
  }

  function PreTradeCommon(cfg: RiskConfig, i: OrderIntent, book: BookTop, equity: real, ref: real,
                          reduceOnly: bool): Verdict
  {
    if !reduceOnly && equity <= 0.0 then Some(ExposureLimit)
    else if !reduceOnly && NotionalTooLarge(cfg, i.quantity, equity, ref) then Some(ExposureLimit)
    else MarketChecks(cfg, i, book)
  }

  /** The branch for intents that carry a stop. */
  function StoppedChecks(cfg: RiskConfig, i: OrderIntent, book: BookTop, equity: real, ref: real): Verdict {
    var geometry := ValidateExitGeometry(i, ref);
    var riskPerUnit := Abs(ref - i.stopLossPrice);
    if geometry.Some? then geometry
    else if riskPerUnit <= 0.0 then Some(InvalidExits)
    else if i.quantity * riskPerUnit > RiskBudget(cfg, equity) + 1e-9 then Some(ExposureLimit)
    else PreTradeCommon(cfg, i, book, equity, ref, false)
  }

  /** The branch for intents without one. */
  function UnstoppedChecks(cfg: RiskConfig, i: OrderIntent, book: BookTop, equity: real, ref: real): Verdict
    requires equity > 0.0
  {
    if NotionalPct(ref, i.quantity, equity) > cfg.maxRiskPerTradePct then Some(ExposureLimit)
    else PreTradeCommon(cfg, i, book, equity, ref, false)
  }

  function PreTrade(cfg: RiskConfig, alarms: Alarms, i: OrderIntent, book: BookTop, equity: real): Verdict {
    var ref := Reference(i.side, book);
    if alarms.killSwitch then Some(KillSwitch)
    else if alarms.hardDrawdown then Some(CircuitBreaker)
    else if i.reduceOnly then PreTradeCommon(cfg, i, book, equity, 0.0, true)
    else if equity <= 0.0 then Some(ExposureLimit)
    else if ref <= 0.0 then Some(Liquidity)
    else if MustAttachExits(cfg, i.instrument) then
      if i.stopLossPrice <= 0.0 || i.takeProfitPrice <= 0.0 then Some(MissingExitPlan)
      else StoppedChecks(cfg, i, book, equity, ref)
    else if i.stopLossPrice > 0.0 then StoppedChecks(cfg, i, book, equity, ref)
    else UnstoppedChecks(cfg, i, book, equity, ref)
  }

  /** Largest quantity whose notional stays within the risk budget. */
  function MaxQtyFromRisk(cfg: RiskConfig, price: real, equity: real): real {
    if price <= 0.0 || equity <= 0.0 then 0.0 else RiskBudget(cfg, equity) / price
  }

  /** Largest quantity whose loss at the stop stays within the risk budget. */
  function MaxQtyFromStop(cfg: RiskConfig, entryRef: real, stop: real, equity: real): real {
    var riskPerUnit := Abs(entryRef - stop);
    if entryRef <= 0.0 || equity <= 0.0 || riskPerUnit <= 0.0 then 0.0 else RiskBudget(cfg, equity) / riskPerUnit
  }

  /**
   An accepted entry with a stop has it on the losing side of the reference and any target on the winning side,
   and loses at most the risk budget, to within 1e-9, when the stop is hit. Reduce-only intents skip these tests.
   */
  lemma AcceptedStopBoundsLoss(cfg: RiskConfig, alarms: Alarms, i: OrderIntent, book: BookTop, equity: real)
    requires PreTrade(cfg, alarms, i, book, equity) == None
    requires !i.reduceOnly && i.stopLossPrice > 0.0
    ensures var ref := Reference(i.side, book);
            && (if i.side == Buy then i.stopLossPrice < ref else i.stopLossPrice > ref)
            && (i.takeProfitPrice > 0.0 ==> if i.side == Buy then i.takeProfitPrice > ref else i.takeProfitPrice < ref)
            && i.quantity * Abs(ref - i.stopLossPrice) <= RiskBudget(cfg, equity) + 1e-9
  {
    var ref := Reference(i.side, book);
    assert StoppedChecks(cfg, i, book, equity, ref) == None;
    assert ValidateExitGeometry(i, ref) == None;
  }

  /** No accepted entry's notional exceeds the notional cap, nor, without a stop, the risk percentage. */
  lemma AcceptedNotionalIsCapped(cfg: RiskConfig, alarms: Alarms, i: OrderIntent, book: BookTop, equity: real)
    requires PreTrade(cfg, alarms, i, book, equity) == None && !i.reduceOnly
    ensures equity > 0.0
    ensures var pct := NotionalPct(Reference(i.side, book), i.quantity, equity);
            && (cfg.maxNotionalPerTradePct > 0.0 ==> pct <= cfg.maxNotionalPerTradePct)
            && (i.stopLossPrice <= 0.0 ==> pct <= cfg.maxRiskPerTradePct)
    ensures MustAttachExits(cfg, i.instrument) ==> i.stopLossPrice > 0.0 && i.takeProfitPrice > 0.0
  {
    var ref := Reference(i.side, book);
    if i.stopLossPrice > 0.0 {
      assert StoppedChecks(cfg, i, book, equity, ref) == None;
    } else {
      assert UnstoppedChecks(cfg, i, book, equity, ref) == None;
    }
    assert !NotionalTooLarge(cfg, i.quantity, equity, ref);
  }

  /** The book is deep enough on both sides. */
  predicate DepthFits(cfg: RiskConfig, book: BookTop) {
    cfg.minBookDepthUSD > 0.0 ==>
      book.bidSize * book.bidPrice >= cfg.minBookDepthUSD && book.askSize * book.askPrice >= cfg.minBookDepthUSD
  }

  /** When an order has a tolerance, the spread is no wider than twice that. */
  predicate SpreadFits(cfg: RiskConfig, i: OrderIntent, book: BookTop) {
    var tolerance := if i.maxSlippageBps > 0.0 then i.maxSlippageBps else cfg.maxSlippageBpsDefault;
    tolerance > 0.0 && book.bidPrice > 0.0 && book.askPrice > 0.0 ==>
      10000.0 * (book.askPrice - book.bidPrice) <= tolerance * (book.askPrice + book.bidPrice)
  }

  predicate MarketFits(cfg: RiskConfig, i: OrderIntent, book: BookTop) {
    DepthFits(cfg, book) && SpreadFits(cfg, i, book)
  }

  /** `stop` and `target`, when there is a target, lie beyond the tolerance on the losing and winning sides of `ref`. */
  predicate ExitsFit(side: Side, ref: real, stop: real, target: real) {
    var tol := if ref > 1e-4 then ref * 1e-6 else 1e-10;
    if side == Buy then stop < ref - tol && (target > 0.0 ==> target > ref + tol)
    else stop > ref + tol && (target > 0.0 ==> target < ref - tol)
  }

  /**
   The size fits the budget: by its loss at the stop, or by its notional when there is none; and the notional cap, if
   any.
   */
  predicate SizeFits(cfg: RiskConfig, i: OrderIntent, equity: real, ref: real) {
    && (if i.stopLossPrice > 0.0
        then 100.0 * (i.quantity * Abs(ref - i.stopLossPrice)) <= equity * cfg.maxRiskPerTradePct + 1e-7
        else 100.0 * (ref * i.quantity) <= cfg.maxRiskPerTradePct * equity)
    && (cfg.maxNotionalPerTradePct > 0.0 ==> 100.0 * (ref * i.quantity) <= cfg.maxNotionalPerTradePct * equity)
  }

  lemma SpreadWithinIff(bid: real, ask: real, slip: real)
    requires bid > 0.0 && ask > 0.0
    ensures (ask - bid) / ((ask + bid) / 2.0) * 10000.0 > slip * 2.0 <==> 10000.0 * (ask - bid) > slip * (ask + bid)
  {
    var mid := (ask + bid) / 2.0;
    var r := (ask - bid) / mid;
    assert r * mid == ask - bid;
    ScaledComparison(mid, r * 10000.0, slip * 2.0);
  }

  lemma NotionalWithinIff(ref: real, q: real, equity: real, limit: real)
    requires equity > 0.0
    ensures NotionalPct(ref, q, equity) > limit <==> 100.0 * (ref * q) > limit * equity
  {
    var r := ref * q / equity;
    assert r * equity == ref * q;
    ScaledComparison(equity, r * 100.0, limit);
  }

  lemma ScaledComparison(k: real, a: real, b: real)
    requires k > 0.0
    ensures a > b <==> a * k > b * k
  {
    if a > b {
      ProductPositive(a - b, k, (a - b) * k);
    } else {
      ScaleBound(k, a, b);
    }
  }

  lemma MarketChecksExactly(cfg: RiskConfig, i: OrderIntent, book: BookTop)
    ensures MarketChecks(cfg, i, book) == None <==> MarketFits(cfg, i, book)
    ensures MarketChecks(cfg, i, book) == Some(Liquidity) <==> !DepthFits(cfg, book)
    ensures MarketChecks(cfg, i, book) == Some(Slippage) <==> DepthFits(cfg, book) && !SpreadFits(cfg, i, book)
  {
    if book.bidPrice > 0.0 && book.askPrice > 0.0 {
      SpreadWithinIff(book.bidPrice, book.askPrice,
                      if i.maxSlippageBps > 0.0 then i.maxSlippageBps else cfg.maxSlippageBpsDefault);
    }
  }

  lemma ExitsExactly(i: OrderIntent, ref: real)
    requires ref > 0.0
    ensures ValidateExitGeometry(i, ref) == None <==> ExitsFit(i.side, ref, i.stopLossPrice, i.takeProfitPrice)
    ensures ValidateExitGeometry(i, ref) == None ==> Abs(ref - i.stopLossPrice) > 0.0
  {
  }

  lemma BudgetInTerms(cfg: RiskConfig, equity: real)
    ensures 100.0 * RiskBudget(cfg, equity) == equity * cfg.maxRiskPerTradePct
  {
  }

  lemma SizeExactly(cfg: RiskConfig, i: OrderIntent, equity: real, ref: real)
    requires equity > 0.0 && ref > 0.0
    ensures SizeFits(cfg, i, equity, ref) <==>
            && (if i.stopLossPrice > 0.0 then i.quantity * Abs(ref - i.stopLossPrice) <= RiskBudget(cfg, equity) + 1e-9
                else NotionalPct(ref, i.quantity, equity) <= cfg.maxRiskPerTradePct)
            && !NotionalTooLarge(cfg, i.quantity, equity, ref)
  {
    BudgetInTerms(cfg, equity);
    NotionalWithinIff(ref, i.quantity, equity, cfg.maxRiskPerTradePct);
    NotionalWithinIff(ref, i.quantity, equity, cfg.maxNotionalPerTradePct);
  }

  /**
   An entry passes the gate exactly when no alarm is on, its exits are where they must be, and its size and the market
   fit.
   */
  lemma EntryAcceptedExactlyWhen(cfg: RiskConfig, alarms: Alarms, i: OrderIntent, book: BookTop, equity: real,
                                 ref: real)
    requires !i.reduceOnly && ref == (if i.side == Sell then book.bidPrice else book.askPrice)
    ensures PreTrade(cfg, alarms, i, book, equity) == None <==>
            && !alarms.killSwitch && !alarms.hardDrawdown && equity > 0.0 && ref > 0.0
            && (MustAttachExits(cfg, i.instrument) ==> i.stopLossPrice > 0.0 && i.takeProfitPrice > 0.0)
            && (i.stopLossPrice > 0.0 ==> ExitsFit(i.side, ref, i.stopLossPrice, i.takeProfitPrice))
            && SizeFits(cfg, i, equity, ref) && MarketFits(cfg, i, book)
  {
    MarketChecksExactly(cfg, i, book);
    if equity > 0.0 && ref > 0.0 {
      ExitsExactly(i, ref);
      SizeExactly(cfg, i, equity, ref);
    }
  }

  /** A reduce-only order is asked only about the alarms and the market. */
  lemma ExitAcceptedExactlyWhen(cfg: RiskConfig, alarms: Alarms, i: OrderIntent, book: BookTop, equity: real)
    requires i.reduceOnly
    ensures PreTrade(cfg, alarms, i, book, equity) == None <==>
            !alarms.killSwitch && !alarms.hardDrawdown && MarketFits(cfg, i, book)
  {
    MarketChecksExactly(cfg, i, book);
  }

  /**
   Each reason for rejecting an entry, and when it is the one given: the alarms first, then equity and book, exits,
   size, market.
   */
  lemma RejectionsNameTheirCause(cfg: RiskConfig, alarms: Alarms, i: OrderIntent, book: BookTop, equity: real,
                                 ref: real, v: Verdict, asked: bool, planned: bool, placed: bool,
                                 sized: bool, deep: bool, narrow: bool)
    requires !i.reduceOnly && ref == (if i.side == Sell then book.bidPrice else book.askPrice)
    requires v == PreTrade(cfg, alarms, i, book, equity)
    requires sized == SizeFits(cfg, i, equity, ref) && deep == DepthFits(cfg, book)
    requires narrow == SpreadFits(cfg, i, book)
    requires asked == (!alarms.killSwitch && !alarms.hardDrawdown && equity > 0.0 && ref > 0.0)
    requires planned == (MustAttachExits(cfg, i.instrument) ==> i.stopLossPrice > 0.0 && i.takeProfitPrice > 0.0)
    requires placed == (i.stopLossPrice > 0.0 ==> ExitsFit(i.side, ref, i.stopLossPrice, i.takeProfitPrice))
    ensures v == Some(KillSwitch) <==> alarms.killSwitch
    ensures v == Some(CircuitBreaker) <==> !alarms.killSwitch && alarms.hardDrawdown
    ensures v == Some(MissingExitPlan) <==> asked && !planned
    ensures v == Some(InvalidExits) <==> asked && planned && !placed
    ensures v == Some(ExposureLimit) <==>
            !alarms.killSwitch && !alarms.hardDrawdown && (equity <= 0.0 || (asked && planned && placed && !sized))
    ensures v == Some(Liquidity) <==>
            (!alarms.killSwitch && !alarms.hardDrawdown && equity > 0.0 && ref <= 0.0)
            || (asked && planned && placed && sized && !deep)
    ensures v == Some(Slippage) <==> asked && planned && placed && sized && deep && !narrow
  {
    MarketChecksExactly(cfg, i, book);
    if asked {
      ExitsExactly(i, ref);
      SizeExactly(cfg, i, equity, ref);
      AskedVerdict(cfg, alarms, i, book, equity, ref);
    }
  }

  /** What the gate answers once it has got past the alarms, equity and the reference. */
  lemma AskedVerdict(cfg: RiskConfig, alarms: Alarms, i: OrderIntent, book: BookTop, equity: real, ref: real)
    requires !i.reduceOnly && ref == Reference(i.side, book) > 0.0 && equity > 0.0
    requires !alarms.killSwitch && !alarms.hardDrawdown
    ensures var perUnit, budget := Abs(ref - i.stopLossPrice), RiskBudget(cfg, equity);
            var large := if i.stopLossPrice > 0.0 then i.quantity * perUnit > budget + 1e-9
                         else NotionalPct(ref, i.quantity, equity) > cfg.maxRiskPerTradePct;
            var bare := i.stopLossPrice <= 0.0 || i.takeProfitPrice <= 0.0;
            PreTrade(cfg, alarms, i, book, equity) ==
            if MustAttachExits(cfg, i.instrument) && bare then Some(MissingExitPlan)
            else if i.stopLossPrice > 0.0 && ValidateExitGeometry(i, ref).Some? then ValidateExitGeometry(i, ref)
            else if i.stopLossPrice > 0.0 && Abs(ref - i.stopLossPrice) <= 0.0 then Some(InvalidExits)
            else if large || NotionalTooLarge(cfg, i.quantity, equity, ref) then Some(ExposureLimit)
            else MarketChecks(cfg, i, book)
  {
  }

  /** The venue that takes broker-held exits, in any mixture of cases, and no other. */
  lemma OandaInAnyCase(v: string)
    ensures IsOanda(v) <==>
            |v| == 5 && v[0] in {'O', 'o'} && v[1] in {'A', 'a'} && v[2] in {'N', 'n'} && v[3] in {'D', 'd'}
            && v[4] in {'A', 'a'}
  {
    if |v| == 5 {
      CasesOf(v[0], 'O', 'o');
      CasesOf(v[1], 'A', 'a');
      CasesOf(v[2], 'N', 'n');
      CasesOf(v[3], 'D', 'd');
      CasesOf(v[4], 'A', 'a');
    }
  }

  lemma CasesOf(c: char, upper: char, lower: char)
    requires 'A' <= upper <= 'Z' && lower as int == upper as int + 32
    ensures UpperAscii(c) == upper <==> c == upper || c == lower
  {
  }

  /** Exits are demanded of entries there, and only when the configuration says so. */
  lemma ExitsDemandedExactlyWhen(cfg: RiskConfig, ins: Instrument)
    ensures MustAttachExits(cfg, ins) <==>
            cfg.requireBrokerStops
            && |ins.venue| == 5 && ins.venue[0] in {'O', 'o'} && ins.venue[1] in {'A', 'a'}
            && ins.venue[2] in {'N', 'n'} && ins.venue[3] in {'D', 'd'} && ins.venue[4] in {'A', 'a'}
  {
    OandaInAnyCase(ins.venue);
  }
}
