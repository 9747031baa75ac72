/**
 Exactly when the dual-EMA cross strategy emits, and what its signal says, in terms of the instrument's own bars
 (internal/strategy/ema_cross_atr.go, lines 163-259).
 */
module EMACrossMeaning {
  import opened Types
  import opened RealMath
  import opened Instruments
  import opened KeyedStreams
  import opened MovingAverage
  import opened EMACross

  // ---------- averages ----------

  /** The smoothing factor of a period: two parts in the period and one more. */
  ghost predicate Smooths(alpha: real, period: nat) {
    alpha * (period as real + 1.0) == 2.0
  }

  lemma SmoothingIsUnique(alpha: real, beta: real, period: nat)
    requires Smooths(alpha, period) && Smooths(beta, period)
    ensures alpha == beta
  {
    var n := period as real + 1.0;
    CancelScale(n, alpha, beta);
    CancelScale(n, beta, alpha);
  }

  lemma AveragesAreSmoothed(p: Params, w: Session, bars: seq<Bar>, alpha: real, beta: real)
    requires p.Valid() && bars != [] && Smooths(alpha, p.fast) && Smooths(beta, p.slow)
    ensures var st := Alone(AsMachine(p, w), bars);
            st.fastEMA == Ema(alpha, Closes(bars), |bars|) && st.slowEMA == Ema(beta, Closes(bars), |bars|)
  {
    StateTracksSeries(p, w, bars);
    FactorsAreSmoothing(p);
    SmoothingIsUnique(alpha, p.FastAlpha(), p.fast);
    SmoothingIsUnique(beta, p.SlowAlpha(), p.slow);
  }

  lemma FactorsAreSmoothing(p: Params)
    ensures Smooths(p.FastAlpha(), p.fast) && Smooths(p.SlowAlpha(), p.slow)
  {
  }

  // ---------- the true range and its average ----------

  /** The true range of a bar is the greatest of its span and its extremes' distances from the close before it. */
  ghost predicate IsTrueRange(bars: seq<Bar>, i: nat, tr: real)
    requires i < |bars|
  {
    var span := bars[i].high - bars[i].low;
    if i == 0 then tr == span
    else
      var up, down := Abs(bars[i].high - bars[i - 1].close), Abs(bars[i].low - bars[i - 1].close);
      tr >= span && tr >= up && tr >= down && tr in {span, up, down}
  }

  /** For a bar that is not upside down: how far it and the close before it reach. */
  lemma TrueRangeIsReach(bars: seq<Bar>, i: nat, tr: real)
    requires 0 < i < |bars| && bars[i].low <= bars[i].high && IsTrueRange(bars, i, tr)
    ensures tr == Max(bars[i].high, bars[i - 1].close) - Min(bars[i].low, bars[i - 1].close)
  {
  }

  ghost predicate TrueRanges(bars: seq<Bar>, trs: seq<real>) {
    |trs| == |bars| && forall i :: 0 <= i < |trs| ==> IsTrueRange(bars, i, trs[i])
  }

  /** The mean of the first `period` true ranges, then of each later one a `period`-th part. */
  ghost function WilderAverage(trs: seq<real>, period: nat): real
    requires 0 < period <= |trs|
  {
    Ema(1.0 / period as real, [SumTo(trs, period) / period as real] + trs[period..], |trs| - period + 1)
  }

  lemma {:induction false} SumOfRanges(p: Params, w: Session, bars: seq<Bar>, trs: seq<real>)
    requires p.Valid() && TrueRanges(bars, trs) && |bars| <= p.atrPeriod
    ensures Alone(AsMachine(p, w), bars).sumTR == SumTo(trs, |trs|)
    ensures |bars| == p.atrPeriod ==> Alone(AsMachine(p, w), bars).atr == SumTo(trs, |trs|) / p.atrPeriod as real
  {
    if bars != [] {
      var n, before := |bars| - 1, bars[..|bars| - 1];
      RangesOfPrefix(bars, trs);
      SumOfRanges(p, w, before, trs[..n]);
      SumToPrefix(trs, trs[..n], n);
      RangeOfNext(p, w, bars, trs);
      RangeSummed(p, Alone(AsMachine(p, w), before), bars[n], trs[n]);
    }
  }

  lemma RangesOfPrefix(bars: seq<Bar>, trs: seq<real>)
    requires bars != [] && TrueRanges(bars, trs)
    ensures TrueRanges(bars[..|bars| - 1], trs[..|trs| - 1])
  {
    var before, fewer := bars[..|bars| - 1], trs[..|trs| - 1];
    forall i | 0 <= i < |fewer|
      ensures IsTrueRange(before, i, fewer[i])
    {
      assert IsTrueRange(bars, i, trs[i]);
    }
  }

  /** What the next bar is measured by, and where the counter stands. */
  lemma RangeOfNext(p: Params, w: Session, bars: seq<Bar>, trs: seq<real>)
    requires p.Valid() && bars != [] && TrueRanges(bars, trs)
    ensures var n, st := |bars| - 1, Alone(AsMachine(p, w), bars[..|bars| - 1]);
            && TrueRange(st.hasPrevClose, st.prevClose, bars[n]) == trs[n]
            && st.atrInitCount == (if n < p.atrPeriod then n else p.atrPeriod)
  {
    var n, before := |bars| - 1, bars[..|bars| - 1];
    assert IsTrueRange(bars, n, trs[n]);
    if n > 0 {
      StateTracksSeries(p, w, before);
    }
  }

  lemma RangeSummed(p: Params, st: BarState, b: Bar, tr: real)
    requires p.Valid() && tr == TrueRange(st.hasPrevClose, st.prevClose, b) && st.atrInitCount < p.atrPeriod
    ensures var now := Advance(p, st, b);
            && now.sumTR == st.sumTR + tr
            && (st.atrInitCount + 1 == p.atrPeriod ==> now.atr == now.sumTR / p.atrPeriod as real)
  {
  }

  lemma RangeBlended(p: Params, st: BarState, b: Bar, tr: real)
    requires p.Valid() && tr == TrueRange(st.hasPrevClose, st.prevClose, b) && st.atrInitCount == p.atrPeriod
    ensures Advance(p, st, b).atr == Blend(1.0 / p.atrPeriod as real, st.atr, tr)
  {
    WilderIsBlend(st.atr, tr, p.atrPeriod, 1.0 / p.atrPeriod as real);
  }

  /** The state's ATR is Wilder's average of the true ranges of the bars. */
  lemma {:induction false} AtrIsWilderAverage(p: Params, w: Session, bars: seq<Bar>, trs: seq<real>)
    requires p.Valid() && TrueRanges(bars, trs) && |bars| >= p.atrPeriod
    ensures Alone(AsMachine(p, w), bars).atr == WilderAverage(trs, p.atrPeriod)
  {
    var n, before := |bars| - 1, bars[..|bars| - 1];
    if |bars| == p.atrPeriod {
      SumOfRanges(p, w, bars, trs);
    } else {
      RangesOfPrefix(bars, trs);
      AtrIsWilderAverage(p, w, before, trs[..n]);
      AverageOfNext(trs, p.atrPeriod, n);
      RangeOfNext(p, w, bars, trs);
      RangeBlended(p, Alone(AsMachine(p, w), before), bars[n], trs[n]);
    }
  }

  lemma AverageOfNext(trs: seq<real>, period: nat, n: nat)
    requires 0 < period <= n && |trs| == n + 1
    ensures WilderAverage(trs, period) == Blend(1.0 / period as real, WilderAverage(trs[..n], period), trs[n])
  {
    var alpha, mean := 1.0 / period as real, SumTo(trs, period) / period as real;
    SumToPrefix(trs, trs[..n], period);
    EmaOfPrefix(alpha, [mean] + trs[period..], [mean] + trs[..n][period..], n - period + 1);
  }

  // ---------- the session ----------

  /** Seconds into the UTC day. */
  ghost predicate AtSecond(ts: int, second: int) {
    0 <= second < 86400 && (ts - second) % 86400 == 0
  }

  /** From the start hour up to the end hour; round midnight when the end is not after the start. */
  ghost predicate OpenAt(w: Session, second: int) {
    || !w.enabled
    || (w.start < w.end && 3600 * w.start <= second < 3600 * w.end)
    || (w.start >= w.end && !(3600 * w.end <= second < 3600 * w.start))
  }

  lemma OpenExactlyWhen(w: Session, b: Bar, second: int)
    requires AtSecond(b.timestamp, second)
    ensures SessionOpen(w, b) <==> OpenAt(w, second)
  {
    assert b.timestamp % 86400 == second;
    var h := second / 3600;
    assert 3600 * h <= second < 3600 * h + 3600;
  }

  // ---------- what is emitted ----------

  /** The first average crosses above the second at the last of the closes. */
  ghost predicate CrossesAbove(alpha: real, beta: real, cs: seq<real>) {
    var n := |cs|;
    n > 1 && Ema(alpha, cs, n - 1) <= Ema(beta, cs, n - 1) && Ema(alpha, cs, n) > Ema(beta, cs, n)
  }

  /** The range is wide enough for its price, and not too wide. */
  ghost predicate RangeFits(p: Params, close: real, atr: real) {
    p.minATRRatio * close <= atr && (p.maxATRRatio > 0.0 ==> atr <= p.maxATRRatio * close)
  }

  /** Enough bars for both averages and the true range, and one more. */
  ghost predicate WarmedUp(p: Params, n: nat) {
    n > p.fast && n > p.slow && n > p.atrPeriod
  }

  /** Stop and target of a signal in terms of its direction, entry and ATR. */
  ghost predicate Bracketed(p: Params, s: Signal, atr: real) {
    var risk, reward := s.direction * (s.entryReferencePrice - s.stopLossPrice),
                        s.direction * (s.takeProfitPrice - s.entryReferencePrice);
    risk == p.stopATRMult * atr && reward == p.takeProfitRR * risk
  }

  /** The whole of a signal. */
  ghost predicate Says(p: Params, s: Signal, b: Bar, up: bool, atr: real) {
    && s.strategyID == p.id && s.instrument in p.universe
    && s.instrument.venue == b.instrument.venue && s.instrument.symbol == b.instrument.symbol
    && s.generated == b.timestamp && !s.flatten && s.confidence == 0.72
    && s.direction == (if up then 1.0 else -1.0)
    && s.reason == (if up then "ema_cross_atr_bull" else "ema_cross_atr_bear")
    && s.entryReferencePrice == b.close && Bracketed(p, s, atr)
  }

  /** What the bars of a key are read with. */
  datatype Reading = Reading(alpha: real, beta: real, trs: seq<real>) {
    ghost predicate Of(p: Params, own: seq<Bar>) {
      Smooths(alpha, p.fast) && Smooths(beta, p.slow) && TrueRanges(own, trs)
    }
  }

  /** Bars can always be read. */
  lemma ReadingExists(p: Params, own: seq<Bar>) returns (r: Reading)
    ensures r.Of(p, own)
  {
    FactorsAreSmoothing(p);
    r := Reading(p.FastAlpha(), p.SlowAlpha(), seq(|own|, i requires 0 <= i < |own| => TrueRangeAt(own, i)));
  }

  /** What a bar emits between two states, without the strategy's own branches. */
  lemma CandidateExactlyWhen(p: Params, target: Instrument, before: BarState, now: BarState, b: Bar, atr: real)
    requires p.Valid() && b.close > 0.0 && atr == now.atr
    requires now.atrInitCount == if now.seen < p.atrPeriod then now.seen else p.atrPeriod
    ensures Candidate(p, target, before, now, b) != [] <==>
            && WarmedUp(p, now.seen) && RangeFits(p, b.close, atr)
            && (Rises(before, now) || Falls(before, now))
  {
    var ratio := atr / b.close;
    assert ratio * b.close == atr;
    RatioCompares(ratio, b.close, p.minATRRatio, atr);
    RatioCompares(ratio, b.close, p.maxATRRatio, atr);
  }

  lemma RatioCompares(ratio: real, close: real, bound: real, atr: real)
    requires close > 0.0 && ratio * close == atr
    ensures ratio < bound <==> atr < bound * close
    ensures ratio > bound <==> atr > bound * close
  {
    SignOfProduct(ratio - bound, close, atr - bound * close);
    SignOfProduct(bound - ratio, close, bound * close - atr);
  }

  ghost predicate Rises(before: BarState, now: BarState) {
    before.fastEMA <= before.slowEMA && now.fastEMA > now.slowEMA
  }

  ghost predicate Falls(before: BarState, now: BarState) {
    before.fastEMA >= before.slowEMA && now.fastEMA < now.slowEMA
  }

  lemma CandidateSays(p: Params, b: Bar, target: Instrument, before: BarState, now: BarState)
    requires p.Valid() && b.close > 0.0 && Target(p.universe, b) == Some(target)
    requires Candidate(p, target, before, now, b) != []
    ensures var out := Candidate(p, target, before, now, b);
            |out| == 1 && Says(p, out[0], b, Rises(before, now), now.atr)
  {
  }

  /** The averages a key's last bar moves, read off its own bars. */
  lemma {:induction false} OwnAverages(p: Params, w: Session, own: seq<Bar>, r: Reading, before: BarState,
                                       now: BarState)
    requires p.Valid() && |own| > 1 && r.Of(p, own)
    requires before == Alone(AsMachine(p, w), own[..|own| - 1]) && now == Alone(AsMachine(p, w), own)
    ensures Rises(before, now) <==> CrossesAbove(r.alpha, r.beta, Closes(own))
    ensures Falls(before, now) <==> CrossesAbove(r.beta, r.alpha, Closes(own))
  {
    var n, earlier := |own| - 1, own[..|own| - 1];
    AveragesAreSmoothed(p, w, own, r.alpha, r.beta);
    AveragesAreSmoothed(p, w, earlier, r.alpha, r.beta);
    EmaOfPrefix(r.alpha, Closes(own), Closes(earlier), n);
    EmaOfPrefix(r.beta, Closes(own), Closes(earlier), n);
  }

  /** What the last bar of a run emits is what its key's own bars call for. */
  lemma {:induction false} OutputIsCandidate(p: Params, w: Session, bars: seq<Bar>, k: string)
    returns (own: seq<Bar>, before: BarState, now: BarState, b: Bar)
    requires p.Valid() && bars != [] && AcceptedKey(p, bars[|bars| - 1]) == Some(k)
    ensures own == Only(AsMachine(p, w), bars, k) && own != [] && own[|own| - 1] == b == bars[|bars| - 1]
    ensures before == Alone(AsMachine(p, w), own[..|own| - 1]) && now == Alone(AsMachine(p, w), own)
    ensures Target(p.universe, b).Some? && b.close > 0.0
    ensures LastOutput(AsMachine(p, w), bars)
            == if SessionOpen(w, b) then Candidate(p, Target(p.universe, b).value, before, now, b) else []
  {
    own := LastIsOwnStep(AsMachine(p, w), bars, k);
    b := bars[|bars| - 1];
    before, now := Alone(AsMachine(p, w), own[..|own| - 1]), Alone(AsMachine(p, w), own);
  }

  /**
   Exactly when the last bar of a run emits: its own bars have warmed the averages and the true range up, that average
   range is neither too narrow nor too wide for the close, one average of the closes has just crossed the other, and the
   session is open.
   */
  lemma {:induction false} EmitsExactlyWhen(p: Params, w: Session, bars: seq<Bar>, k: string, own: seq<Bar>, r: Reading,
                                            second: int)
    requires p.Valid() && bars != [] && AcceptedKey(p, bars[|bars| - 1]) == Some(k)
    requires own == Only(AsMachine(p, w), bars, k) && r.Of(p, own)
    requires AtSecond(bars[|bars| - 1].timestamp, second)
    ensures LastOutput(AsMachine(p, w), bars) != [] <==>
            && OpenAt(w, second) && WarmedUp(p, |own|)
            && RangeFits(p, bars[|bars| - 1].close, WilderAverage(r.trs, p.atrPeriod))
            && (CrossesAbove(r.alpha, r.beta, Closes(own)) || CrossesAbove(r.beta, r.alpha, Closes(own)))
  {
    var _, before, now, b := OutputIsCandidate(p, w, bars, k);
    OpenExactlyWhen(w, b, second);
    StateTracksSeries(p, w, own);
    CandidateExactlyWhen(p, Target(p.universe, b).value, before, now, b, now.atr);
    if WarmedUp(p, |own|) {
      AtrIsWilderAverage(p, w, own, r.trs);
      OwnAverages(p, w, own, r, before, now);
    }
  }

  /** And what it then emits: one signal, long exactly when the fast average has crossed above the slow one. */
  lemma {:induction false} EmittedSays(p: Params, w: Session, bars: seq<Bar>, k: string, own: seq<Bar>, r: Reading)
    requires p.Valid() && bars != [] && AcceptedKey(p, bars[|bars| - 1]) == Some(k)
    requires own == Only(AsMachine(p, w), bars, k) && r.Of(p, own)
    requires LastOutput(AsMachine(p, w), bars) != []
    ensures |own| >= p.atrPeriod
    ensures var out := LastOutput(AsMachine(p, w), bars);
            && |out| == 1
            && Says(p, out[0], bars[|bars| - 1], CrossesAbove(r.alpha, r.beta, Closes(own)),
                    WilderAverage(r.trs, p.atrPeriod))
  {
    var _, before, now, b := OutputIsCandidate(p, w, bars, k);
    NoSignalBeforeWarmup(p, w, bars, k);
    AtrIsWilderAverage(p, w, own, r.trs);
    OwnAverages(p, w, own, r, before, now);
    CandidateSays(p, b, Target(p.universe, b).value, before, now);
  }

  /** A bracket round its entry: the stop on the losing side, the target on the winning side, each at its distance. */
  ghost predicate ExitsAround(p: Params, s: Signal, atr: real) {
    var risk := Abs(s.stopLossPrice - s.entryReferencePrice);
    && (if s.direction == 1.0 then s.stopLossPrice < s.entryReferencePrice < s.takeProfitPrice
        else s.direction == -1.0 && s.takeProfitPrice < s.entryReferencePrice < s.stopLossPrice)
    && risk == p.stopATRMult * atr && Abs(s.takeProfitPrice - s.entryReferencePrice) == p.takeProfitRR * risk
  }

  lemma BracketIsAround(p: Params, s: Signal, b: Bar, up: bool, atr: real)
    requires p.Valid() && Says(p, s, b, up, atr) && atr > 0.0
    ensures ExitsAround(p, s, atr) && s.entryReferencePrice == b.close
  {
    var risk := p.stopATRMult * atr;
    ProductPositive(p.stopATRMult, atr, risk);
    ProductPositive(p.takeProfitRR, risk, p.takeProfitRR * risk);
  }

  /** With a positive average range, every signal's stop is on its losing side and its target on its winning side. */
  lemma {:induction false} ExitsOnTheirSides(p: Params, w: Session, bars: seq<Bar>, k: string, own: seq<Bar>,
                                             r: Reading, s: Signal, atr: real)
    requires p.Valid() && bars != [] && AcceptedKey(p, bars[|bars| - 1]) == Some(k)
    requires own == Only(AsMachine(p, w), bars, k) && r.Of(p, own) && s in LastOutput(AsMachine(p, w), bars)
    requires |own| >= p.atrPeriod && atr == WilderAverage(r.trs, p.atrPeriod) && atr > 0.0
    ensures s.entryReferencePrice == bars[|bars| - 1].close && ExitsAround(p, s, atr)
  {
    EmittedSays(p, w, bars, k, own, r);
    BracketIsAround(p, s, bars[|bars| - 1], CrossesAbove(r.alpha, r.beta, Closes(own)), atr);
  }
}
