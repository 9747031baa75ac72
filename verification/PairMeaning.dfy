/**
 Exactly when the two pair strategies emit, and which way their legs go, in terms of the prices they have seen
 (internal/strategy/statarb.go, lines 66-131, and internal/strategy/delta_neutral.go, lines 78-158).
 */
module PairMeaning {
  import opened Types
  import opened RealMath
  import opened Instruments
  import opened Series
  import opened Buffers
  import opened PairStrategies
  import DeltaNeutralPair

  // ---------- the score ----------

  ghost function SquaredDistances(xs: seq<real>, m: real): seq<real> {
    seq(|xs|, i requires 0 <= i < |xs| => (xs[i] - m) * (xs[i] - m))
  }

  /** The mean of some numbers and their mean squared distance from it. */
  ghost predicate Moments(xs: seq<real>, mean: real, variance: real) {
    && |xs| as real * mean == Sum(xs)
    && |xs| as real * variance == Sum(SquaredDistances(xs, mean))
  }

  lemma MomentsAre(xs: seq<real>, mean: real, variance: real)
    requires xs != [] && Moments(xs, mean, variance)
    ensures mean == Mean(xs) && variance == Variance(xs)
  {
    MeanTimesCount(xs);
    SameFactor(|xs| as real, mean, Mean(xs));
    assert SquaredDistances(xs, mean) == Products(xs, xs, mean, mean);
    assert |xs| as real * Variance(xs) == CentredDot(xs, xs);
    SameFactor(|xs| as real, variance, Variance(xs));
  }

  lemma SameFactor(n: real, a: real, b: real)
    requires n > 0.0 && n * a == n * b
    ensures a == b
  {
    if a < b {
      ProductPositive(n, b - a, n * (b - a));
    } else if b < a {
      ProductPositive(n, a - b, n * (a - b));
    }
  }

  lemma MomentsExist(xs: seq<real>) returns (mean: real, variance: real)
    requires xs != []
    ensures Moments(xs, mean, variance)
  {
    mean, variance := Mean(xs), Variance(xs);
    assert SquaredDistances(xs, mean) == Products(xs, xs, mean, mean);
  }

  /** The newest number is far enough from the mean of the others, in deviations that are not negligible. */
  ghost predicate Strays(newest: real, mean: real, sigma: real, zEntry: real) {
    sigma >= 1e-12 && Abs(newest - mean) >= zEntry * sigma
  }

  /**
   The confidence rises with the distance from the threshold, from `base` at the threshold to `base + slope` half a
   deviation past twice it.
   */
  ghost predicate Ramp(conf: real, distance: real, sigma: real, zEntry: real, base: real, slope: real) {
    if distance >= (zEntry + zEntry + 0.5) * sigma then conf == base + slope
    else (conf - base) * ((zEntry + 0.5) * sigma) == slope * (distance - zEntry * sigma)
  }

  /** Back towards the mean. */
  ghost predicate TowardsMean(dir: real, newest: real, mean: real) {
    && (dir == -1.0 <==> newest > mean)
    && (dir == 1.0 <==> newest < mean)
    && (dir == 1.0 || dir == -1.0)
  }

  lemma ScoreCompares(gap: real, sigma: real, z: real, zEntry: real)
    requires sigma > 0.0 && zEntry > 0.0 && z == gap / sigma
    ensures Abs(z) * sigma == Abs(gap)
    ensures Abs(z) >= zEntry <==> Abs(gap) >= zEntry * sigma
    ensures z > 0.0 <==> gap > 0.0
    ensures z < 0.0 <==> gap < 0.0
  {
    assert z * sigma == gap;
    SignOfProduct(z, sigma, gap);
    SignOfProduct(-z, sigma, -gap);
    assert -z * sigma == -gap;
    SignOfProduct(Abs(z) - zEntry, sigma, Abs(gap) - zEntry * sigma);
  }

  lemma RampOfScore(az: real, distance: real, sigma: real, zEntry: real, base: real, slope: real, t: real)
    requires sigma > 0.0 && zEntry > 0.0 && az * sigma == distance && slope >= 0.0
    requires t == (az - zEntry) / (zEntry + 0.5)
    ensures Ramp(base + slope * Min(1.0, t), distance, sigma, zEntry, base, slope)
  {
    var w := zEntry + 0.5;
    assert t * w == az - zEntry;
    assert (t * w) * sigma == distance - zEntry * sigma;
    var ws := w * sigma;
    ProductPositive(w, sigma, ws);
    assert t * ws == (t * w) * sigma;
    SignOfProduct(t - 1.0, ws, t * ws - ws);
    assert (zEntry + zEntry + 0.5) * sigma == zEntry * sigma + ws;
    assert slope * t * ws == slope * (t * ws);
  }

  /** Exactly when the newest number of a window calls for a trade, and what it calls for. */
  lemma RevertsExactlyWhen(window: seq<real>, zEntry: real, base: real, slope: real, sqrt: real -> real, newest: real,
                           mean: real, variance: real)
    requires |window| >= 3 && zEntry > 0.0 && slope >= 0.0 && base + slope <= 0.82
    requires newest == window[|window| - 1] && Moments(window[..|window| - 1], mean, variance)
    ensures var r, sigma := Revert(window, zEntry, base, slope, sqrt), sqrt(variance);
            && (r.Some? <==> Strays(newest, mean, sigma, zEntry))
            && (r.Some? ==> TowardsMean(r.value.dir, newest, mean)
                            && Ramp(r.value.conf, Abs(newest - mean), sigma, zEntry, base, slope))
  {
    MomentsAre(window[..|window| - 1], mean, variance);
    var sigma := sqrt(variance);
    if sigma >= 1e-12 {
      ScoredExactlyWhen(window, zEntry, base, slope, sqrt, newest, mean, sigma, (newest - mean) / sigma);
    }
  }

  lemma ScoredExactlyWhen(window: seq<real>, zEntry: real, base: real, slope: real, sqrt: real -> real, newest: real,
                          mean: real, sigma: real, z: real)
    requires |window| >= 3 && zEntry > 0.0 && slope >= 0.0 && base + slope <= 0.82
    requires newest == window[|window| - 1] && mean == Mean(window[..|window| - 1])
    requires sigma == sqrt(Variance(window[..|window| - 1])) && sigma >= 1e-12 && z == (newest - mean) / sigma
    ensures var r := Revert(window, zEntry, base, slope, sqrt);
            && (r.Some? <==> Strays(newest, mean, sigma, zEntry))
            && (r.Some? ==> TowardsMean(r.value.dir, newest, mean)
                            && Ramp(r.value.conf, Abs(newest - mean), sigma, zEntry, base, slope))
  {
    ScoreCompares(newest - mean, sigma, z, zEntry);
    if Abs(z) >= zEntry {
      CalledFor(z, zEntry, base, slope, newest - mean, sigma);
      StraysAway(newest, mean, sigma, zEntry);
    }
  }

  lemma StraysAway(newest: real, mean: real, sigma: real, zEntry: real)
    requires sigma > 0.0 && zEntry > 0.0 && Abs(newest - mean) >= zEntry * sigma
    ensures newest != mean
  {
    ProductPositive(zEntry, sigma, zEntry * sigma);
  }

  lemma CalledFor(z: real, zEntry: real, base: real, slope: real, gap: real, sigma: real)
    requires sigma > 0.0 && zEntry > 0.0 && slope >= 0.0 && base + slope <= 0.82
    requires Abs(z) * sigma == Abs(gap) && Abs(z) >= zEntry
    ensures var r := ReversionOf(z, zEntry, base, slope);
            r.dir == (if z < 0.0 then 1.0 else -1.0) && Ramp(r.conf, Abs(gap), sigma, zEntry, base, slope)
  {
    var t := (Abs(z) - zEntry) / (zEntry + 0.5);
    RampOfScore(Abs(z), Abs(gap), sigma, zEntry, base, slope, t);
    ScaledOrder(slope, Min(1.0, t), 1.0, slope * Min(1.0, t), slope);
  }

  lemma WindowBeforeNewest(history: seq<real>, lookback: nat)
    requires 0 < lookback <= |history|
    ensures LastOf(history, lookback)[..lookback - 1] == history[|history| - lookback..|history| - 1]
  {
    var n, window := |history|, LastOf(history, lookback);
    var before := window[..lookback - 1];
    forall i | 0 <= i < |before|
      ensures before[i] == history[n - lookback..n - 1][i]
    {
      assert before[i] == window[i] == history[n - lookback + i];
    }
  }

  // ---------- the prices ----------

  /** The last positive close among the bars with a key. */
  ghost function LastClose(bars: seq<Bar>, key: string): Option<real> {
    if bars == [] then None
    else
      var b := bars[|bars| - 1];
      if InstKey(b.instrument) == key && b.close > 0.0 then Some(b.close) else LastClose(bars[..|bars| - 1], key)
  }

  ghost predicate Tracks(lastPx: map<string, real>, bars: seq<Bar>) {
    forall key :: (if key in lastPx then Some(lastPx[key]) else None) == LastClose(bars, key)
  }

  /** The last bar is a leg's, and both legs have a price by then: those prices. */
  ghost function PairAt(leg1: Instrument, leg2: Instrument, bars: seq<Bar>): Option<(real, real)>
    requires bars != []
  {
    var b, p1, p2 := bars[|bars| - 1], LastClose(bars, InstKey(leg1)), LastClose(bars, InstKey(leg2));
    if b.close > 0.0 && InstKey(b.instrument) in {InstKey(leg1), InstKey(leg2)} && p1.Some? && p2.Some?
    then Some((p1.value, p2.value)) else None
  }

  /** The pairs of prices over a run. */
  ghost function PairHistory(leg1: Instrument, leg2: Instrument, bars: seq<Bar>): seq<(real, real)> {
    if bars == [] then []
    else
      var before := PairHistory(leg1, leg2, bars[..|bars| - 1]);
      match PairAt(leg1, leg2, bars)
      case None => before
      case Some(pair) => before + [pair]
  }

  lemma {:induction false} ClosesArePositive(bars: seq<Bar>, key: string)
    ensures LastClose(bars, key).Some? ==> LastClose(bars, key).value > 0.0
  {
    if bars != [] {
      ClosesArePositive(bars[..|bars| - 1], key);
    }
  }

  lemma {:induction false} PricesStep(leg1: Instrument, leg2: Instrument, lastPx: map<string, real>, bars: seq<Bar>,
                                      b: Bar)
    requires bars != [] && b == bars[|bars| - 1] && b.close > 0.0 && Tracks(lastPx, bars[..|bars| - 1])
    ensures Tracks(lastPx[InstKey(b.instrument) := b.close], bars)
    ensures PairPrices(leg1, leg2, lastPx[InstKey(b.instrument) := b.close], b) == PairAt(leg1, leg2, bars)
  {
    ClosesArePositive(bars, InstKey(leg1));
    ClosesArePositive(bars, InstKey(leg2));
    var after := lastPx[InstKey(b.instrument) := b.close];
    assert Tracks(after, bars);
    assert (if InstKey(leg1) in after then Some(after[InstKey(leg1)]) else None) == LastClose(bars, InstKey(leg1));
    assert (if InstKey(leg2) in after then Some(after[InstKey(leg2)]) else None) == LastClose(bars, InstKey(leg2));
  }

  // ---------- the log spread ----------

  /** The spread of each pair of prices. */
  ghost predicate Spreads(p: StatArbParams, pairs: seq<(real, real)>, spreads: seq<real>) {
    && |spreads| == |pairs|
    && forall i :: 0 <= i < |pairs| ==> spreads[i] == p.log(pairs[i].0) - p.hedge * p.log(pairs[i].1)
  }

  /** What a positively priced bar does when nothing is truncated. */
  lemma StatArbStepIs(p: StatArbParams, st: StatArbState, b: Bar, at: Option<(real, real)>, spreads: seq<real>)
    requires p.Valid() && p.HasLegs() && b.close > 0.0
    requires at == PairPrices(p.leg1, p.leg2, st.lastPx[InstKey(b.instrument) := b.close], b)
    requires spreads == if at.Some? then st.spreads + [p.log(at.value.0) - p.hedge * p.log(at.value.1)] else st.spreads
    ensures var (now, out) := StatArbStep(p, Unlimited, st, b);
            && now == StatArbState(st.lastPx[InstKey(b.instrument) := b.close], spreads)
            && out == if at.Some? then StatArbSignals(p, spreads, b.timestamp) else []
  {
    if at.Some? {
      var spread := p.Spread(at.value.0, at.value.1);
      assert spread == p.log(at.value.0) - p.hedge * p.log(at.value.1);
      assert Push(Unlimited, st.spreads, spread, p.MaxBuf()) == st.spreads + [spread];
    }
  }

  lemma SpreadsGrow(p: StatArbParams, bars: seq<Bar>, spreads: seq<real>, grown: seq<real>, at: Option<(real, real)>)
    requires bars != [] && at == PairAt(p.leg1, p.leg2, bars)
    requires Spreads(p, PairHistory(p.leg1, p.leg2, bars[..|bars| - 1]), spreads)
    requires grown == if at.Some? then spreads + [p.log(at.value.0) - p.hedge * p.log(at.value.1)] else spreads
    ensures Spreads(p, PairHistory(p.leg1, p.leg2, bars), grown)
  {
  }

  lemma {:induction false} NothingTracked(bars: seq<Bar>, lastPx: map<string, real>)
    requires bars != [] && bars[|bars| - 1].close <= 0.0 && Tracks(lastPx, bars[..|bars| - 1])
    ensures Tracks(lastPx, bars)
  {
    assert forall key :: LastClose(bars, key) == LastClose(bars[..|bars| - 1], key);
  }

  /** The state a bar leaves, when nothing is truncated, and what it emits. */
  lemma {:induction false} StatArbStepRemembers(p: StatArbParams, bars: seq<Bar>, st: StatArbState, b: Bar)
    requires p.Valid() && p.HasLegs() && bars != [] && b == bars[|bars| - 1]
    requires Tracks(st.lastPx, bars[..|bars| - 1])
    requires Spreads(p, PairHistory(p.leg1, p.leg2, bars[..|bars| - 1]), st.spreads)
    ensures var (now, out) := StatArbStep(p, Unlimited, st, b);
            && Tracks(now.lastPx, bars) && Spreads(p, PairHistory(p.leg1, p.leg2, bars), now.spreads)
            && out == if PairAt(p.leg1, p.leg2, bars).Some? then StatArbSignals(p, now.spreads, b.timestamp) else []
  {
    var at := PairAt(p.leg1, p.leg2, bars);
    var grown := if at.Some? then st.spreads + [p.log(at.value.0) - p.hedge * p.log(at.value.1)] else st.spreads;
    SpreadsGrow(p, bars, st.spreads, grown, at);
    if b.close > 0.0 {
      PricesStep(p.leg1, p.leg2, st.lastPx, bars, b);
      StatArbStepIs(p, st, b, at, grown);
    } else {
      NothingTracked(bars, st.lastPx);
    }
  }

  /** Without truncation the strategy remembers the last price of every instrument and the spread of every pair. */
  lemma {:induction false} StatArbRemembers(p: StatArbParams, bars: seq<Bar>)
    requires p.Valid() && p.HasLegs()
    ensures var st := Reached(StatArbRun(p, Unlimited), STATARB_INITIAL, bars);
            Tracks(st.lastPx, bars) && Spreads(p, PairHistory(p.leg1, p.leg2, bars), st.spreads)
  {
    if bars != [] {
      var before := bars[..|bars| - 1];
      StatArbRemembers(p, before);
      StatArbStepRemembers(p, bars, Reached(StatArbRun(p, Unlimited), STATARB_INITIAL, before), bars[|bars| - 1]);
    }
  }

  /** The newest of a history and the moments of the ones before it in a window. */
  ghost predicate Reading(history: seq<real>, lookback: nat, newest: real, mean: real, variance: real) {
    var n := |history|;
    0 < lookback <= n ==> newest == history[n - 1] && Moments(history[n - lookback..n - 1], mean, variance)
  }

  /** A history can always be read. */
  lemma ReadingExists(history: seq<real>, lookback: nat) returns (newest: real, mean: real, variance: real)
    requires lookback >= 2
    ensures Reading(history, lookback, newest, mean, variance)
  {
    newest, mean, variance := 0.0, 0.0, 0.0;
    var n := |history|;
    if lookback <= n {
      newest := history[n - 1];
      mean, variance := MomentsExist(history[n - lookback..n - 1]);
    }
  }

  /** A signal on each leg, the first back towards the mean and the second in a direction of its own. */
  ghost predicate PairOf(out: seq<Signal>, id: string, leg1: Instrument, leg2: Instrument, dir2: real, reason: string,
                         ts: int)
  {
    && |out| == 2 && out[0].instrument == leg1 && out[1].instrument == leg2 && out[1].direction == dir2
    && out[0].confidence == out[1].confidence
    && forall s :: s in out ==> s.strategyID == id && s.reason == reason && s.generated == ts && !s.flatten
                                && s.stopLossPrice == s.takeProfitPrice == s.entryReferencePrice == 0.0
  }

  /**
   What the strategy emits for `n` spreads, the last of which is new if the bar completed a pair: two signals exactly
   when there are enough and the newest strays, the first towards the mean and the second the other way.
   */
  ghost predicate SpreadCalls(p: StatArbParams, out: seq<Signal>, paired: bool, n: nat, newest: real, mean: real,
                              sigma: real, ts: int)
  {
    && (out != [] <==> paired && n >= p.lookback && Strays(newest, mean, sigma, p.zEntry))
    && (out != [] ==>
          && PairOf(out, p.id, p.leg1, p.leg2, -out[0].direction, "stat_arb_spread_mean_revert", ts)
          && TowardsMean(out[0].direction, newest, mean)
          && Ramp(out[0].confidence, Abs(newest - mean), sigma, p.zEntry, 0.42, 0.18))
  }

  /** What a spread history emits. */
  lemma HistoryEmits(p: StatArbParams, history: seq<real>, ts: int, newest: real, mean: real, variance: real)
    requires p.Valid() && Reading(history, p.lookback, newest, mean, variance)
    ensures SpreadCalls(p, StatArbSignals(p, history, ts), true, |history|, newest, mean, p.sqrt(variance), ts)
  {
    if |history| >= p.lookback {
      var window := LastOf(history, p.lookback);
      WindowBeforeNewest(history, p.lookback);
      RevertsExactlyWhen(window, p.zEntry, 0.42, 0.18, p.sqrt, newest, mean, variance);
    }
  }

  lemma NothingCalled(p: StatArbParams, n: nat, newest: real, mean: real, sigma: real, ts: int)
    ensures SpreadCalls(p, [], false, n, newest, mean, sigma, ts)
  {
  }

  lemma SpreadsAreOne(p: StatArbParams, pairs: seq<(real, real)>, spreads: seq<real>, spreads': seq<real>)
    requires Spreads(p, pairs, spreads) && Spreads(p, pairs, spreads')
    ensures spreads == spreads'
  {
  }

  /**
   Exactly when the log-spread strategy emits on the last bar of a run, and what: both legs have a price and one just
   changed, there are enough spreads, and the newest strays from the mean of the ones before it in the window. The first
   leg is sold exactly when it strays above, and the second goes the other way.
   */
  lemma {:induction false} StatArbEmitsExactlyWhen(p: StatArbParams, bars: seq<Bar>, history: seq<real>, newest: real,
                                                   mean: real, variance: real)
    requires p.Valid() && p.leg1.symbol != "" && p.leg2.symbol != "" && bars != []
    requires Spreads(p, PairHistory(p.leg1, p.leg2, bars), history)
    requires Reading(history, p.lookback, newest, mean, variance)
    ensures SpreadCalls(p, Emitted(StatArbRun(p, Capped), STATARB_INITIAL, bars), PairAt(p.leg1, p.leg2, bars).Some?,
                        |history|, newest, mean, p.sqrt(variance), bars[|bars| - 1].timestamp)
  {
    var before, b := bars[..|bars| - 1], bars[|bars| - 1];
    var st := Reached(StatArbRun(p, Unlimited), STATARB_INITIAL, before);
    StatArbRefinesUnlimited(p, bars);
    StatArbRemembers(p, before);
    StatArbStepRemembers(p, bars, st, b);
    SpreadsAreOne(p, PairHistory(p.leg1, p.leg2, bars), history, StatArbStep(p, Unlimited, st, b).0.spreads);
    HistoryEmits(p, history, b.timestamp, newest, mean, variance);
    NothingCalled(p, |history|, newest, mean, p.sqrt(variance), b.timestamp);
  }

  /** Without its two legs it emits nothing. */
  lemma StatArbNeedsLegs(p: StatArbParams, bars: seq<Bar>)
    requires p.Valid() && bars != [] && (p.leg1.symbol == "" || p.leg2.symbol == "")
    ensures Emitted(StatArbRun(p, Capped), STATARB_INITIAL, bars) == []
  {
  }

  // ---------- the residual of a rolling hedge ratio ----------

  ghost function LineError(x: real, y: real, a: real, b: real): real {
    (x - a - b * y) * (x - a - b * y)
  }

  /** Squared distances of the first prices from a line in the second. */
  ghost function LineErrors(win: seq<(real, real)>, a: real, b: real): seq<real> {
    seq(|win|, i requires 0 <= i < |win| => LineError(win[i].0, win[i].1, a, b))
  }

  /** No line is nearer. */
  ghost predicate BestLine(win: seq<(real, real)>, a: real, b: real) {
    forall c, d :: Sum(LineErrors(win, a, b)) <= Sum(LineErrors(win, c, d))
  }

  /** A window's hedge ratio, if there is one, is the slope of the line nearest to its pairs, and is not negligible. */
  lemma HedgeIsBestSlope(win: seq<(real, real)>, beta: real) returns (a: real)
    requires DeltaNeutralPair.Beta(win) == Some(beta)
    ensures Abs(beta) >= 1e-9 && BestLine(win, a, beta)
  {
    var x, y := DeltaNeutralPair.Firsts(win), DeltaNeutralPair.Seconds(win);
    var mx, my := Mean(x), Mean(y);
    a := mx - beta * my;
    forall c, d
      ensures Sum(LineErrors(win, a, beta)) <= Sum(LineErrors(win, c, d))
    {
      SlopeMinimisesSquaredError(x, y, c, d, mx, my, beta);
      LineErrorsAre(win, x, y, a, beta);
      LineErrorsAre(win, x, y, c, d);
    }
  }

  lemma LineErrorsAre(win: seq<(real, real)>, x: seq<real>, y: seq<real>, a: real, b: real)
    requires x == DeltaNeutralPair.Firsts(win) && y == DeltaNeutralPair.Seconds(win)
    ensures Sum(LineErrors(win, a, b)) == ResidualSS(x, y, a, b)
  {
    var errors := LineErrors(win, a, b);
    SquaredErrorsAre(x, y, a, b, errors);
  }

  lemma SquaredErrorsAre(x: seq<real>, y: seq<real>, a: real, b: real, errors: seq<real>)
    requires |errors| == |x| == |y|
    requires forall i :: 0 <= i < |errors| ==> errors[i] == LineError(x[i], y[i], a, b)
    ensures errors == SquaredErrors(x, y, a, b)
  {
    forall i | 0 <= i < |errors|
      ensures errors[i] == SquaredErrors(x, y, a, b)[i]
    {
      SquaredErrorAt(x, y, a, b, i);
    }
  }

  lemma SquaredErrorAt(x: seq<real>, y: seq<real>, a: real, b: real, i: nat)
    requires i < |x| == |y|
    ensures SquaredErrors(x, y, a, b)[i] == LineError(x[i], y[i], a, b)
  {
  }

  /** Exactly when a line's slope is the hedge ratio: the second prices vary, it is the nearest line, and not flat. */
  lemma HedgeExactlyWhen(win: seq<(real, real)>, seconds: seq<real>, mean: real, a: real, beta: real)
    requires |seconds| == |win| && (forall i :: 0 <= i < |win| ==> seconds[i] == win[i].1)
    requires |win| as real * mean == Sum(seconds) && BestLine(win, a, beta)
    ensures DeltaNeutralPair.Beta(win) == Some(beta) <==>
            |win| >= 3 && Sum(SquaredDistances(seconds, mean)) >= 1e-18 && Abs(beta) >= 1e-9
  {
    assert seconds == DeltaNeutralPair.Seconds(win);
    if |win| >= 3 {
      SameFactor(|win| as real, mean, Mean(seconds));
      assert SquaredDistances(seconds, mean) == Products(seconds, seconds, mean, mean);
      var firsts := DeltaNeutralPair.Firsts(win);
      if SlopeDefined(firsts, seconds) {
        var slope, mx := Slope(firsts, seconds), Mean(firsts);
        BestSlopeIsOne(win, firsts, seconds, a, beta, mx, mean, slope, mx - slope * mean);
      }
    }
  }

  lemma BestSlopeIsOne(win: seq<(real, real)>, x: seq<real>, y: seq<real>, a: real, beta: real, mx: real, my: real,
                       slope: real, c: real)
    requires x == DeltaNeutralPair.Firsts(win) && y == DeltaNeutralPair.Seconds(win) && BestLine(win, a, beta)
    requires SlopeDefined(x, y) && slope == Slope(x, y) && mx == Mean(x) && my == Mean(y) && c == mx - slope * my
    ensures beta == slope
  {
    assert Sum(LineErrors(win, a, beta)) <= Sum(LineErrors(win, c, slope));
    LineErrorsAre(win, x, y, a, beta);
    LineErrorsAre(win, x, y, c, slope);
    SlopeMinimisesSquaredError(x, y, a, beta, mx, my, slope);
  }

  /** How a window's hedge ratio is found. */
  type HedgeOf = seq<(real, real)> -> Option<real>

  ghost predicate FindsHedges(hedgeOf: HedgeOf) {
    forall win :: hedgeOf(win) == DeltaNeutralPair.Beta(win)
  }

  lemma HedgeIsBeta(hedgeOf: HedgeOf, win: seq<(real, real)>)
    requires FindsHedges(hedgeOf)
    ensures hedgeOf(win) == DeltaNeutralPair.Beta(win)
  {
  }

  /** The hedge ratio a new pair of prices is measured with, if any. */
  ghost function HedgeAt(p: DeltaNeutralPair.Params, bars: seq<Bar>, hedgeOf: HedgeOf): Option<real> {
    var pairs := PairHistory(p.leg1, p.leg2, bars);
    if bars == [] || PairAt(p.leg1, p.leg2, bars).None? || |pairs| < p.betaWindow then None
    else hedgeOf(pairs[|pairs| - p.betaWindow..])
  }

  /** What is left of the first price of a pair, once the second is hedged away. */
  ghost function Hedged(pair: (real, real), beta: real): real {
    pair.0 - beta * pair.1
  }

  /** That of each pair with a hedge ratio. */
  ghost function Residuals(p: DeltaNeutralPair.Params, bars: seq<Bar>, hedgeOf: HedgeOf): seq<real> {
    if bars == [] then []
    else
      var before := Residuals(p, bars[..|bars| - 1], hedgeOf);
      match (PairAt(p.leg1, p.leg2, bars), HedgeAt(p, bars, hedgeOf))
      case (Some(pair), Some(beta)) => before + [Hedged(pair, beta)]
      case _ => before
  }

  /** The state remembers the last prices, the pairs and the residuals. */
  ghost predicate Remembers(p: DeltaNeutralPair.Params, st: DeltaNeutralPair.State, bars: seq<Bar>,
                            hedgeOf: HedgeOf)
  {
    && Tracks(st.lastPx, bars)
    && st.pairs == PairHistory(p.leg1, p.leg2, bars) && st.spreadHist == Residuals(p, bars, hedgeOf)
  }

  /** The part of a bar after its pair, when nothing is truncated. */
  lemma RegressIs(p: DeltaNeutralPair.Params, st: DeltaNeutralPair.State, pair: (real, real), ts: int,
                  hedge: Option<real>, residuals: seq<real>)
    requires p.Valid()
    requires hedge == if |st.pairs| < p.betaWindow then None
                      else DeltaNeutralPair.Beta(st.pairs[|st.pairs| - p.betaWindow..])
    requires residuals == if hedge.Some? then st.spreadHist + [Hedged(pair, hedge.value)] else st.spreadHist
    ensures DeltaNeutralPair.Regress(p, Unlimited, st, pair.0, pair.1, ts)
         == (st.(spreadHist := residuals),
             if hedge.Some? then DeltaNeutralPair.Signals(p, residuals, hedge.value, ts) else [])
  {
    if |st.pairs| >= p.betaWindow {
      assert st.pairs[|st.pairs| - p.betaWindow..] == LastOf(st.pairs, p.betaWindow);
    }
    if hedge.Some? {
      var r := DeltaNeutralPair.Residual(pair.0, hedge.value, pair.1);
      assert r == Hedged(pair, hedge.value);
      assert Push(Unlimited, st.spreadHist, r, p.MaxSpreads()) == st.spreadHist + [r];
    }
  }

  /** A positively priced bar, when nothing is truncated and no pair is complete. */
  lemma DeltaKeepsPrice(p: DeltaNeutralPair.Params, st: DeltaNeutralPair.State, b: Bar, lastPx: map<string, real>)
    requires p.Valid() && p.HasLegs() && b.close > 0.0 && lastPx == st.lastPx[InstKey(b.instrument) := b.close]
    requires PairPrices(p.leg1, p.leg2, lastPx, b) == None
    ensures DeltaNeutralPair.Step(p, Unlimited, st, b)
         == (DeltaNeutralPair.State(lastPx, st.pairs, st.spreadHist), [])
  {
  }

  /** And one that completes a pair. */
  lemma DeltaTakesPair(p: DeltaNeutralPair.Params, st: DeltaNeutralPair.State, b: Bar, mid: DeltaNeutralPair.State,
                       pair: (real, real))
    requires p.Valid() && p.HasLegs() && b.close > 0.0
    requires mid == DeltaNeutralPair.State(st.lastPx[InstKey(b.instrument) := b.close], st.pairs + [pair],
                                           st.spreadHist)
    requires PairPrices(p.leg1, p.leg2, mid.lastPx, b) == Some(pair)
    ensures DeltaNeutralPair.Step(p, Unlimited, st, b)
         == DeltaNeutralPair.Regress(p, Unlimited, mid, pair.0, pair.1, b.timestamp)
  {
  }

  lemma DeltaPairIs(p: DeltaNeutralPair.Params, st: DeltaNeutralPair.State, b: Bar, mid: DeltaNeutralPair.State,
                    pair: (real, real), hedge: Option<real>, residuals: seq<real>)
    requires p.Valid() && p.HasLegs() && b.close > 0.0
    requires mid == DeltaNeutralPair.State(st.lastPx[InstKey(b.instrument) := b.close], st.pairs + [pair],
                                           st.spreadHist)
    requires PairPrices(p.leg1, p.leg2, mid.lastPx, b) == Some(pair)
    requires hedge == if |mid.pairs| < p.betaWindow then None
                      else DeltaNeutralPair.Beta(mid.pairs[|mid.pairs| - p.betaWindow..])
    requires residuals == if hedge.Some? then st.spreadHist + [Hedged(pair, hedge.value)] else st.spreadHist
    ensures DeltaNeutralPair.Step(p, Unlimited, st, b)
         == (mid.(spreadHist := residuals),
             if hedge.Some? then DeltaNeutralPair.Signals(p, residuals, hedge.value, b.timestamp) else [])
  {
    DeltaTakesPair(p, st, b, mid, pair);
    RegressIs(p, mid, pair, b.timestamp, hedge, residuals);
  }

  /** A bar without a positive price. */
  lemma {:induction false} DeltaSkips(p: DeltaNeutralPair.Params, bars: seq<Bar>, st: DeltaNeutralPair.State,
                                      hedgeOf: HedgeOf)
    requires bars != [] && bars[|bars| - 1].close <= 0.0 && Remembers(p, st, bars[..|bars| - 1], hedgeOf)
    ensures Remembers(p, st, bars, hedgeOf) && HedgeAt(p, bars, hedgeOf).None?
  {
    NothingTracked(bars, st.lastPx);
  }

  /** The history of residuals takes the new one, if the pair has a hedge ratio. */
  lemma {:induction false} ResidualsGrow(p: DeltaNeutralPair.Params, bars: seq<Bar>, pair: (real, real),
                                         hedge: Option<real>, hedgeOf: HedgeOf)
    requires bars != [] && PairAt(p.leg1, p.leg2, bars) == Some(pair) && hedge == HedgeAt(p, bars, hedgeOf)
    ensures var before := Residuals(p, bars[..|bars| - 1], hedgeOf);
            Residuals(p, bars, hedgeOf) == if hedge.Some? then before + [Hedged(pair, hedge.value)] else before
  {
  }

  lemma {:induction false} ResidualsStay(p: DeltaNeutralPair.Params, bars: seq<Bar>, hedgeOf: HedgeOf)
    requires bars != [] && PairAt(p.leg1, p.leg2, bars) == None
    ensures Residuals(p, bars, hedgeOf) == Residuals(p, bars[..|bars| - 1], hedgeOf)
    ensures HedgeAt(p, bars, hedgeOf) == None
  {
  }

  /** What a bar leaves and emits, when nothing is truncated. */
  ghost predicate StepsTo(p: DeltaNeutralPair.Params, bars: seq<Bar>, stepped: (DeltaNeutralPair.State, seq<Signal>),
                          lastPx: map<string, real>, hedge: Option<real>, ts: int, hedgeOf: HedgeOf)
    requires p.Valid()
  {
    var residuals := Residuals(p, bars, hedgeOf);
    stepped == (DeltaNeutralPair.State(lastPx, PairHistory(p.leg1, p.leg2, bars), residuals),
                if hedge.Some? then DeltaNeutralPair.Signals(p, residuals, hedge.value, ts) else [])
  }

  lemma {:induction false} PairRemembered(p: DeltaNeutralPair.Params, bars: seq<Bar>, st: DeltaNeutralPair.State,
                                          b: Bar, hedge: Option<real>, lastPx: map<string, real>,
                                          pair: (real, real), hedgeOf: HedgeOf)
    requires FindsHedges(hedgeOf)
    requires p.Valid() && p.HasLegs() && bars != [] && b == bars[|bars| - 1]
    requires Remembers(p, st, bars[..|bars| - 1], hedgeOf)
    requires b.close > 0.0 && lastPx == st.lastPx[InstKey(b.instrument) := b.close]
    requires hedge == HedgeAt(p, bars, hedgeOf)
    requires PairAt(p.leg1, p.leg2, bars) == Some(pair) && PairPrices(p.leg1, p.leg2, lastPx, b) == Some(pair)
    ensures StepsTo(p, bars, DeltaNeutralPair.Step(p, Unlimited, st, b), lastPx, hedge, b.timestamp, hedgeOf)
  {
    var mid := DeltaNeutralPair.State(lastPx, st.pairs + [pair], st.spreadHist);
    assert mid.pairs == PairHistory(p.leg1, p.leg2, bars);
    if |mid.pairs| >= p.betaWindow {
      HedgeIsBeta(hedgeOf, mid.pairs[|mid.pairs| - p.betaWindow..]);
    }
    ResidualsGrow(p, bars, pair, hedge, hedgeOf);
    DeltaPairIs(p, st, b, mid, pair, hedge, Residuals(p, bars, hedgeOf));
  }

  /** The state a bar leaves, when nothing is truncated, and what it emits. */
  lemma {:induction false} DeltaStepRemembers(p: DeltaNeutralPair.Params, bars: seq<Bar>, st: DeltaNeutralPair.State,
                                              b: Bar, hedge: Option<real>, hedgeOf: HedgeOf)
    requires FindsHedges(hedgeOf)
    requires p.Valid() && p.HasLegs() && bars != [] && b == bars[|bars| - 1]
    requires Remembers(p, st, bars[..|bars| - 1], hedgeOf)
    requires hedge == HedgeAt(p, bars, hedgeOf)
    ensures exists lastPx :: Tracks(lastPx, bars)
                             && StepsTo(p, bars, DeltaNeutralPair.Step(p, Unlimited, st, b), lastPx, hedge,
                                        b.timestamp, hedgeOf)
  {
    if b.close > 0.0 {
      var at, lastPx := PairAt(p.leg1, p.leg2, bars), st.lastPx[InstKey(b.instrument) := b.close];
      PricesStep(p.leg1, p.leg2, st.lastPx, bars, b);
      if at.Some? {
        PairRemembered(p, bars, st, b, hedge, lastPx, at.value, hedgeOf);
      } else {
        DeltaKeepsPrice(p, st, b, lastPx);
        ResidualsStay(p, bars, hedgeOf);
        assert StepsTo(p, bars, DeltaNeutralPair.Step(p, Unlimited, st, b), lastPx, hedge, b.timestamp, hedgeOf);
      }
    } else {
      DeltaSkips(p, bars, st, hedgeOf);
      assert StepsTo(p, bars, DeltaNeutralPair.Step(p, Unlimited, st, b), st.lastPx, hedge, b.timestamp, hedgeOf);
    }
  }

  /** Without truncation the strategy remembers every last price, every pair and every residual. */
  lemma {:induction false} DeltaRemembers(p: DeltaNeutralPair.Params, bars: seq<Bar>, hedgeOf: HedgeOf)
    requires FindsHedges(hedgeOf)
    requires p.Valid() && p.HasLegs()
    ensures Remembers(p, Reached(DeltaNeutralPair.Run(p, Unlimited), DeltaNeutralPair.INITIAL, bars), bars, hedgeOf)
  {
    if bars != [] {
      var before := bars[..|bars| - 1];
      DeltaRemembers(p, before, hedgeOf);
      DeltaStepRemembers(p, bars, Reached(DeltaNeutralPair.Run(p, Unlimited), DeltaNeutralPair.INITIAL, before),
                         bars[|bars| - 1], HedgeAt(p, bars, hedgeOf), hedgeOf);
    }
  }

  /**
   What the strategy emits for `n` residuals, the last of which is new if its pair had a hedge ratio; the second leg
   goes with the first when that ratio is negative.
   */
  ghost predicate ResidualCalls(p: DeltaNeutralPair.Params, out: seq<Signal>, hedge: Option<real>, n: nat, newest: real,
                                mean: real, sigma: real, ts: int)
  {
    && (out != [] <==> hedge.Some? && n >= p.lookback && Strays(newest, mean, sigma, p.zEntry))
    && (out != [] ==>
          && PairOf(out, p.id, p.leg1, p.leg2, if hedge.value < 0.0 then out[0].direction else -out[0].direction,
                    "delta_neutral_beta_spread_revert", ts)
          && TowardsMean(out[0].direction, newest, mean)
          && Ramp(out[0].confidence, Abs(newest - mean), sigma, p.zEntry, 0.4, 0.2))
  }

  /** What a residual history emits. */
  lemma ResidualsEmit(p: DeltaNeutralPair.Params, history: seq<real>, beta: real, ts: int, newest: real, mean: real,
                      variance: real)
    requires p.Valid() && Reading(history, p.lookback, newest, mean, variance)
    ensures ResidualCalls(p, DeltaNeutralPair.Signals(p, history, beta, ts), Some(beta), |history|, newest, mean,
                          p.sqrt(variance), ts)
  {
    if |history| >= p.lookback {
      var window := LastOf(history, p.lookback);
      WindowBeforeNewest(history, p.lookback);
      RevertsExactlyWhen(window, p.zEntry, 0.4, 0.2, p.sqrt, newest, mean, variance);
    }
  }

  /**
   Exactly when the rolling-hedge strategy emits on the last bar of a run, and what: the bar completes a pair of prices,
   the window of pairs has a hedge ratio, there are enough residuals, and the newest strays from the mean of the ones
   before it in the window.
   */
  lemma {:induction false} DeltaEmitsExactlyWhen(p: DeltaNeutralPair.Params, bars: seq<Bar>, history: seq<real>,
                                                 hedge: Option<real>, newest: real, mean: real, variance: real,
                                                 hedgeOf: HedgeOf)
    requires FindsHedges(hedgeOf)
    requires p.Valid() && p.leg1.symbol != "" && p.leg2.symbol != "" && bars != []
    requires history == Residuals(p, bars, hedgeOf) && hedge == HedgeAt(p, bars, hedgeOf)
    requires Reading(history, p.lookback, newest, mean, variance)
    ensures ResidualCalls(p, Emitted(DeltaNeutralPair.Run(p, Capped), DeltaNeutralPair.INITIAL, bars), hedge, |history|,
                          newest, mean, p.sqrt(variance), bars[|bars| - 1].timestamp)
  {
    var before, b := bars[..|bars| - 1], bars[|bars| - 1];
    DeltaNeutralPair.RefinesUnlimited(p, bars);
    DeltaRemembers(p, before, hedgeOf);
    DeltaStepRemembers(p, bars, Reached(DeltaNeutralPair.Run(p, Unlimited), DeltaNeutralPair.INITIAL, before), b,
                       hedge, hedgeOf);
    if hedge.Some? {
      ResidualsEmit(p, history, hedge.value, b.timestamp, newest, mean, variance);
    }
  }

  lemma DeltaNeedsLegs(p: DeltaNeutralPair.Params, bars: seq<Bar>)
    requires p.Valid() && bars != [] && (p.leg1.symbol == "" || p.leg2.symbol == "")
    ensures Emitted(DeltaNeutralPair.Run(p, Capped), DeltaNeutralPair.INITIAL, bars) == []
  {
  }
}
