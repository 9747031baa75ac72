/**
 The volatility-expansion strategy (internal/strategy/volatility.go). The decay weights come from half-lives through
 an exponential and the volatilities through a square root; the weights are parameters between 0 and 1 here, and the
 root is an arbitrary function.
 */
module VolatilityExpansion {
  import opened Types
  import opened RealMath
  import opened Instruments
  import opened KeyedStreams
  import opened MovingAverage

  datatype Params = Params(
    id: string,
    universe: seq<Instrument>,
    fastN: nat,
    slowN: nat,
    trFast: real,
    trSlow: real,
    expansionRatio: real,
    minTRRatio: real,
    sqrt: real -> real
  ) {
    predicate Valid() {
      1 <= fastN <= slowN && 0.0 < trFast <= 1.0 && 0.0 < trSlow <= 1.0
    }

    function Warmup(): nat {
      if slowN < 15 then 15 else slowN
    }
  }

  function PeriodAlpha(n: nat): real {
    2.0 / (n as real + 1.0)
  }

  datatype VolState = VolState(seen: nat, trFastVar: real, trSlowVar: real, fastEMA: real, slowEMA: real)

  const INITIAL := VolState(0, 0.0, 0.0, 0.0, 0.0)

  /** Range over close, floored, squared. */
  function SquaredRange(p: Params, b: Bar): real
    requires b.close > 0.0
  {
    var ratio := Abs(b.high - b.low) / b.close;
    var floored := if ratio < p.minTRRatio then p.minTRRatio else ratio;
    floored * floored
  }

  function Advance(p: Params, st: VolState, x: real, close: real): VolState {
    if st.seen == 0 then VolState(1, x, x, close, close)
    else VolState(st.seen + 1, Blend(p.trFast, st.trFastVar, x), Blend(p.trSlow, st.trSlowVar, x),
                  Blend(PeriodAlpha(p.fastN), st.fastEMA, close), Blend(PeriodAlpha(p.slowN), st.slowEMA, close))
  }

  /** What the fast volatility has to exceed. */
  function Threshold(p: Params, st: VolState): real {
    p.sqrt(st.trSlowVar) * p.expansionRatio
  }

  function Confidence(volFast: real, threshold: real): real
    requires threshold != 0.0
  {
    Min(0.85, 0.45 + 0.25 * Min(1.0, volFast / threshold - 1.0))
  }

  /** The trend's direction when volatility has expanded; nothing otherwise. */
  function Direction(p: Params, st: VolState): real {
    if st.seen <= p.Warmup() || st.trSlowVar <= 0.0 then 0.0
    else if p.sqrt(st.trFastVar) <= p.expansionRatio * p.sqrt(st.trSlowVar) then 0.0
    else if st.fastEMA > st.slowEMA then 1.0
    else if st.fastEMA < st.slowEMA then -1.0
    else 0.0
  }

  function AcceptedKey(p: Params, b: Bar): Option<string> {
    match Target(p.universe, b)
    case None => None
    case Some(t) => if b.close <= 0.0 then None else Some(InstKey(t))
  }

  /** Over a zero denominator the expansion is infinite, which the inner minimum turns into one. */
  function Emit(p: Params, st: VolState, b: Bar): seq<Signal> {
    var dir, target := Direction(p, st), Target(p.universe, b);
    if dir == 0.0 || target.None? then []
    else
      var conf := if Threshold(p, st) == 0.0 then 0.70 else Confidence(p.sqrt(st.trFastVar), Threshold(p, st));
      [Signal(p.id, target.value, dir, conf, "volatility_expansion_with_trend", b.timestamp, 0.0, 0.0, 0.0, false)]
  }

  function Step(p: Params, st: VolState, b: Bar): (VolState, seq<Signal>) {
    if b.close <= 0.0 then (st, [])
    else
      var now := Advance(p, st, SquaredRange(p, b), b.close);
      (now, Emit(p, now, b))
  }

  function AsMachine(p: Params): Machine<Bar, VolState, Signal> {
    Machine(b => AcceptedKey(p, b), INITIAL, (st, b) => Step(p, st, b))
  }

  class Volatility {
    const p: Params
    var state: map<string, VolState>

    constructor (p: Params)
      ensures this.p == p && state == map[]
    {
      this.p := p;
      state := map[];
    }

    method OnBar(b: Bar) returns (sigs: seq<Signal>)
      modifies this
      ensures (state, sigs) == Feed(AsMachine(p), old(state), b)
    {
      var target := Target(p.universe, b);
      if target.None? || b.close <= 0.0 {
        return [];
      }
      var key := InstKey(target.value);
      var st := if key in state then state[key] else INITIAL;
      ghost var before := st;
      var x := SquaredRange(p, b);
      if st.seen == 0 {
        st := st.(trFastVar := x, trSlowVar := x, fastEMA := b.close, slowEMA := b.close);
      } else {
        st := st.(trFastVar := Blend(p.trFast, st.trFastVar, x), trSlowVar := Blend(p.trSlow, st.trSlowVar, x),
                  fastEMA := Blend(PeriodAlpha(p.fastN), st.fastEMA, b.close),
                  slowEMA := Blend(PeriodAlpha(p.slowN), st.slowEMA, b.close));
      }
      st := st.(seen := st.seen + 1);
      assert st == Advance(p, before, x, b.close);
      state := state[key := st];
      sigs := Emit(p, st, b);
    }
  }

  ghost predicate Priced(bars: seq<Bar>) {
    forall i :: 0 <= i < |bars| ==> bars[i].close > 0.0
  }

  function Ranges(p: Params, bars: seq<Bar>): (xs: seq<real>)
    requires Priced(bars)
    ensures |xs| == |bars|
  {
    seq(|bars|, i requires 0 <= i < |bars| => SquaredRange(p, bars[i]))
  }

  /** Each of the four averages is the running average of its own series: the squared ranges, or the closes. */
  lemma {:induction false} StateTracksSeries(p: Params, bars: seq<Bar>)
    requires bars != [] && Priced(bars)
    ensures var st, n := Alone(AsMachine(p), bars), |bars|;
            && st.seen == n
            && st.trFastVar == Ema(p.trFast, Ranges(p, bars), n)
            && st.trSlowVar == Ema(p.trSlow, Ranges(p, bars), n)
            && st.fastEMA == Ema(PeriodAlpha(p.fastN), Closes(bars), n)
            && st.slowEMA == Ema(PeriodAlpha(p.slowN), Closes(bars), n)
  {
    var n, before := |bars|, bars[..|bars| - 1];
    if n > 1 {
      StateTracksSeries(p, before);
      EmaOfPrefix(p.trFast, Ranges(p, before), Ranges(p, bars), n - 1);
      EmaOfPrefix(p.trSlow, Ranges(p, before), Ranges(p, bars), n - 1);
      EmaOfPrefix(PeriodAlpha(p.fastN), Closes(before), Closes(bars), n - 1);
      EmaOfPrefix(PeriodAlpha(p.slowN), Closes(before), Closes(bars), n - 1);
    }
  }

  lemma {:induction false} OwnBarsArePriced(p: Params, bars: seq<Bar>, k: string)
    ensures Priced(Only(AsMachine(p), bars, k))
  {
    if bars != [] {
      OwnBarsArePriced(p, bars[..|bars| - 1], k);
    }
  }

  /** A key emits only after more accepted bars than the warm-up, and never against the order of its averages. */
  lemma SignalNeedsWarmup(p: Params, bars: seq<Bar>, k: string) returns (own: seq<Bar>)
    requires bars != [] && AcceptedKey(p, bars[|bars| - 1]) == Some(k)
    requires LastOutput(AsMachine(p), bars) != []
    ensures own == Only(AsMachine(p), bars, k) && |own| > p.Warmup() && Priced(own)
    ensures LastOutput(AsMachine(p), bars)[0].direction == Direction(p, Alone(AsMachine(p), own))
  {
    own := LastIsOwnStep(AsMachine(p), bars, k);
    OwnBarsArePriced(p, bars, k);
    StateTracksSeries(p, own);
    var b := bars[|bars| - 1];
    EmittedDirection(p, Alone(AsMachine(p), own), b);
  }

  lemma EmittedDirection(p: Params, st: VolState, b: Bar)
    requires Emit(p, st, b) != []
    ensures Emit(p, st, b)[0].direction == Direction(p, st) && st.seen > p.Warmup()
  {
  }

  /** On an instrument whose closes never fall, every signal is long. */
  lemma LongWhileRising(p: Params, bars: seq<Bar>, k: string)
    requires p.Valid() && bars != [] && AcceptedKey(p, bars[|bars| - 1]) == Some(k)
    requires var own := Only(AsMachine(p), bars, k);
             forall i, j :: 0 <= i <= j < |own| ==> own[i].close <= own[j].close
    requires LastOutput(AsMachine(p), bars) != []
    ensures LastOutput(AsMachine(p), bars)[0].direction == 1.0
  {
    var own := SignalNeedsWarmup(p, bars, k);
    StateTracksSeries(p, own);
    PeriodAlphasInOrder(p.fastN, p.slowN);
    RisingOrder(PeriodAlpha(p.fastN), PeriodAlpha(p.slowN), Closes(own), |own|);
  }

  /** On one whose closes never rise, every signal is short. */
  lemma ShortWhileFalling(p: Params, bars: seq<Bar>, k: string)
    requires p.Valid() && bars != [] && AcceptedKey(p, bars[|bars| - 1]) == Some(k)
    requires var own := Only(AsMachine(p), bars, k);
             forall i, j :: 0 <= i <= j < |own| ==> own[i].close >= own[j].close
    requires LastOutput(AsMachine(p), bars) != []
    ensures LastOutput(AsMachine(p), bars)[0].direction == -1.0
  {
    var own := SignalNeedsWarmup(p, bars, k);
    StateTracksSeries(p, own);
    PeriodAlphasInOrder(p.fastN, p.slowN);
    FallingOrder(PeriodAlpha(p.fastN), PeriodAlpha(p.slowN), Closes(own), |own|);
  }

  lemma PeriodAlphasInOrder(fast: nat, slow: nat)
    requires 1 <= fast <= slow
    ensures 0.0 < PeriodAlpha(slow) <= PeriodAlpha(fast) <= 1.0
  {
    QuotientsOrdered(fast as real + 1.0, slow as real + 1.0);
    QuotientsOrdered(2.0, fast as real + 1.0);
  }

  /** In any interleaving of instruments, each state key emits exactly what its own bars alone would make it emit. */
  lemma InstrumentsDoNotInterfere(p: Params, bars: seq<Bar>, k: string)
    ensures OutputsOf(AsMachine(p), bars, k) == OutputsOf(AsMachine(p), Only(AsMachine(p), bars, k), k)
  {
    KeysDoNotInterfere(AsMachine(p), bars, k);
  }

  // ---------- exactly what is emitted ----------

  /** A bar's squared range: how far it reaches in parts of its close, or the floor, squared. */
  ghost predicate RangeOf(p: Params, b: Bar, ratio: real, squared: real) {
    && ratio * b.close == Max(b.high, b.low) - Min(b.high, b.low)
    && squared == Max(ratio, p.minTRRatio) * Max(ratio, p.minTRRatio)
  }

  lemma RangeOfBar(p: Params, b: Bar, ratio: real, squared: real)
    requires b.close > 0.0 && RangeOf(p, b, ratio, squared)
    ensures squared == SquaredRange(p, b)
  {
    var quotient := Abs(b.high - b.low) / b.close;
    assert quotient * b.close == Abs(b.high - b.low);
    SameRatio(ratio, quotient, b.close);
  }

  lemma SameRatio(x: real, y: real, c: real)
    requires c > 0.0 && x * c == y * c
    ensures x == y
  {
    SignOfProduct(x - y, c, (x - y) * c);
    SignOfProduct(y - x, c, (y - x) * c);
  }

  /** What a key's bars are read with: the ratios, the squared ranges, and the smoothing factors of the two periods. */
  datatype Reading = Reading(ratios: seq<real>, squares: seq<real>, alpha: real, beta: real) {
    ghost predicate Of(p: Params, own: seq<Bar>) {
      && |ratios| == |squares| == |own|
      && (forall i :: 0 <= i < |own| ==> RangeOf(p, own[i], ratios[i], squares[i]))
      && alpha * (p.fastN as real + 1.0) == 2.0 && beta * (p.slowN as real + 1.0) == 2.0
    }
  }

  /** Longer than fifteen bars and than the slow period. */
  ghost predicate WarmedUp(p: Params, n: nat) {
    n > 15 && n > p.slowN
  }

  ghost predicate Expanded(p: Params, fast: real, slow: real) {
    slow > 0.0 && p.sqrt(fast) > p.expansionRatio * p.sqrt(slow)
  }

  lemma DirectionExactly(p: Params, st: VolState)
    ensures Direction(p, st) != 0.0 <==>
            && WarmedUp(p, st.seen) && Expanded(p, st.trFastVar, st.trSlowVar) && st.fastEMA != st.slowEMA
    ensures Direction(p, st) != 0.0 ==> Direction(p, st) == if st.fastEMA > st.slowEMA then 1.0 else -1.0
  {
  }

  /** How far past the threshold the fast volatility is decides the confidence, up to twice the threshold. */
  ghost predicate Ramp(conf: real, fast: real, threshold: real) {
    if threshold == 0.0 || (threshold > 0.0 && fast >= threshold + threshold) then conf == 0.7
    else threshold > 0.0 ==> (conf - 0.45) * threshold == 0.25 * (fast - threshold)
  }

  lemma ConfidenceExactly(fast: real, threshold: real)
    requires threshold > 0.0
    ensures Ramp(Confidence(fast, threshold), fast, threshold)
  {
    var q := fast / threshold;
    assert q * threshold == fast;
    RampOfQuotient(q, fast, threshold, 0.45 + 0.25 * Min(1.0, q - 1.0));
  }

  lemma RampOfQuotient(q: real, fast: real, threshold: real, conf: real)
    requires threshold > 0.0 && q * threshold == fast && conf == 0.45 + 0.25 * Min(1.0, q - 1.0)
    ensures Ramp(conf, fast, threshold)
  {
    var excess := (q - 2.0) * threshold;
    assert excess == fast - threshold - threshold;
    SignOfProduct(q - 2.0, threshold, excess);
    if q < 2.0 {
      var part := (q - 1.0) * threshold;
      assert part == fast - threshold;
      assert (0.25 * (q - 1.0)) * threshold == 0.25 * part;
    }
  }

  lemma EmitExactly(p: Params, st: VolState, b: Bar, threshold: real)
    requires Target(p.universe, b).Some? && threshold == Threshold(p, st)
    ensures Emit(p, st, b) != [] <==> Direction(p, st) != 0.0
    ensures Emit(p, st, b) != [] ==>
              var s := Emit(p, st, b)[0];
              && |Emit(p, st, b)| == 1 && s.strategyID == p.id && s.instrument == Target(p.universe, b).value
              && s.direction == Direction(p, st) && s.reason == "volatility_expansion_with_trend"
              && s.generated == b.timestamp && !s.flatten
              && s.confidence == if threshold == 0.0 then 0.7 else Confidence(p.sqrt(st.trFastVar), threshold)
  {
  }

  lemma RampOfConfidence(fast: real, threshold: real, conf: real)
    requires conf == if threshold == 0.0 then 0.7 else Confidence(fast, threshold)
    ensures Ramp(conf, fast, threshold)
  {
    if threshold > 0.0 {
      ConfidenceExactly(fast, threshold);
    }
  }

  /** The squares read off bars are their squared ranges. */
  lemma SquaresAreRanges(p: Params, own: seq<Bar>, r: Reading)
    requires Priced(own) && r.Of(p, own)
    ensures r.squares == Ranges(p, own)
  {
    forall i | 0 <= i < |own|
      ensures r.squares[i] == Ranges(p, own)[i]
    {
      RangeOfBar(p, own[i], r.ratios[i], r.squares[i]);
    }
  }

  lemma FactorsAreAlphas(p: Params, own: seq<Bar>, r: Reading)
    requires r.Of(p, own)
    ensures r.alpha == PeriodAlpha(p.fastN) && r.beta == PeriodAlpha(p.slowN)
  {
    SameRatio(r.alpha, PeriodAlpha(p.fastN), p.fastN as real + 1.0);
    SameRatio(r.beta, PeriodAlpha(p.slowN), p.slowN as real + 1.0);
  }

  /** The state of a key, read off its own bars. */
  ghost predicate StateOf(p: Params, st: VolState, own: seq<Bar>, r: Reading)
    requires own != [] && |r.squares| == |own|
  {
    && st.seen == |own|
    && st.trFastVar == Ema(p.trFast, r.squares, |own|) && st.trSlowVar == Ema(p.trSlow, r.squares, |own|)
    && st.fastEMA == Ema(r.alpha, Closes(own), |own|) && st.slowEMA == Ema(r.beta, Closes(own), |own|)
  }

  lemma {:induction false} OwnState(p: Params, own: seq<Bar>, r: Reading)
    requires own != [] && Priced(own) && r.Of(p, own)
    ensures StateOf(p, Alone(AsMachine(p), own), own, r)
  {
    StateTracksSeries(p, own);
    SquaresAreRanges(p, own, r);
    FactorsAreAlphas(p, own, r);
  }

  /** What the last bar of a run emits is what its key's state calls for. */
  lemma {:induction false} OutputOfState(p: Params, bars: seq<Bar>, k: string, own: seq<Bar>)
    requires bars != [] && AcceptedKey(p, bars[|bars| - 1]) == Some(k) && own == Only(AsMachine(p), bars, k)
    ensures own != [] && Priced(own)
    ensures LastOutput(AsMachine(p), bars) == Emit(p, Alone(AsMachine(p), own), bars[|bars| - 1])
  {
    var _ := LastIsOwnStep(AsMachine(p), bars, k);
    OwnBarsArePriced(p, bars, k);
  }

  /** All of what a state calls for. */
  ghost predicate Calls(p: Params, out: seq<Signal>, n: nat, fast: real, slow: real, up: real, down: real, b: Bar) {
    && (out != [] <==> WarmedUp(p, n) && Expanded(p, fast, slow) && up != down)
    && (out != [] ==>
          && |out| == 1 && out[0].direction == (if up > down then 1.0 else -1.0)
          && out[0].strategyID == p.id && out[0].generated == b.timestamp && !out[0].flatten
          && out[0].instrument.symbol == b.instrument.symbol && out[0].instrument.venue == b.instrument.venue
          && Ramp(out[0].confidence, p.sqrt(fast), p.sqrt(slow) * p.expansionRatio))
  }

  lemma StateCalls(p: Params, st: VolState, b: Bar)
    requires Target(p.universe, b).Some?
    ensures Calls(p, Emit(p, st, b), st.seen, st.trFastVar, st.trSlowVar, st.fastEMA, st.slowEMA, b)
  {
    DirectionExactly(p, st);
    var threshold := Threshold(p, st);
    EmitExactly(p, st, b, threshold);
    if Emit(p, st, b) != [] {
      RampOfConfidence(p.sqrt(st.trFastVar), threshold, Emit(p, st, b)[0].confidence);
    }
  }

  /**
   Exactly when the last bar of a run emits: its key has warmed up, the fast average of its squared ranges stands out
   from the slow one by the expansion ratio, root by root, and the averages of its closes differ.
   */
  lemma {:induction false} EmitsExactlyWhen(p: Params, bars: seq<Bar>, k: string, own: seq<Bar>, r: Reading, fast: real,
                                            slow: real)
    requires bars != [] && AcceptedKey(p, bars[|bars| - 1]) == Some(k)
    requires own == Only(AsMachine(p), bars, k) && r.Of(p, own) && own != []
    requires fast == Ema(p.trFast, r.squares, |own|) && slow == Ema(p.trSlow, r.squares, |own|)
    ensures Calls(p, LastOutput(AsMachine(p), bars), |own|, fast, slow, Ema(r.alpha, Closes(own), |own|),
                  Ema(r.beta, Closes(own), |own|), bars[|bars| - 1])
  {
    OutputOfState(p, bars, k, own);
    OwnState(p, own, r);
    StateCalls(p, Alone(AsMachine(p), own), bars[|bars| - 1]);
  }
}
