/** The dual-EMA cross strategy with an ATR filter and a session window (internal/strategy/ema_cross_atr.go). */
module EMACross {
  import opened Types
  import opened RealMath
  import opened Instruments
  import opened KeyedStreams
  import opened MovingAverage

  datatype Params = Params(
    id: string,
    universe: seq<Instrument>,
    fast: nat,
    slow: nat,
    atrPeriod: nat,
    minATRRatio: real,
    maxATRRatio: real,
    stopATRMult: real,
    takeProfitRR: real
  ) {
    /** What the constructor establishes, whatever it is given. */
    predicate Valid() {
      1 <= fast <= slow && 1 <= atrPeriod && stopATRMult > 0.0 && takeProfitRR > 0.0
    }

    function FastAlpha(): real {
      2.0 / (fast as real + 1.0)
    }

    function SlowAlpha(): real {
      2.0 / (slow as real + 1.0)
    }

    function Warmup(): nat {
      if atrPeriod > slow then atrPeriod else slow
    }

    /** The minimum bar count before the strategy may emit a signal. */
    function WarmupBars(): nat {
      Warmup() + 1
    }
  }

  /** The UTC hours a signal may be emitted in; the end is exclusive. */
  datatype Session = Session(enabled: bool, start: int, end: int)

  datatype BarState = BarState(
    seen: nat,
    hasPrevClose: bool,
    prevClose: real,
    fastEMA: real,
    slowEMA: real,
    atrInitCount: nat,
    sumTR: real,
    atr: real
  )

  const INITIAL := BarState(0, false, 0.0, 0.0, 0.0, 0, 0.0, 0.0)

  function TrueRange(hasPrev: bool, prev: real, b: Bar): real {
    if !hasPrev then b.high - b.low
    else Max(b.high - b.low, Max(Abs(b.high - prev), Abs(b.low - prev)))
  }

  function Wilder(atr: real, tr: real, period: nat): real
    requires period > 0
  {
    (atr * (period as real - 1.0) + tr) / period as real
  }

  /** The state after an accepted bar. */
  function Advance(p: Params, st: BarState, b: Bar): BarState
    requires p.Valid()
  {
    var tr := TrueRange(st.hasPrevClose, st.prevClose, b);
    var warming := st.atrInitCount < p.atrPeriod;
    var sumTR := if warming then st.sumTR + tr else st.sumTR;
    var count := if warming then st.atrInitCount + 1 else st.atrInitCount;
    var atr := if !warming then Wilder(st.atr, tr, p.atrPeriod)
               else if count == p.atrPeriod then sumTR / p.atrPeriod as real
               else st.atr;
    var fast := if st.seen == 0 then b.close else Blend(p.FastAlpha(), st.fastEMA, b.close);
    var slow := if st.seen == 0 then b.close else Blend(p.SlowAlpha(), st.slowEMA, b.close);
    BarState(st.seen + 1, true, b.close, fast, slow, count, sumTR, atr)
  }

  /** Hour of day, UTC, of a Unix time. */
  function HourUTC(ts: int): int {
    ts % 86400 / 3600
  }

  predicate InSessionUTC(ts: int, startH: int, endH: int) {
    var h := HourUTC(ts);
    if startH < endH then startH <= h < endH else h >= startH || h < endH
  }

  /** +1 when the fast average crosses above the slow one, -1 when it crosses below. */
  function Cross(before: BarState, now: BarState): real {
    if before.fastEMA <= before.slowEMA && now.fastEMA > now.slowEMA then 1.0
    else if before.fastEMA >= before.slowEMA && now.fastEMA < now.slowEMA then -1.0
    else 0.0
  }

  /** Stop and target of an entry: a multiple of the ATR on either side, the target further out by the reward ratio. */
  function Bracket(p: Params, entry: real, atr: real, dir: real): (real, real) {
    var risk := p.stopATRMult * atr;
    if dir > 0.0 then (entry - risk, entry + p.takeProfitRR * risk) else (entry + risk, entry - p.takeProfitRR * risk)
  }

  /** What an accepted bar emits, apart from the session window. */
  function Candidate(p: Params, target: Instrument, before: BarState, now: BarState, b: Bar): seq<Signal>
    requires p.Valid() && b.close > 0.0
  {
    var ratio, dir := now.atr / b.close, Cross(before, now);
    if now.seen <= p.Warmup() || now.atrInitCount < p.atrPeriod then []
    else if ratio < p.minATRRatio || (p.maxATRRatio > 0.0 && ratio > p.maxATRRatio) || dir == 0.0 then []
    else
      var (stop, tp) := Bracket(p, b.close, now.atr, dir);
      [Signal(p.id, target, dir, 0.72, if dir > 0.0 then "ema_cross_atr_bull" else "ema_cross_atr_bear", b.timestamp,
              b.close, stop, tp, false)]
  }

  predicate SessionOpen(w: Session, b: Bar) {
    !w.enabled || InSessionUTC(b.timestamp, w.start, w.end)
  }

  /** The strategy accepts positively priced bars of its instruments. */
  function AcceptedKey(p: Params, b: Bar): Option<string> {
    match Target(p.universe, b)
    case None => None
    case Some(t) => if b.close <= 0.0 then None else Some(InstKey(t))
  }

  function Step(p: Params, w: Session, st: BarState, b: Bar): (BarState, seq<Signal>)
    requires p.Valid()
  {
    var now := Advance(p, st, b);
    if AcceptedKey(p, b).None? || !SessionOpen(w, b) then (now, [])
    else (now, Candidate(p, Target(p.universe, b).value, st, now, b))
  }

  function AsMachine(p: Params, w: Session): Machine<Bar, BarState, Signal>
    requires p.Valid()
  {
    Machine(b => AcceptedKey(p, b), INITIAL, (st, b) requires p.Valid() => Step(p, w, st, b))
  }

  class EMACrossATR {
    const p: Params
    const w: Session
    var state: map<string, BarState>

    constructor (p: Params, w: Session)
      requires p.Valid()
      ensures this.p == p && this.w == w && state == map[]
    {
      this.p, this.w := p, w;
      state := map[];
    }

    method OnBar(b: Bar) returns (sigs: seq<Signal>)
      requires p.Valid()
      modifies this
      ensures (state, sigs) == Feed(AsMachine(p, w), old(state), b)
    {
      var target := Target(p.universe, b);
      if target.None? || b.close <= 0.0 {
        return [];
      }
      var key := InstKey(target.value);
      var before := if key in state then state[key] else INITIAL;
      var st := Update(before, b);
      state := state[key := st];
      sigs := Emit(target.value, before, st, b);
    }

    /** The bar's effect on its instrument's averages, true range and counters. */
    method Update(st0: BarState, b: Bar) returns (st: BarState)
      requires p.Valid()
      ensures st == Advance(p, st0, b)
    {
      st := st0;
      var tr;
      if !st.hasPrevClose {
        tr := b.high - b.low;
      } else {
        tr := Max(b.high - b.low, Max(Abs(b.high - st.prevClose), Abs(b.low - st.prevClose)));
      }
      if st.atrInitCount < p.atrPeriod {
        st := st.(sumTR := st.sumTR + tr, atrInitCount := st.atrInitCount + 1);
        if st.atrInitCount == p.atrPeriod {
          st := st.(atr := st.sumTR / p.atrPeriod as real);
        }
      } else {
        st := st.(atr := Wilder(st.atr, tr, p.atrPeriod));
      }
      if st.seen == 0 {
        st := st.(fastEMA := b.close, slowEMA := b.close);
      } else {
        st := st.(fastEMA := Blend(p.FastAlpha(), st.fastEMA, b.close),
                  slowEMA := Blend(p.SlowAlpha(), st.slowEMA, b.close));
      }
      st := st.(seen := st.seen + 1, prevClose := b.close, hasPrevClose := true);
    }

    /** The signal a state change leads to, with its stop and target. */
    method Emit(target: Instrument, before: BarState, st: BarState, b: Bar) returns (sigs: seq<Signal>)
      requires p.Valid() && b.close > 0.0
      ensures sigs == if SessionOpen(w, b) then Candidate(p, target, before, st, b) else []
    {
      if st.seen <= p.Warmup() || st.atrInitCount < p.atrPeriod {
        return [];
      }
      var ratio := st.atr / b.close;
      if ratio < p.minATRRatio {
        return [];
      }
      if p.maxATRRatio > 0.0 && ratio > p.maxATRRatio {
        return [];
      }
      var dir, reason := 0.0, "";
      if before.fastEMA <= before.slowEMA && st.fastEMA > st.slowEMA {
        dir, reason := 1.0, "ema_cross_atr_bull";
      } else if before.fastEMA >= before.slowEMA && st.fastEMA < st.slowEMA {
        dir, reason := -1.0, "ema_cross_atr_bear";
      }
      if dir == 0.0 {
        return [];
      }
      if w.enabled && !InSessionUTC(b.timestamp, w.start, w.end) {
        return [];
      }
      var (stopPx, tpPx) := Bracket(p, b.close, st.atr, dir);
      return [Signal(p.id, target, dir, 0.72, reason, b.timestamp, b.close, stopPx, tpPx, false)];
    }
  }

  // ---------- what a key's state is after its own bars ----------

  function TrueRangeAt(bars: seq<Bar>, i: nat): real
    requires i < |bars|
  {
    TrueRange(i > 0, if i > 0 then bars[i - 1].close else 0.0, bars[i])
  }

  /** The moving averages are those of the closes, and the counters count the bars. */
  lemma {:induction false} StateTracksSeries(p: Params, w: Session, bars: seq<Bar>)
    requires p.Valid() && bars != []
    ensures var st, n := Alone(AsMachine(p, w), bars), |bars|;
            && st.seen == n && st.hasPrevClose && st.prevClose == bars[n - 1].close
            && st.atrInitCount == (if n < p.atrPeriod then n else p.atrPeriod)
            && st.fastEMA == Ema(p.FastAlpha(), Closes(bars), n)
            && st.slowEMA == Ema(p.SlowAlpha(), Closes(bars), n)
  {
    var n, before := |bars|, bars[..|bars| - 1];
    AdvanceFields(p, Alone(AsMachine(p, w), before), bars[n - 1]);
    if n > 1 {
      StateTracksSeries(p, w, before);
      EmaOfPrefix(p.FastAlpha(), Closes(before), Closes(bars), n - 1);
      EmaOfPrefix(p.SlowAlpha(), Closes(before), Closes(bars), n - 1);
    }
  }

  /** What a bar does to the averages and the counters. */
  lemma AdvanceFields(p: Params, st: BarState, b: Bar)
    requires p.Valid()
    ensures var now := Advance(p, st, b);
            && now.seen == st.seen + 1 && now.hasPrevClose && now.prevClose == b.close
            && now.atrInitCount == st.atrInitCount + (if st.atrInitCount < p.atrPeriod then 1 else 0)
            && now.fastEMA == (if st.seen == 0 then b.close else Blend(p.FastAlpha(), st.fastEMA, b.close))
            && now.slowEMA == (if st.seen == 0 then b.close else Blend(p.SlowAlpha(), st.slowEMA, b.close))
  {
  }

  /** In closed form: each average weights the closes geometrically. */
  lemma AveragesAreGeometric(p: Params, w: Session, bars: seq<Bar>)
    requires p.Valid() && bars != []
    ensures var st, n := Alone(AsMachine(p, w), bars), |bars|;
            && st.fastEMA == WeightedTo(Weights(p.FastAlpha(), n), Closes(bars), n)
            && st.slowEMA == WeightedTo(Weights(p.SlowAlpha(), n), Closes(bars), n)
  {
    StateTracksSeries(p, w, bars);
    ClosedForm(p.FastAlpha(), Closes(bars), |bars|);
    ClosedForm(p.SlowAlpha(), Closes(bars), |bars|);
  }

  /** While closes never fall, the slow average stays at or below the fast one, and that at or below the close. */
  lemma AveragesInOrderWhileRising(p: Params, w: Session, bars: seq<Bar>)
    requires p.Valid() && bars != []
    requires forall i, j :: 0 <= i <= j < |bars| ==> bars[i].close <= bars[j].close
    ensures var st := Alone(AsMachine(p, w), bars);
            st.slowEMA <= st.fastEMA <= bars[|bars| - 1].close
  {
    AlphasInOrder(p);
    StateTracksSeries(p, w, bars);
    RisingOrder(p.FastAlpha(), p.SlowAlpha(), Closes(bars), |bars|);
  }

  /** While they never rise, the other way round. */
  lemma AveragesInOrderWhileFalling(p: Params, w: Session, bars: seq<Bar>)
    requires p.Valid() && bars != []
    requires forall i, j :: 0 <= i <= j < |bars| ==> bars[i].close >= bars[j].close
    ensures var st := Alone(AsMachine(p, w), bars);
            bars[|bars| - 1].close <= st.fastEMA <= st.slowEMA
  {
    AlphasInOrder(p);
    StateTracksSeries(p, w, bars);
    FallingOrder(p.FastAlpha(), p.SlowAlpha(), Closes(bars), |bars|);
  }

  lemma AlphasInOrder(p: Params)
    requires p.Valid()
    ensures 0.0 < p.SlowAlpha() <= p.FastAlpha() <= 1.0
  {
    var f, s := p.fast as real + 1.0, p.slow as real + 1.0;
    assert p.FastAlpha() * f == 2.0 && p.SlowAlpha() * s == 2.0;
    QuotientsOrdered(f, s);
    QuotientsOrdered(2.0, f);
  }

  /** Each average stays between any bounds on the closes it has seen. */
  lemma AveragesInHull(p: Params, w: Session, bars: seq<Bar>, lo: real, hi: real)
    requires p.Valid() && bars != []
    requires forall i :: 0 <= i < |bars| ==> lo <= bars[i].close <= hi
    ensures var st := Alone(AsMachine(p, w), bars);
            lo <= st.fastEMA <= hi && lo <= st.slowEMA <= hi
  {
    AlphasInOrder(p);
    StateTracksSeries(p, w, bars);
    InHull(p.FastAlpha(), Closes(bars), |bars|, lo, hi);
    InHull(p.SlowAlpha(), Closes(bars), |bars|, lo, hi);
  }

  /** Wilder's update is a moving-average update with weight 1/period. */
  lemma WilderIsBlend(atr: real, tr: real, period: nat, alpha: real)
    requires period > 0 && alpha == 1.0 / period as real
    ensures Wilder(atr, tr, period) == Blend(alpha, atr, tr)
    ensures 0.0 < alpha <= 1.0
  {
    var n, w := period as real, Wilder(atr, tr, period);
    assert alpha * n == 1.0;
    assert w * n == atr * n - atr + tr;
    assert Blend(alpha, atr, tr) * n == atr * n + (alpha * n) * (tr - atr);
    CancelScale(n, w, Blend(alpha, atr, tr));
    CancelScale(n, Blend(alpha, atr, tr), w);
  }

  lemma WilderInHull(atr: real, tr: real, period: nat, lo: real, hi: real)
    requires period > 0 && lo <= atr <= hi && lo <= tr <= hi
    ensures lo <= Wilder(atr, tr, period) <= hi
  {
    var alpha := 1.0 / period as real;
    WilderIsBlend(atr, tr, period, alpha);
    BlendInHull(alpha, atr, tr, lo, hi);
  }

  lemma CancelScale(n: real, a: real, b: real)
    requires n > 0.0 && n * a <= n * b
    ensures a <= b
  {
    if b < a {
      ProductPositive(n, a - b, n * (a - b));
    }
  }

  ghost predicate AtrBounded(p: Params, st: BarState, n: nat, lo: real, hi: real) {
    if n < p.atrPeriod then n as real * lo <= st.sumTR <= n as real * hi else lo <= st.atr <= hi
  }

  lemma AtrStep(p: Params, st: BarState, b: Bar, n: nat, tr: real, lo: real, hi: real)
    requires p.Valid() && AtrBounded(p, st, n, lo, hi)
    requires st.atrInitCount == if n < p.atrPeriod then n else p.atrPeriod
    requires tr == TrueRange(st.hasPrevClose, st.prevClose, b) && lo <= tr <= hi
    ensures AtrBounded(p, Advance(p, st, b), n + 1, lo, hi)
  {
    if n < p.atrPeriod {
      SumStep(st.sumTR, tr, n, lo, hi);
      if n + 1 == p.atrPeriod {
        MeanInHull(st.sumTR + tr, (n + 1) as real, lo, hi);
      }
    } else {
      WilderInHull(st.atr, tr, p.atrPeriod, lo, hi);
    }
  }

  lemma SumStep(sum: real, tr: real, n: nat, lo: real, hi: real)
    requires n as real * lo <= sum <= n as real * hi && lo <= tr <= hi
    ensures (n + 1) as real * lo <= sum + tr <= (n + 1) as real * hi
  {
    assert (n + 1) as real * lo == n as real * lo + lo && (n + 1) as real * hi == n as real * hi + hi;
  }

  /**
   Once it is initialised, Wilder's average lies between any bounds on the true ranges; before that their sum does,
   scaled.
   */
  lemma {:induction false} AtrInHull(p: Params, w: Session, bars: seq<Bar>, lo: real, hi: real)
    requires p.Valid()
    requires forall i :: 0 <= i < |bars| ==> lo <= TrueRangeAt(bars, i) <= hi
    ensures AtrBounded(p, Alone(AsMachine(p, w), bars), |bars|, lo, hi)
  {
    if bars != [] {
      var n, before := |bars|, bars[..|bars| - 1];
      forall i | 0 <= i < |before|
        ensures TrueRangeAt(before, i) == TrueRangeAt(bars, i)
      {
      }
      AtrInHull(p, w, before, lo, hi);
      if before != [] {
        StateTracksSeries(p, w, before);
      }
      var st := Alone(AsMachine(p, w), before);
      assert TrueRange(st.hasPrevClose, st.prevClose, bars[n - 1]) == TrueRangeAt(bars, n - 1) by {
        assert n > 1 ==> before[n - 2] == bars[n - 2];
      }
      AtrStep(p, st, bars[n - 1], n - 1, TrueRangeAt(bars, n - 1), lo, hi);
    }
  }

  lemma MeanInHull(sum: real, n: real, lo: real, hi: real)
    requires n > 0.0 && n * lo <= sum <= n * hi
    ensures lo <= sum / n <= hi
  {
    var q := sum / n;
    assert n * q == sum;
    CancelScale(n, lo, q);
    CancelScale(n, q, hi);
  }

  // ---------- what runs emit ----------

  /** A key emits nothing before its `WarmupBars()`-th accepted bar. */
  lemma NoSignalBeforeWarmup(p: Params, w: Session, bars: seq<Bar>, k: string)
    requires p.Valid() && bars != [] && AcceptedKey(p, bars[|bars| - 1]) == Some(k)
    requires LastOutput(AsMachine(p, w), bars) != []
    ensures |Only(AsMachine(p, w), bars, k)| >= p.WarmupBars()
  {
    var own := LastIsOwnStep(AsMachine(p, w), bars, k);
    StateTracksSeries(p, w, own);
  }

  /** The signal of a key's last bar, from the key's own history. */
  lemma LastOutputFromOwnBars(p: Params, w: Session, bars: seq<Bar>, k: string)
    returns (own: seq<Bar>, st: BarState, now: BarState)
    requires p.Valid() && bars != [] && AcceptedKey(p, bars[|bars| - 1]) == Some(k)
    ensures own == Only(AsMachine(p, w), bars, k) && own != [] && own[|own| - 1] == bars[|bars| - 1]
    ensures st == Alone(AsMachine(p, w), own[..|own| - 1]) && now == Alone(AsMachine(p, w), own)
    ensures LastOutput(AsMachine(p, w), bars) != [] ==>
              && LastOutput(AsMachine(p, w), bars)[0].direction == Cross(st, now) != 0.0
              && |own| >= 2
  {
    var m := AsMachine(p, w);
    own := LastIsOwnStep(m, bars, k);
    st, now := Alone(m, own[..|own| - 1]), Alone(m, own);
    if LastOutput(m, bars) != [] {
      NoSignalBeforeWarmup(p, w, bars, k);
    }
  }

  /** On an instrument whose closes never fall, no bear signal is ever emitted. */
  lemma NoBearWhileRising(p: Params, w: Session, bars: seq<Bar>, k: string)
    requires p.Valid() && bars != [] && AcceptedKey(p, bars[|bars| - 1]) == Some(k)
    requires var own := Only(AsMachine(p, w), bars, k);
             forall i, j :: 0 <= i <= j < |own| ==> own[i].close <= own[j].close
    requires LastOutput(AsMachine(p, w), bars) != []
    ensures LastOutput(AsMachine(p, w), bars)[0].direction == 1.0
  {
    var own, st, now := LastOutputFromOwnBars(p, w, bars, k);
    AveragesInOrderWhileRising(p, w, own);
  }

  /** On an instrument whose closes never rise, no bull signal is ever emitted. */
  lemma NoBullWhileFalling(p: Params, w: Session, bars: seq<Bar>, k: string)
    requires p.Valid() && bars != [] && AcceptedKey(p, bars[|bars| - 1]) == Some(k)
    requires var own := Only(AsMachine(p, w), bars, k);
             forall i, j :: 0 <= i <= j < |own| ==> own[i].close >= own[j].close
    requires LastOutput(AsMachine(p, w), bars) != []
    ensures LastOutput(AsMachine(p, w), bars)[0].direction == -1.0
  {
    var own, st, now := LastOutputFromOwnBars(p, w, bars, k);
    AveragesInOrderWhileFalling(p, w, own);
  }

  /** The window open at all hours. */
  const ALWAYS := Session(false, 0, 0)

  lemma FeedFiltered(p: Params, w: Session, states: States<BarState>, b: Bar)
    requires p.Valid()
    ensures Feed(AsMachine(p, w), states, b).0 == Feed(AsMachine(p, ALWAYS), states, b).0
    ensures Feed(AsMachine(p, w), states, b).1
            == if SessionOpen(w, b) then Feed(AsMachine(p, ALWAYS), states, b).1 else []
  {
  }

  /** The session window never touches the state. */
  lemma {:induction false} SessionKeepsStates(p: Params, w: Session, bars: seq<Bar>)
    requires p.Valid()
    ensures StatesAfter(AsMachine(p, w), bars) == StatesAfter(AsMachine(p, ALWAYS), bars)
  {
    if bars != [] {
      SessionKeepsStates(p, w, bars[..|bars| - 1]);
      FeedFiltered(p, w, StatesAfter(AsMachine(p, w), bars[..|bars| - 1]), bars[|bars| - 1]);
    }
  }

  /**
   It is a pure output filter: each bar emits what it would without the window, or nothing when the window is closed.
   */
  lemma SessionFiltersOutputs(p: Params, w: Session, bars: seq<Bar>)
    requires p.Valid() && bars != []
    ensures LastOutput(AsMachine(p, w), bars)
         == if SessionOpen(w, bars[|bars| - 1]) then LastOutput(AsMachine(p, ALWAYS), bars) else []
  {
    SessionKeepsStates(p, w, bars[..|bars| - 1]);
    FeedFiltered(p, w, StatesAfter(AsMachine(p, w), bars[..|bars| - 1]), bars[|bars| - 1]);
  }

  /** In any interleaving of instruments, each state key emits exactly what its own bars alone would make it emit. */
  lemma InstrumentsDoNotInterfere(p: Params, w: Session, bars: seq<Bar>, k: string)
    requires p.Valid()
    ensures OutputsOf(AsMachine(p, w), bars, k) == OutputsOf(AsMachine(p, w), Only(AsMachine(p, w), bars, k), k)
  {
    KeysDoNotInterfere(AsMachine(p, w), bars, k);
  }

  /**
   A signal's stop is on the losing side of its entry, and its target on the winning side, exactly when the ATR is
   positive.
   */
  lemma BracketSides(p: Params, entry: real, atr: real, dir: real)
    requires p.Valid() && dir != 0.0
    ensures var (stop, tp) := Bracket(p, entry, atr, dir);
            && (atr > 0.0 <==> if dir > 0.0 then stop < entry else stop > entry)
            && (atr > 0.0 <==> if dir > 0.0 then tp > entry else tp < entry)
            && Abs(tp - entry) == p.takeProfitRR * Abs(stop - entry)
  {
    var risk := p.stopATRMult * atr;
    var reward := p.takeProfitRR * risk;
    if atr > 0.0 {
      ProductPositive(p.stopATRMult, atr, risk);
      ProductPositive(p.takeProfitRR, risk, reward);
    } else if atr < 0.0 {
      ProductPositive(p.stopATRMult, -atr, -risk);
      ProductPositive(p.takeProfitRR, -risk, -reward);
    }
    assert p.takeProfitRR * -risk == -reward;
  }

  /**
   Two instruments interfere exactly when their keys agree: a bar of the first, whenever it comes, leaves the second's
   state alone or advances it as if it were the second's own.
   */
  lemma InterfereExactlyWhen(p: Params, w: Session, states: States<BarState>, a: Instrument, c: Instrument, b: Bar)
    requires p.Valid() && Target(p.universe, b) == Some(a) && b.close > 0.0
    ensures var m := AsMachine(p, w);
            var before, after := StateAt(m, states, InstKey(c)), StateAt(m, Feed(m, states, b).0, InstKey(c));
            && (after != before <==> InstKey(a) == InstKey(c))
            && (after != before ==> after == Advance(p, before, b))
  {
    var m := AsMachine(p, w);
    var before := StateAt(m, states, InstKey(c));
    assert Advance(p, before, b).seen == before.seen + 1;
  }

  /** Two instruments that configuration accepts, by the names `A|B:X` and `A:B|X`, and that do. */
  lemma ParsedInstrumentsInterfere(p: Params, w: Session, upper: string -> string, states: States<BarState>, b: Bar)
    requires p.Valid() && upper("A|B") == "A|B" && upper("A") == "A"
    requires p.universe == [Instrument("A|B", "X", Spot), Instrument("A", "B|X", Spot)]
    requires b.instrument == p.universe[0] && b.close > 0.0
    ensures ParseSymbol("A|B:X", upper) == Some(p.universe[0]) && ParseSymbol("A:B|X", upper) == Some(p.universe[1])
    ensures var m, k := AsMachine(p, w), InstKey(p.universe[1]);
            StateAt(m, Feed(m, states, b).0, k).seen == StateAt(m, states, k).seen + 1
  {
    ParsedPairSharesKey(upper);
    InterfereExactlyWhen(p, w, states, p.universe[0], p.universe[1], b);
  }
}
