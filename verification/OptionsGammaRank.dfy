/**
 The realised-volatility rank strategy (internal/strategy/options.go): a capped per-key history, sorted and searched.
 */
module OptionsGammaRank {
  import opened Types
  import opened RealMath
  import opened Instruments
  import opened KeyedStreams
  import opened OrderStatistics
  import opened Buffers
  import PairStrategies

  datatype Params = Params(id: string, universe: seq<Instrument>, window: nat, highQ: real, lowQ: real) {
    /** What the constructor establishes, whatever it is given. */
    predicate Valid() {
      window >= 10 && highQ > lowQ
    }

    function MaxBuf(): nat {
      window + 30
    }
  }

  /** Fraction of a sample at or below `x`. */
  function Rank(sample: seq<real>, x: real): real
    requires sample != []
  {
    CountAtMost(sample, x) as real / |sample| as real
  }

  /** Binary search in an ascending sample for the first entry above `x`. */
  method QuantileRank(sorted: seq<real>, x: real) returns (rank: real)
    requires Ascending(sorted)
    ensures sorted == [] ==> rank == -1.0
    ensures sorted != [] ==> rank == Rank(sorted, x)
  {
    var n := |sorted|;
    if n == 0 {
      return -1.0;
    }
    var i, j := 0, n;
    while i < j
      invariant i <= j <= n
      invariant forall k :: 0 <= k < i ==> sorted[k] <= x
      invariant forall k :: j <= k < n ==> sorted[k] > x
    {
      var h := (i + j) / 2;
      if sorted[h] <= x {
        i := h + 1;
      } else {
        j := h;
      }
    }
    CountAtMostIsSplit(sorted, i, x);
    return i as real / n as real;
  }

  /** Sorts a copy of the sample and searches it. */
  method SampleRank(sample: seq<real>, x: real) returns (rank: real)
    requires sample != []
    ensures rank == Rank(sample, x) >= 0.0
  {
    var cp := SortAscending(sample);
    rank := QuantileRank(cp, x);
    SortingKeepsCounts(sample, x);
    FractionNonNegative(CountAtMost(sample, x) as real, |sample| as real);
  }

  lemma FractionNonNegative(c: real, n: real)
    requires c >= 0.0 && n > 0.0
    ensures c / n >= 0.0
  {
    var q := c / n;
    assert q * n == c;
    if q < 0.0 {
      ProductPositive(-q, n, -q * n);
    }
  }

  /** Where an ascending sample passes `x` is how many entries are at or below it. */
  lemma {:induction false} CountAtMostIsSplit(s: seq<real>, i: nat, x: real)
    requires i <= |s|
    requires forall k :: 0 <= k < i ==> s[k] <= x
    requires forall k :: i <= k < |s| ==> s[k] > x
    ensures CountAtMost(s, x) == i
  {
    if s != [] {
      CountAtMostIsSplit(s[1..], if i > 0 then i - 1 else 0, x);
    }
  }

  /** A bar's range over its close. */
  function Ratio(b: Bar): real
    requires b.close > 0.0
  {
    Abs(b.high - b.low) / b.close
  }

  function BarDirection(b: Bar): real {
    if b.close > b.open then 1.0 else if b.close < b.open then -1.0 else 0.0
  }

  /** What a rank calls for: with the bar when high, against it when low. */
  function Emit(p: Params, target: Instrument, rank: real, b: Bar): seq<Signal> {
    var dir := if rank >= p.highQ then BarDirection(b) else -BarDirection(b);
    var conf := Min(0.88, 0.35 + 0.45 * Min(1.0, Abs(rank - 0.5) * 2.0));
    var reason := if rank >= p.highQ then "options_gamma_high_realized_vol" else "options_gamma_low_realized_vol_fade";
    if BarDirection(b) == 0.0 || p.lowQ < rank < p.highQ then []
    else [Signal(p.id, target, dir, conf, reason, b.timestamp, 0.0, 0.0, 0.0, false)]
  }

  /** What a history ending with this bar's ratio emits. */
  function Signals(p: Params, target: Instrument, buf: seq<real>, b: Bar): seq<Signal>
    requires p.Valid() && b.close > 0.0
  {
    if |buf| < p.window then [] else Emit(p, target, Rank(LastOf(buf, p.window), Ratio(b)), b)
  }

  function AcceptedKey(p: Params, b: Bar): Option<string> {
    match Target(p.universe, b)
    case None => None
    case Some(t) => if b.close <= 0.0 || t.kind == OptionContract then None else Some(InstKey(t))
  }

  function Step(p: Params, m: PairStrategies.Memory, buf: seq<real>, b: Bar): (seq<real>, seq<Signal>)
    requires p.Valid()
  {
    if AcceptedKey(p, b).None? then (buf, [])
    else
      var longer := PairStrategies.Push(m, buf, Ratio(b), p.MaxBuf());
      (longer, Signals(p, Target(p.universe, b).value, longer, b))
  }

  function AsMachine(p: Params, m: PairStrategies.Memory): Machine<Bar, seq<real>, Signal>
    requires p.Valid()
  {
    Machine(b => AcceptedKey(p, b), [], (buf, b) requires p.Valid() => Step(p, m, buf, b))
  }

  class OptionsGamma {
    const p: Params
    var trBuf: map<string, seq<real>>

    constructor (p: Params)
      ensures this.p == p && trBuf == map[]
    {
      this.p := p;
      trBuf := map[];
    }

    method OnBar(b: Bar) returns (sigs: seq<Signal>)
      requires p.Valid()
      modifies this
      ensures (trBuf, sigs) == Feed(AsMachine(p, PairStrategies.Capped), old(trBuf), b)
    {
      var target := Target(p.universe, b);
      if target.None? || b.close <= 0.0 {
        return [];
      }
      if target.value.kind == OptionContract {
        return [];
      }
      var ratio := Ratio(b);
      var key := InstKey(target.value);
      var buf := if key in trBuf then trBuf[key] else [];
      buf := PushCap(buf, ratio, p.MaxBuf());
      trBuf := trBuf[key := buf];
      if |buf| < p.window {
        return [];
      }
      var sample := buf[|buf| - p.window..];
      assert sample == LastOf(buf, p.window);
      var rank := SampleRank(sample, ratio);
      if rank < 0.0 {
        return [];
      }
      var barDir := BarDirection(b);
      if barDir == 0.0 {
        return [];
      }
      if !(rank >= p.highQ || rank <= p.lowQ) {
        return [];
      }
      return Emit(p, target.value, rank, b);
    }
  }

  lemma {:induction false} CountOfMember(s: seq<real>, i: nat)
    requires i < |s|
    ensures 1 <= CountAtMost(s, s[i]) <= |s|
  {
    CountsAreBounded(s, s[i]);
    if i > 0 {
      CountOfMember(s[1..], i - 1);
    }
  }

  /**
   The newest ratio is in its own sample, so its rank is positive and at most one; the negative-rank guard never acts.
   */
  lemma RankOfNewestIsPositive(buf: seq<real>, x: real, window: nat)
    requires window > 0 && |buf| + 1 >= window
    ensures var sample := LastOf(buf + [x], window);
            |sample| == window && 0.0 < Rank(sample, x) <= 1.0
  {
    var sample := LastOf(buf + [x], window);
    assert sample[window - 1] == x;
    CountOfMember(sample, window - 1);
    FractionBounds(CountAtMost(sample, x) as real, window as real);
  }

  lemma FractionBounds(c: real, n: real)
    requires 1.0 <= c <= n
    ensures 0.0 < c / n <= 1.0
  {
    var q := c / n;
    assert q * n == c;
    if q <= 0.0 {
      ScaleBound(n, q, 0.0);
    } else if q > 1.0 {
      ProductPositive(q - 1.0, n, (q - 1.0) * n);
    }
  }

  lemma StepTruncates(p: Params, whole: seq<real>, b: Bar)
    requires p.Valid()
    ensures var c := Step(p, PairStrategies.Capped, LastOf(whole, p.MaxBuf()), b);
            var u := Step(p, PairStrategies.Unlimited, whole, b);
            c.0 == LastOf(u.0, p.MaxBuf()) && c.1 == u.1
  {
    if AcceptedKey(p, b).Some? {
      LastOfLast(whole, Ratio(b), p.MaxBuf());
      WindowOfLast(whole + [Ratio(b)], p.MaxBuf(), p.window);
    }
  }

  lemma {:induction false} HistoriesTruncate(p: Params, own: seq<Bar>)
    requires p.Valid()
    ensures Alone(AsMachine(p, PairStrategies.Capped), own)
         == LastOf(Alone(AsMachine(p, PairStrategies.Unlimited), own), p.MaxBuf())
  {
    if own != [] {
      var before := own[..|own| - 1];
      HistoriesTruncate(p, before);
      StepTruncates(p, Alone(AsMachine(p, PairStrategies.Unlimited), before), own[|own| - 1]);
    }
  }

  lemma {:induction false} SameOwnBars(p: Params, bars: seq<Bar>, k: string)
    requires p.Valid()
    ensures Only(AsMachine(p, PairStrategies.Capped), bars, k) == Only(AsMachine(p, PairStrategies.Unlimited), bars, k)
  {
    if bars != [] {
      SameOwnBars(p, bars[..|bars| - 1], k);
    }
  }

  /**
   On every bar sequence, over any mix of instruments, the capped strategy emits what one that never truncates would.
   */
  lemma RefinesUnlimited(p: Params, bars: seq<Bar>)
    requires p.Valid() && bars != []
    ensures LastOutput(AsMachine(p, PairStrategies.Capped), bars)
            == LastOutput(AsMachine(p, PairStrategies.Unlimited), bars)
  {
    var before, b := bars[..|bars| - 1], bars[|bars| - 1];
    match AcceptedKey(p, b)
    case None =>
    case Some(k) =>
      var capped, whole := AsMachine(p, PairStrategies.Capped), AsMachine(p, PairStrategies.Unlimited);
      StateIsAlone(capped, before, k);
      StateIsAlone(whole, before, k);
      SameOwnBars(p, before, k);
      HistoriesTruncate(p, Only(whole, before, k));
      StepTruncates(p, Alone(whole, Only(whole, before, k)), b);
  }

  // ---------- exactly what is emitted ----------

  ghost function AtMost(s: seq<real>, n: nat, x: real): set<nat>
    requires n <= |s|
  {
    set i: nat | i < n && s[i] <= x
  }

  lemma {:induction false} CountOfMore(s: seq<real>, v: real, x: real)
    ensures CountAtMost(s + [v], x) == CountAtMost(s, x) + if v <= x then 1 else 0
  {
    if s == [] {
      assert s + [v] == [v] && [v][1..] == [];
    } else {
      assert (s + [v])[1..] == s[1..] + [v];
      CountOfMore(s[1..], v, x);
    }
  }

  lemma {:induction false} CountIsSize(s: seq<real>, n: nat, x: real)
    requires n <= |s|
    ensures CountAtMost(s[..n], x) == |AtMost(s, n, x)|
  {
    if n == 0 {
      assert AtMost(s, 0, x) == {};
    } else {
      CountIsSize(s, n - 1, x);
      assert s[..n] == s[..n - 1] + [s[n - 1]];
      CountOfMore(s[..n - 1], s[n - 1], x);
      AtMostOfMore(s, n, x);
    }
  }

  lemma AtMostOfMore(s: seq<real>, n: nat, x: real)
    requires 0 < n <= |s|
    ensures |AtMost(s, n, x)| == |AtMost(s, n - 1, x)| + if s[n - 1] <= x then 1 else 0
  {
    var before := AtMost(s, n - 1, x);
    assert AtMost(s, n, x) == if s[n - 1] <= x then before + {n - 1} else before;
  }

  /** How far a bar reaches, in parts of its close. */
  ghost predicate Reaches(own: seq<Bar>, ratios: seq<real>) {
    && |ratios| == |own|
    && forall i :: 0 <= i < |own| ==>
        ratios[i] * own[i].close == Max(own[i].high, own[i].low) - Min(own[i].high, own[i].low)
  }

  lemma ReachIsRatio(b: Bar, ratio: real)
    requires b.close > 0.0 && ratio * b.close == Max(b.high, b.low) - Min(b.high, b.low)
    ensures ratio == Ratio(b)
  {
    var d := ratio - Ratio(b);
    assert Ratio(b) * b.close == Abs(b.high - b.low);
    SignOfProduct(d, b.close, d * b.close);
    SignOfProduct(-d, b.close, -d * b.close);
  }

  ghost predicate AllAccepted(p: Params, own: seq<Bar>) {
    forall i :: 0 <= i < |own| ==> AcceptedKey(p, own[i]).Some?
  }

  /** A machine that appends a number of each bar. */
  ghost predicate Appends(m: Machine<Bar, seq<real>, Signal>, own: seq<Bar>, ratios: seq<real>) {
    |ratios| == |own| && m.init == [] && forall i, buf :: 0 <= i < |own| ==> m.step(buf, own[i]).0 == buf + [ratios[i]]
  }

  lemma {:induction false} AppendsAll(m: Machine<Bar, seq<real>, Signal>, own: seq<Bar>, ratios: seq<real>)
    requires Appends(m, own, ratios)
    ensures Alone(m, own) == ratios
  {
    if own != [] {
      var n := |own| - 1;
      AppendsAll(m, own[..n], ratios[..n]);
      assert ratios == ratios[..n] + [ratios[n]];
    }
  }

  /** Without truncation a key remembers the ratio of each of its bars. */
  lemma {:induction false} RemembersRatios(p: Params, own: seq<Bar>, ratios: seq<real>)
    requires p.Valid() && Reaches(own, ratios) && AllAccepted(p, own)
    ensures Alone(AsMachine(p, PairStrategies.Unlimited), own) == ratios
  {
    var m := AsMachine(p, PairStrategies.Unlimited);
    forall i, buf | 0 <= i < |own|
      ensures m.step(buf, own[i]).0 == buf + [ratios[i]]
    {
      StepKeepsRatio(p, buf, own[i], ratios[i]);
    }
    AppendsAll(m, own, ratios);
  }

  lemma StepKeepsRatio(p: Params, buf: seq<real>, b: Bar, ratio: real)
    requires p.Valid() && AcceptedKey(p, b).Some? && ratio * b.close == Max(b.high, b.low) - Min(b.high, b.low)
    ensures Step(p, PairStrategies.Unlimited, buf, b).0 == buf + [ratio]
  {
    ReachIsRatio(b, ratio);
  }

  lemma {:induction false} OwnBarsAreAccepted(p: Params, bars: seq<Bar>, k: string)
    requires p.Valid()
    ensures AllAccepted(p, Only(AsMachine(p, PairStrategies.Unlimited), bars, k))
  {
    if bars != [] {
      OwnBarsAreAccepted(p, bars[..|bars| - 1], k);
      assert AsMachine(p, PairStrategies.Unlimited).key(bars[|bars| - 1]) == AcceptedKey(p, bars[|bars| - 1]);
    }
  }

  /** Bars of its instruments that have a positive price and are no option contract's. */
  lemma AcceptsExactlyWhen(p: Params, b: Bar)
    ensures AcceptedKey(p, b).Some? <==>
            Target(p.universe, b).Some? && b.close > 0.0 && Target(p.universe, b).value.kind != OptionContract
    ensures AcceptedKey(p, b).Some? ==> AcceptedKey(p, b).value == InstKey(Target(p.universe, b).value)
  {
  }

  /** What one rank calls for, `count` of `window` ratios being at most the newest. */
  ghost predicate CallsFor(p: Params, s: Signal, b: Bar, count: real, window: real) {
    && s.strategyID == p.id && s.generated == b.timestamp && !s.flatten
    && s.instrument.symbol == b.instrument.symbol && s.instrument.venue == b.instrument.venue
    && s.entryReferencePrice == s.stopLossPrice == s.takeProfitPrice == 0.0
    && (s.direction == 1.0 <==> (count >= p.highQ * window) == (b.close > b.open))
    && (s.direction == 1.0 || s.direction == -1.0)
    && (s.reason == if count >= p.highQ * window then "options_gamma_high_realized_vol"
                    else "options_gamma_low_realized_vol_fade")
    && (s.confidence - 0.35) * window == 0.45 * Abs(count + count - window)
  }

  /** When a count calls for anything, and for what. */
  ghost predicate EmitsFor(p: Params, out: seq<Signal>, b: Bar, count: real, window: real) {
    && (out != [] <==> b.close != b.open && (count >= p.highQ * window || count <= p.lowQ * window))
    && (out != [] ==> |out| == 1 && CallsFor(p, out[0], b, count, window))
  }

  lemma EmitExactly(p: Params, target: Instrument, rank: real, b: Bar, count: real, window: real)
    requires target.symbol == b.instrument.symbol && target.venue == b.instrument.venue
    requires window > 0.0 && rank * window == count && 0.0 <= rank <= 1.0
    ensures EmitsFor(p, Emit(p, target, rank, b), b, count, window)
  {
    SignOfProduct(rank - p.highQ, window, count - p.highQ * window);
    SignOfProduct(p.lowQ - rank, window, p.lowQ * window - count);
    ConfidenceScaled(rank, window, count);
  }

  lemma ConfidenceScaled(rank: real, window: real, count: real)
    requires window > 0.0 && rank * window == count && 0.0 <= rank <= 1.0
    ensures Min(1.0, Abs(rank - 0.5) * 2.0) == Abs(rank - 0.5) * 2.0
    ensures (0.45 * (Abs(rank - 0.5) * 2.0)) * window == 0.45 * Abs(count + count - window)
  {
    var d := rank + rank - 1.0;
    assert Abs(rank - 0.5) * 2.0 == Abs(d);
    assert d * window == count + count - window;
    SignOfProduct(d, window, d * window);
    assert Abs(d) * window == Abs(d * window);
  }

  /**
   Exactly when the last bar of a run emits: its key has seen a window of bars, the bar moved, and of the window's last
   reaches either a large enough part or a small enough one is at most the newest. A high rank goes with the bar and a
   low one against it.
   */
  lemma {:induction false} EmitsExactlyWhen(p: Params, bars: seq<Bar>, k: string, own: seq<Bar>, ratios: seq<real>,
                                            b: Bar)
    requires p.Valid() && bars != [] && b == bars[|bars| - 1] && AcceptedKey(p, b) == Some(k)
    requires own == Only(AsMachine(p, PairStrategies.Unlimited), bars, k) && Reaches(own, ratios)
    ensures var out, n := LastOutput(AsMachine(p, PairStrategies.Capped), bars), |ratios|;
            if n < p.window then out == []
            else EmitsFor(p, out, b, |AtMost(ratios[n - p.window..], p.window, ratios[n - 1])| as real,
                          p.window as real)
  {
    var whole := AsMachine(p, PairStrategies.Unlimited);
    RefinesUnlimited(p, bars);
    OwnBarsAreAccepted(p, bars, k);
    RemembersRatios(p, own, ratios);
    var _ := LastIsOwnStep(whole, bars, k);
    SignalsOfHistory(p, Target(p.universe, b).value, ratios, b);
  }

  lemma SignalsOfHistory(p: Params, target: Instrument, ratios: seq<real>, b: Bar)
    requires p.Valid() && b.close > 0.0 && ratios != [] && ratios[|ratios| - 1] == Ratio(b)
    requires target.symbol == b.instrument.symbol && target.venue == b.instrument.venue
    ensures var out, n := Signals(p, target, ratios, b), |ratios|;
            if n < p.window then out == []
            else EmitsFor(p, out, b, |AtMost(ratios[n - p.window..], p.window, ratios[n - 1])| as real,
                          p.window as real)
  {
    if |ratios| >= p.window {
      var sample, x := LastOf(ratios, p.window), Ratio(b);
      CountOfSample(ratios, p.window, x, sample);
      RankInUnit(ratios, p.window, x, sample);
      RankTimesSize(sample, x, p.window as real, CountAtMost(sample, x) as real);
      EmitExactly(p, target, Rank(sample, x), b, CountAtMost(sample, x) as real, p.window as real);
    }
  }

  lemma RankInUnit(ratios: seq<real>, window: nat, x: real, sample: seq<real>)
    requires 0 < window <= |ratios| && x == ratios[|ratios| - 1] && sample == LastOf(ratios, window)
    ensures sample != [] && 0.0 <= Rank(sample, x) <= 1.0
  {
    assert ratios == ratios[..|ratios| - 1] + [x];
    RankOfNewestIsPositive(ratios[..|ratios| - 1], x, window);
  }

  /** The count of a window's last ratios that are at most the newest one. */
  lemma CountOfSample(ratios: seq<real>, window: nat, x: real, sample: seq<real>)
    requires 0 < window <= |ratios| && x == ratios[|ratios| - 1] && sample == LastOf(ratios, window)
    ensures |sample| == window && CountAtMost(sample, x) == |AtMost(ratios[|ratios| - window..], window, x)|
  {
    assert sample == ratios[|ratios| - window..] && sample[..window] == sample;
    CountIsSize(sample, window, x);
  }

  lemma RankTimesSize(sample: seq<real>, x: real, n: real, count: real)
    requires sample != [] && n == |sample| as real && count == CountAtMost(sample, x) as real
    ensures Rank(sample, x) * n == count
  {
    var q := count / n;
    assert q * n == count;
  }
}
