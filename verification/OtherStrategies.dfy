/**
 What the remaining strategies emit on a bar: the three that look at the bar alone (internal/strategy/momentum.go,
 meanrev.go and breakout.go), the one that passes on a model's score (mlmeta.go) and the one that closes positions at
 the end of a session (flatten_session_end.go). The score, when the features and the drift gate let one through, and
 whether it is time to flatten are inputs.
 */
module OtherStrategies {
  import opened Types
  import opened RealMath
  import opened Instruments

  function Plain(id: string, ins: Instrument, dir: real, conf: real, reason: string, b: Bar): Signal {
    Signal(id, ins, dir, conf, reason, b.timestamp, 0.0, 0.0, 0.0, false)
  }

  /** One signal for each configured instrument with the bar's symbol, at any venue. */
  function ForSymbol(id: string, universe: seq<Instrument>, dir: real, conf: real, reason: string,
                     b: Bar): seq<Signal>
  {
    if universe == [] then []
    else
      (if universe[0].symbol == b.instrument.symbol then [Plain(id, universe[0], dir, conf, reason, b)] else [])
      + ForSymbol(id, universe[1..], dir, conf, reason, b)
  }

  function Momentum(id: string, universe: seq<Instrument>, b: Bar): seq<Signal> {
    var dir := if b.close > b.open then 0.3 else if b.close < b.open then -0.3 else 0.0;
    ForSymbol(id, universe, dir, 0.4, "momentum_stub", b)
  }

  function MeanReversion(id: string, universe: seq<Instrument>, b: Bar): seq<Signal> {
    var dir := if b.low > 0.0 && b.close < (b.high + b.low) / 2.0 then 0.25 else -0.25;
    ForSymbol(id, universe, dir, 0.35, "mean_reversion_stub", b)
  }

  function Breakout(id: string, universe: seq<Instrument>, b: Bar): seq<Signal> {
    var dir := if b.close >= b.high * 0.999 then 0.5 else if b.close <= b.low * 1.001 then -0.5 else 0.0;
    ForSymbol(id, universe, dir, 0.45, "breakout_stub", b)
  }

  function Clamp(x: real): real {
    Max(-1.0, Min(1.0, x))
  }

  function MetaScore(id: string, universe: seq<Instrument>, score: Option<real>, b: Bar): seq<Signal> {
    match (Target(universe, b), score)
    case (Some(target), Some(x)) =>
      var s := Clamp(x);
      if b.close <= 0.0 || Abs(s) < 0.05 then []
      else [Plain(id, target, if s < 0.0 then -1.0 else 1.0, Abs(s), "ml_meta_infer_score", b)]
    case _ => []
  }

  function FlattenSessionEnd(id: string, universe: seq<Instrument>, due: bool, b: Bar): seq<Signal> {
    match Target(universe, b)
    case None => []
    case Some(target) =>
      if due then [Signal(id, target, 0.0, 0.0, "flatten_session_end", b.timestamp, 0.0, 0.0, 0.0, true)] else []
  }

  lemma {:induction false} ForSymbolSignals(id: string, universe: seq<Instrument>, dir: real, conf: real,
                                            reason: string, b: Bar)
    ensures forall s :: s in ForSymbol(id, universe, dir, conf, reason, b) ==>
            s.direction == dir && s.confidence == conf
  {
    if universe != [] {
      ForSymbolSignals(id, universe[1..], dir, conf, reason, b);
    }
  }

  ghost predicate Rising(at: seq<nat>) {
    forall i, j :: 0 <= i < j < |at| ==> at[i] < at[j]
  }

  /** Each signal is of that kind, for the instrument at its position, which has the bar's symbol. */
  ghost predicate EachAt(out: seq<Signal>, at: seq<nat>, universe: seq<Instrument>, b: Bar, kind: Signal) {
    && |at| == |out|
    && forall i :: 0 <= i < |at| ==>
         && at[i] < |universe| && universe[at[i]].symbol == b.instrument.symbol
         && out[i] == kind.(instrument := universe[at[i]])
  }

  ghost predicate NoneMissed(universe: seq<Instrument>, b: Bar, at: seq<nat>) {
    forall k :: 0 <= k < |universe| && universe[k].symbol == b.instrument.symbol ==> k in at
  }

  /** One signal for each configured instrument with the bar's symbol, in their order, and all alike. */
  lemma {:induction false} ForSymbolExactly(id: string, universe: seq<Instrument>, dir: real, conf: real,
                                            reason: string, b: Bar, kind: Signal) returns (at: seq<nat>)
    requires kind == Signal(id, b.instrument, dir, conf, reason, b.timestamp, 0.0, 0.0, 0.0, false)
    ensures EachAt(ForSymbol(id, universe, dir, conf, reason, b), at, universe, b, kind)
    ensures Rising(at) && NoneMissed(universe, b, at)
  {
    at := [];
    if universe != [] {
      at := ForSymbolExactly(id, universe[1..], dir, conf, reason, b, kind);
      at := OneMoreInstrument(ForSymbol(id, universe[1..], dir, conf, reason, b), at, universe, b, kind);
    }
  }

  lemma OneMoreInstrument(out: seq<Signal>, rest: seq<nat>, universe: seq<Instrument>, b: Bar, kind: Signal)
    returns (at: seq<nat>)
    requires universe != []
    requires EachAt(out, rest, universe[1..], b, kind) && Rising(rest) && NoneMissed(universe[1..], b, rest)
    ensures var head := if universe[0].symbol == b.instrument.symbol then [kind.(instrument := universe[0])] else [];
            EachAt(head + out, at, universe, b, kind)
    ensures Rising(at) && NoneMissed(universe, b, at)
  {
    at := Shifted(rest);
    EachFurther(out, rest, universe, b, kind, at);
    NoneMissedFurther(universe, b, rest, at);
    if universe[0].symbol == b.instrument.symbol {
      EachFromHead(out, at, universe, b, kind);
      RisingFromHead(at);
      at := [0] + at;
    } else {
      assert [] + out == out;
    }
  }

  lemma EachFurther(out: seq<Signal>, rest: seq<nat>, universe: seq<Instrument>, b: Bar, kind: Signal, at: seq<nat>)
    requires universe != [] && EachAt(out, rest, universe[1..], b, kind) && at == Shifted(rest) && Rising(rest)
    ensures EachAt(out, at, universe, b, kind) && Rising(at) && forall i :: 0 <= i < |at| ==> at[i] > 0
  {
  }

  lemma EachFromHead(out: seq<Signal>, at: seq<nat>, universe: seq<Instrument>, b: Bar, kind: Signal)
    requires universe != [] && universe[0].symbol == b.instrument.symbol && EachAt(out, at, universe, b, kind)
    ensures EachAt([kind.(instrument := universe[0])] + out, [0] + at, universe, b, kind)
  {
  }

  lemma RisingFromHead(at: seq<nat>)
    requires Rising(at) && forall i :: 0 <= i < |at| ==> at[i] > 0
    ensures Rising([0] + at)
  {
  }

  lemma NoneMissedFurther(universe: seq<Instrument>, b: Bar, rest: seq<nat>, at: seq<nat>)
    requires universe != [] && at == Shifted(rest) && NoneMissed(universe[1..], b, rest)
    ensures universe[0].symbol != b.instrument.symbol ==> NoneMissed(universe, b, at)
    ensures NoneMissed(universe, b, [0] + at)
  {
    forall k | 0 < k < |universe| && universe[k].symbol == b.instrument.symbol
      ensures k in at
    {
      assert universe[1..][k - 1] == universe[k];
      var j :| 0 <= j < |rest| && rest[j] == k - 1;
      assert at[j] == k;
    }
    assert ([0] + at)[0] == 0;
  }

  ghost function Shifted(at: seq<nat>): (r: seq<nat>)
    ensures |r| == |at| && forall k :: 0 <= k < |at| ==> r[k] == at[k] + 1
  {
    seq(|at|, k requires 0 <= k < |at| => at[k] + 1)
  }

  /** With the bar, back towards its middle, or beyond its edges: which way the three go. */
  lemma PlainDirections(id: string, universe: seq<Instrument>, b: Bar)
    ensures forall s :: s in Momentum(id, universe, b) ==>
              && (s.direction == 0.3 <==> b.close > b.open) && (s.direction == -0.3 <==> b.close < b.open)
              && (s.direction == 0.0 <==> b.close == b.open) && s.confidence == 0.4
    ensures forall s :: s in MeanReversion(id, universe, b) ==>
              && (s.direction == 0.25 <==> b.low > 0.0 && b.close - b.low < b.high - b.close)
              && (s.direction == -0.25 <==> b.low <= 0.0 || b.close - b.low >= b.high - b.close) && s.confidence == 0.35
    ensures forall s :: s in Breakout(id, universe, b) ==>
              && (s.direction == 0.5 <==> 1000.0 * b.close >= 999.0 * b.high)
              && (s.direction == -0.5 <==> 1000.0 * b.close < 999.0 * b.high && 1000.0 * b.close <= 1001.0 * b.low)
              && (s.direction == 0.0 <==> 1000.0 * b.close < 999.0 * b.high && 1000.0 * b.close > 1001.0 * b.low)
              && s.confidence == 0.45
  {
    forall dir, conf, reason
      ensures forall s :: s in ForSymbol(id, universe, dir, conf, reason, b) ==>
              s.direction == dir && s.confidence == conf
    {
      ForSymbolSignals(id, universe, dir, conf, reason, b);
    }
  }

  /** A score passes exactly when it is not small, towards its own sign and as confident as it is large, up to one. */
  lemma ScorePassesExactly(id: string, universe: seq<Instrument>, x: real, b: Bar)
    ensures var out := MetaScore(id, universe, Some(x), b);
            && (out != [] <==> Target(universe, b).Some? && b.close > 0.0 && (x >= 0.05 || x <= -0.05))
            && (out != [] ==> |out| == 1 && out[0].instrument == Target(universe, b).value && !out[0].flatten)
            && (out != [] && x > 0.0 ==> out[0].direction == 1.0 && out[0].confidence == Min(x, 1.0))
            && (out != [] && x < 0.0 ==> out[0].direction == -1.0 && out[0].confidence == Min(-x, 1.0))
    ensures MetaScore(id, universe, None, b) == []
  {
  }

  /** Closing positions takes one flattening signal without a direction, when it is due. */
  lemma FlattensExactlyWhen(id: string, universe: seq<Instrument>, due: bool, b: Bar)
    ensures var out := FlattenSessionEnd(id, universe, due, b);
            && (out != [] <==> due && Target(universe, b).Some?)
            && (out != [] ==> |out| == 1 && out[0].flatten && out[0].direction == 0.0 && out[0].confidence == 0.0
                              && out[0].instrument == Target(universe, b).value)
  {
  }
}
