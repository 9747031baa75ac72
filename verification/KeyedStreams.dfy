/**
 A strategy that keeps one state per instrument key and advances only the state of the bar's key. The strategies
 `EMACrossATR`, `Volatility` and `OptionsGamma` are machines of this shape.
 */
module KeyedStreams {
  import opened Types

  /** `key` is None for bars the machine ignores. */
  datatype Machine<!B, !S, !O> = Machine(key: B -> Option<string>, init: S, step: (S, B) -> (S, seq<O>))

  type States<S> = map<string, S>

  function StateAt<B, S, O>(m: Machine<B, S, O>, states: States<S>, k: string): S {
    if k in states then states[k] else m.init
  }

  /** One bar: the states after it and what it emits. */
  function Feed<B, S, O>(m: Machine<B, S, O>, states: States<S>, b: B): (States<S>, seq<O>) {
    match m.key(b)
    case None => (states, [])
    case Some(k) =>
      var (s, out) := m.step(StateAt(m, states, k), b);
      (states[k := s], out)
  }

  /** The states after a run from scratch. */
  function StatesAfter<B, S, O>(m: Machine<B, S, O>, bars: seq<B>): States<S> {
    if bars == [] then map[]
    else Feed(m, StatesAfter(m, bars[..|bars| - 1]), bars[|bars| - 1]).0
  }

  /** What the last bar of a run emits. */
  function LastOutput<B, S, O>(m: Machine<B, S, O>, bars: seq<B>): seq<O>
    requires bars != []
  {
    Feed(m, StatesAfter(m, bars[..|bars| - 1]), bars[|bars| - 1]).1
  }

  /** The bars of one key, in order. */
  function Only<B, S, O>(m: Machine<B, S, O>, bars: seq<B>, k: string): seq<B> {
    if bars == [] then []
    else
      var own, last := Only(m, bars[..|bars| - 1], k), bars[|bars| - 1];
      if m.key(last) == Some(k) then own + [last] else own
  }

  /** The state of a key that sees these bars and no others. */
  function Alone<B, S, O>(m: Machine<B, S, O>, bars: seq<B>): S {
    if bars == [] then m.init else m.step(Alone(m, bars[..|bars| - 1]), bars[|bars| - 1]).0
  }

  /** Everything a key emits over a run, bar by bar. */
  function OutputsOf<B, S, O>(m: Machine<B, S, O>, bars: seq<B>, k: string): seq<seq<O>> {
    if bars == [] then []
    else
      var before := OutputsOf(m, bars[..|bars| - 1], k);
      if m.key(bars[|bars| - 1]) == Some(k) then before + [LastOutput(m, bars)] else before
  }

  /**
   A key's state after any interleaving is the state it reaches on its own bars alone; it is stored once it has one.
   */
  lemma {:induction false} StateIsAlone<B, S, O>(m: Machine<B, S, O>, bars: seq<B>, k: string)
    ensures StateAt(m, StatesAfter(m, bars), k) == Alone(m, Only(m, bars, k))
    ensures k in StatesAfter(m, bars) <==> Only(m, bars, k) != []
  {
    if bars != [] {
      var before, last := bars[..|bars| - 1], bars[|bars| - 1];
      StateIsAlone(m, before, k);
      if m.key(last) == Some(k) {
        var own := Only(m, before, k);
        assert (own + [last])[..|own|] == own;
      }
    }
  }

  /** A key's last bar is stepped from the state its earlier bars lead to. */
  lemma LastIsOwnStep<B, S, O>(m: Machine<B, S, O>, bars: seq<B>, k: string) returns (own: seq<B>)
    requires bars != [] && m.key(bars[|bars| - 1]) == Some(k)
    ensures own == Only(m, bars, k) && own != [] && own[|own| - 1] == bars[|bars| - 1]
    ensures own[..|own| - 1] == Only(m, bars[..|bars| - 1], k)
    ensures (Alone(m, own), LastOutput(m, bars)) == m.step(Alone(m, own[..|own| - 1]), bars[|bars| - 1])
  {
    own := Only(m, bars, k);
    StateIsAlone(m, bars[..|bars| - 1], k);
    assert own[..|own| - 1] == Only(m, bars[..|bars| - 1], k);
  }

  lemma {:induction false} OnlyIsIdempotent<B, S, O>(m: Machine<B, S, O>, bars: seq<B>, k: string)
    ensures Only(m, Only(m, bars, k), k) == Only(m, bars, k)
  {
    if bars != [] {
      OnlyIsIdempotent(m, bars[..|bars| - 1], k);
      var own, last := Only(m, bars[..|bars| - 1], k), bars[|bars| - 1];
      if m.key(last) == Some(k) {
        assert (own + [last])[..|own|] == own;
      }
    }
  }

  /** Non-interference: in any interleaving a key emits exactly what it emits when only its own bars arrive. */
  lemma {:induction false} KeysDoNotInterfere<B, S, O>(m: Machine<B, S, O>, bars: seq<B>, k: string)
    ensures OutputsOf(m, bars, k) == OutputsOf(m, Only(m, bars, k), k)
  {
    if bars != [] {
      var before, last := bars[..|bars| - 1], bars[|bars| - 1];
      KeysDoNotInterfere(m, before, k);
      if m.key(last) == Some(k) {
        var own := Only(m, before, k);
        assert (own + [last])[..|own|] == own;
        StateIsAlone(m, before, k);
        StateIsAlone(m, own, k);
        OnlyIsIdempotent(m, before, k);
      }
    }
  }
}
