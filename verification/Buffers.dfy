/**
 Buffers that keep only their last entries (internal/strategy/series.go, lines 5-13), and simulation between two step
 functions.
 */
module Buffers {

  /** The last `n` entries, or all of them when there are fewer. */
  function LastOf<T>(xs: seq<T>, n: nat): seq<T> {
    if |xs| <= n then xs else xs[|xs| - n..]
  }

  /** As many as asked for if there are as many, from the end, in their order. */
  lemma LastEntries<T>(xs: seq<T>, n: nat, i: nat)
    requires i < n && i < |xs|
    ensures |LastOf(xs, n)| <= n && |LastOf(xs, n)| <= |xs| && (|LastOf(xs, n)| == n || LastOf(xs, n) == xs)
    ensures i < |LastOf(xs, n)| && LastOf(xs, n)[|LastOf(xs, n)| - 1 - i] == xs[|xs| - 1 - i]
  {
  }

  /** Append, then drop the oldest entries beyond the capacity; without a capacity nothing is kept. */
  method PushCap<T>(xs: seq<T>, v: T, max: int) returns (r: seq<T>)
    ensures max <= 0 ==> r == xs
    ensures max > 0 ==> r == LastOf(xs + [v], max)
  {
    if max <= 0 {
      return xs;
    }
    r := xs + [v];
    if |r| > max {
      r := r[|r| - max..];
    }
  }

  /** Truncating before an append loses nothing the truncation after it would keep. */
  lemma LastOfLast<T>(xs: seq<T>, v: T, n: nat)
    requires n > 0
    ensures LastOf(LastOf(xs, n) + [v], n) == LastOf(xs + [v], n)
  {
  }

  /** A window no longer than the buffer's capacity does not see the truncation. */
  lemma WindowOfLast<T>(xs: seq<T>, n: nat, m: nat)
    requires m <= n
    ensures |LastOf(xs, n)| < m <==> |xs| < m
    ensures LastOf(LastOf(xs, n), m) == LastOf(xs, m)
  {
  }

  /** The state a step function reaches on some inputs. */
  function Reached<B, S, O>(step: (S, B) -> (S, seq<O>), init: S, bars: seq<B>): S {
    if bars == [] then init else step(Reached(step, init, bars[..|bars| - 1]), bars[|bars| - 1]).0
  }

  /** What the last of some inputs makes it emit. */
  function Emitted<B, S, O>(step: (S, B) -> (S, seq<O>), init: S, bars: seq<B>): seq<O>
    requires bars != []
  {
    step(Reached(step, init, bars[..|bars| - 1]), bars[|bars| - 1]).1
  }
}
