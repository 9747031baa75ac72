/**
 Venue lists and sequential fallback (internal/execution/router.go, lines 90-104 and 123-200, and
 internal/app/runner.go, lines 712-736). Normalising a venue name is an arbitrary function, and how an attempt at a
 venue turns out is an input.
 */
module VenueRouting {
  import opened Types

  const PAPER := "PAPER"

  function OrPaper(v: string): string {
    if v == "" then PAPER else v
  }

  // ---------- deduplication ----------

  /** First occurrences, in order, of the venues not in `seen`; the empty venue reads as PAPER. */
  function FirstOccurrences(vs: seq<string>, seen: set<string>): seq<string> {
    if vs == [] then []
    else
      var v := OrPaper(vs[0]);
      if v in seen then FirstOccurrences(vs[1..], seen) else [v] + FirstOccurrences(vs[1..], seen + {v})
  }

  function Deduped(vs: seq<string>): seq<string> {
    FirstOccurrences(vs, {})
  }

  method DedupeVenues(vs: seq<string>) returns (out: seq<string>)
    ensures out == Deduped(vs)
  {
    var seen: set<string> := {};
    out := [];
    for i := 0 to |vs|
      invariant out + FirstOccurrences(vs[i..], seen) == Deduped(vs)
    {
      var v := OrPaper(vs[i]);
      NextOccurrence(vs, i, seen, out, Deduped(vs));
      if v !in seen {
        seen := seen + {v};
        out := out + [v];
      }
    }
  }

  /** What is kept of one more venue. */
  lemma NextOccurrence(vs: seq<string>, i: nat, seen: set<string>, out: seq<string>, whole: seq<string>)
    requires i < |vs| && out + FirstOccurrences(vs[i..], seen) == whole
    ensures var v := OrPaper(vs[i]);
            if v in seen then out + FirstOccurrences(vs[i + 1..], seen) == whole
            else out + [v] + FirstOccurrences(vs[i + 1..], seen + {v}) == whole
  {
    var v := OrPaper(vs[i]);
    assert vs[i..][0] == vs[i] && vs[i..][1..] == vs[i + 1..];
    if v !in seen {
      assert out + ([v] + FirstOccurrences(vs[i + 1..], seen + {v}))
          == out + [v] + FirstOccurrences(vs[i + 1..], seen + {v});
    }
  }

  ghost predicate Distinct(vs: seq<string>) {
    forall i, j :: 0 <= i < j < |vs| ==> vs[i] != vs[j]
  }

  ghost predicate Requested(vs: seq<string>, v: string) {
    exists i :: 0 <= i < |vs| && OrPaper(vs[i]) == v
  }

  lemma RequestedHeadOrTail(vs: seq<string>, v: string)
    requires vs != []
    ensures Requested(vs, v) <==> v == OrPaper(vs[0]) || Requested(vs[1..], v)
  {
    if i :| 0 <= i < |vs| && OrPaper(vs[i]) == v {
      assert i > 0 ==> vs[1..][i - 1] == vs[i];
    }
    if i :| 0 <= i < |vs[1..]| && OrPaper(vs[1..][i]) == v {
      assert vs[i + 1] == vs[1..][i];
    }
  }

  /** The result has no repeats, no empty names, nothing already seen, and exactly the venues asked for otherwise. */
  lemma {:induction false} FirstOccurrencesMeaning(vs: seq<string>, seen: set<string>)
    ensures Distinct(FirstOccurrences(vs, seen))
    ensures forall v :: v in FirstOccurrences(vs, seen) <==> v !in seen && Requested(vs, v)
    ensures "" !in FirstOccurrences(vs, seen)
  {
    if vs != [] {
      FirstOccurrencesMeaning(vs[1..], seen);
      FirstOccurrencesMeaning(vs[1..], seen + {OrPaper(vs[0])});
      forall v
        ensures Requested(vs, v) <==> v == OrPaper(vs[0]) || Requested(vs[1..], v)
      {
        RequestedHeadOrTail(vs, v);
      }
    }
  }

  /** Deduplicating a list of distinct, non-empty venues changes nothing. */
  lemma {:induction false} DistinctIsFixed(vs: seq<string>, seen: set<string>)
    requires Distinct(vs) && "" !in vs && forall v :: v in vs ==> v !in seen
    ensures FirstOccurrences(vs, seen) == vs
  {
    if vs != [] {
      assert vs[0] in vs;
      DistinctIsFixed(vs[1..], seen + {vs[0]});
    }
  }

  // ---------- the execution chain ----------

  function Normalised(raw: string, norm: string -> string): string {
    OrPaper(norm(raw))
  }

  /** The normalised primary venue, then the normalised fallbacks. */
  function ChainNames(primary: string, fallbacks: seq<string>, norm: string -> string): seq<string> {
    [Normalised(OrPaper(primary), norm)]
        + seq(|fallbacks|, i requires 0 <= i < |fallbacks| => Normalised(fallbacks[i], norm))
  }

  /** The venues tried for an order: the primary, then the configured fallbacks, each once. */
  method ExecutionVenueChain(primary: string, fallbacks: seq<string>, norm: string -> string) returns (out: seq<string>)
    ensures out == Deduped(ChainNames(primary, fallbacks, norm))
    ensures out != [] && out[0] == Normalised(OrPaper(primary), norm)
  {
    var first := if primary == "" then Normalised(PAPER, norm) else Normalised(primary, norm);
    ghost var all := ChainNames(primary, fallbacks, norm);
    var seen := {first};
    out := [first];
    assert OrPaper(first) == first && {} + {first} == seen;
    for i := 0 to |fallbacks|
      invariant out != [] && out[0] == first
      invariant out + FirstOccurrences(all[i + 1..], seen) == Deduped(all)
    {
      var v := Normalised(fallbacks[i], norm);
      NextOccurrence(all, i + 1, seen, out, Deduped(all));
      if v !in seen {
        seen := seen + {v};
        out := out + [v];
      }
    }
  }

  /** The router's own deduplication is the identity on an execution chain. */
  lemma ChainIsAlreadyDeduped(vs: seq<string>)
    ensures Deduped(Deduped(vs)) == Deduped(vs)
  {
    FirstOccurrencesMeaning(vs, {});
    DistinctIsFixed(Deduped(vs), {});
  }

  // ---------- one attempt, and the fallback loop ----------

  /** How an attempt ends: no rate-limit token, no connector, or the venue's own answer. */
  datatype Outcome = WaitFailed | NoConnector | Rejected | Accepted(orderID: string) {
    /** Whether the order reached the venue. */
    predicate Submitted() {
      Rejected? || Accepted?
    }
  }

  datatype RouteResult = RouteResult(venue: string, outcome: Outcome)

  /** The first of the first `n` attempts that succeeds, or `n`. */
  function FirstSuccess(reply: nat -> Outcome, n: nat): (k: nat)
    ensures k <= n
    ensures forall j :: 0 <= j < k ==> !reply(j).Accepted?
    ensures k < n ==> reply(k).Accepted?
  {
    if n == 0 then 0
    else
      var k := FirstSuccess(reply, n - 1);
      if k < n - 1 || reply(n - 1).Accepted? then k else n
  }

  /**
   Tries the deduplicated venues in order until one accepts: a prefix of them is attempted, nothing after the first
   acceptance, and the last attempt is the one reported. `reply(k)` is how the k-th attempt turns out.
   */
  method PlaceFallback(venues: seq<string>, reply: nat -> Outcome)
    returns (last: Option<RouteResult>, ok: bool, attempted: seq<string>)
    ensures var chain := Deduped(venues);
            var k := FirstSuccess(reply, |chain|);
            && (ok <==> k < |chain|)
            && attempted == (if ok then chain[..k + 1] else chain)
            && (if attempted == [] then last == None
                else last == Some(RouteResult(chain[|attempted| - 1], reply(|attempted| - 1))))
            && (ok ==> last.value.outcome.Accepted?)
  {
    var chain := DedupeVenues(venues);
    last, attempted := None, [];
    for i := 0 to |chain|
      invariant attempted == chain[..i]
      invariant FirstSuccess(reply, i) == i
      invariant if i == 0 then last == None else last == Some(RouteResult(chain[i - 1], reply(i - 1)))
    {
      var res := RouteResult(chain[i], reply(i));
      attempted := attempted + [chain[i]];
      last := Some(res);
      if res.outcome.Accepted? {
        FirstSuccessIsStable(reply, i, i + 1, |chain|);
        return last, true, attempted;
      }
    }
    return last, false, attempted;
  }

  lemma {:induction false} FirstSuccessIsStable(reply: nat -> Outcome, k: nat, m: nat, n: nat)
    requires k < m <= n && FirstSuccess(reply, m) == k
    ensures FirstSuccess(reply, n) == k
  {
    if m < n {
      FirstSuccessIsStable(reply, k, m, n - 1);
    }
  }

  /** No venue is attempted twice, whatever list is given. */
  lemma AttemptsAreDistinct(venues: seq<string>, n: nat)
    requires n <= |Deduped(venues)|
    ensures Distinct(Deduped(venues)[..n])
  {
    FirstOccurrencesMeaning(venues, {});
  }

  // ---------- what is kept, and in which order ----------

  /** The name a venue goes by: PAPER when it has none. */
  ghost predicate Names(raw: string, v: string) {
    v == if raw == "" then "PAPER" else raw
  }

  ghost predicate FirstAt(vs: seq<string>, i: nat, v: string) {
    i < |vs| && Names(vs[i], v) && forall j :: 0 <= j < i ==> !Names(vs[j], v)
  }

  ghost predicate AtFirsts(vs: seq<string>, at: seq<nat>, out: seq<string>) {
    && |at| == |out|
    && (forall k :: 0 <= k < |at| ==> FirstAt(vs, at[k], out[k]))
    && (forall j, k :: 0 <= j < k < |at| ==> at[j] < at[k])
  }

  /** The venues kept stand in the order of their first occurrences, and each that is named is kept. */
  lemma {:induction false} KeptInOrder(vs: seq<string>) returns (at: seq<nat>)
    ensures AtFirsts(vs, at, Deduped(vs))
    ensures forall i, v :: 0 <= i < |vs| && Names(vs[i], v) ==> v in Deduped(vs)
  {
    FirstOccurrencesMeaning(vs, {});
    at := OrderKept(vs, {});
    forall i, v | 0 <= i < |vs| && Names(vs[i], v)
      ensures v in Deduped(vs)
    {
      assert OrPaper(vs[i]) == v;
    }
  }

  lemma {:induction false} OrderKept(vs: seq<string>, seen: set<string>) returns (at: seq<nat>)
    ensures AtFirsts(vs, at, FirstOccurrences(vs, seen))
  {
    at := [];
    if vs != [] {
      var v := OrPaper(vs[0]);
      var seen' := if v in seen then seen else seen + {v};
      var rest := OrderKept(vs[1..], seen');
      FirstOccurrencesMeaning(vs[1..], seen');
      at := HeadAndRest(vs, v, rest, FirstOccurrences(vs[1..], seen'), v !in seen);
    }
  }

  lemma HeadAndRest(vs: seq<string>, v: string, rest: seq<nat>, out: seq<string>, kept: bool) returns (at: seq<nat>)
    requires vs != [] && Names(vs[0], v) && v !in out && AtFirsts(vs[1..], rest, out)
    ensures AtFirsts(vs, at, if kept then [v] + out else out)
  {
    at := Shifted(rest);
    RestFurther(vs, v, rest, out, at);
    if kept {
      ConsFirst(vs, v, at, out);
      at := [0] + at;
    }
  }

  lemma RestFurther(vs: seq<string>, v: string, rest: seq<nat>, out: seq<string>, later: seq<nat>)
    requires vs != [] && Names(vs[0], v) && v !in out && AtFirsts(vs[1..], rest, out) && later == Shifted(rest)
    ensures AtFirsts(vs, later, out) && forall k :: 0 <= k < |later| ==> later[k] > 0
  {
    forall k | 0 <= k < |rest|
      ensures FirstAt(vs, later[k], out[k])
    {
      assert out[k] in out;
      FirstFurther(vs, rest[k], out[k], v);
    }
  }

  lemma ConsFirst(vs: seq<string>, v: string, later: seq<nat>, out: seq<string>)
    requires vs != [] && FirstAt(vs, 0, v) && AtFirsts(vs, later, out)
    requires forall k :: 0 <= k < |later| ==> later[k] > 0
    ensures AtFirsts(vs, [0] + later, [v] + out)
  {
    var at, all := [0] + later, [v] + out;
    forall k | 0 <= k < |at|
      ensures FirstAt(vs, at[k], all[k])
    {
    }
  }

  ghost function Shifted(at: seq<nat>): (r: seq<nat>)
    ensures |r| == |at| && forall k :: 0 <= k < |at| ==> r[k] == at[k] + 1
  {
    seq(|at|, k requires 0 <= k < |at| => at[k] + 1)
  }

  lemma FirstFurther(vs: seq<string>, i: nat, v: string, head: string)
    requires vs != [] && Names(vs[0], head) && v != head && FirstAt(vs[1..], i, v)
    ensures FirstAt(vs, i + 1, v)
  {
    forall j | 0 <= j < i + 1
      ensures !Names(vs[j], v)
    {
      if j > 0 {
        assert vs[j] == vs[1..][j - 1];
      }
    }
  }

  /** An execution chain: the primary first, then every fallback, each by its normalised name and once. */
  lemma ChainHoldsAll(primary: string, fallbacks: seq<string>, norm: string -> string, chain: seq<string>,
                      first: string)
    requires chain == Deduped(ChainNames(primary, fallbacks, norm))
    requires Names(norm(if primary == "" then "PAPER" else primary), first)
    ensures chain != [] && chain[0] == first && Distinct(chain)
    ensures forall v :: v in chain <==>
              v == first || exists i :: 0 <= i < |fallbacks| && Names(norm(fallbacks[i]), v)
  {
    var names := ChainNames(primary, fallbacks, norm);
    FirstOccurrencesMeaning(names, {});
    assert names[0] == first;
    forall v
      ensures Requested(names, v) <==> v == first || exists i :: 0 <= i < |fallbacks| && Names(norm(fallbacks[i]), v)
    {
      ChainRequests(fallbacks, norm, names, first, v);
    }
  }

  lemma ChainRequests(fallbacks: seq<string>, norm: string -> string, names: seq<string>, first: string, v: string)
    requires |names| == |fallbacks| + 1 && names[0] == first && first != ""
    requires forall i :: 0 <= i < |fallbacks| ==> names[i + 1] == Normalised(fallbacks[i], norm)
    ensures Requested(names, v) <==> v == first || exists i :: 0 <= i < |fallbacks| && Names(norm(fallbacks[i]), v)
  {
    if i :| 0 <= i < |names| && OrPaper(names[i]) == v {
      assert i > 0 ==> Names(norm(fallbacks[i - 1]), v);
    }
    if i :| 0 <= i < |fallbacks| && Names(norm(fallbacks[i]), v) {
      assert OrPaper(names[i + 1]) == v;
    }
    assert v == first ==> OrPaper(names[0]) == v;
  }
}
