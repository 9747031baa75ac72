/**
 The concurrent fan-out (internal/execution/router.go, lines 159-184) as interleaved atomic steps: one goroutine per
 deduplicated venue, a counting semaphore, a mutex around the result list, and a wait group the caller blocks on.
 */
module ParallelRouter {
  import opened Types
  import opened VenueRouting

  /** Where a goroutine is. `Called` on carries how its attempt turned out. */
  datatype PC =
    | Unborn
    | Started
    | Holding
    | Called(o: Outcome)
    | Locked(o: Outcome)
    | Appended(o: Outcome)
    | Unlocked(o: Outcome)
    | Released(o: Outcome)
    | Finished(o: Outcome)

  datatype State = State(
    procs: seq<PC>,            // one per venue
    spawned: nat,              // goroutines the caller has started, in venue order
    sem: nat,                  // tokens in the semaphore channel
    mutex: Option<nat>,        // who holds the result mutex
    waitGroup: nat,
    out: seq<(nat, Outcome)>,  // results, by goroutine
    submitted: seq<nat>,       // goroutines whose order reached their venue
    returned: bool
  )

  datatype Action =
    | Spawn
    | Acquire(k: nat)
    | Call(k: nat, o: Outcome)
    | Lock(k: nat)
    | Append(k: nat)
    | Unlock(k: nat)
    | Release(k: nat)
    | Finish(k: nat)
    | Return

  function Initial(n: nat): State {
    State(seq(n, _ => Unborn), 0, 0, None, 0, [], [], false)
  }

  predicate At(s: State, k: nat) {
    k < |s.procs|
  }

  predicate Enabled(s: State, maxPar: nat, a: Action) {
    match a
    case Spawn => !s.returned && s.spawned < |s.procs|
    case Acquire(k) => At(s, k) && s.procs[k].Started? && s.sem < maxPar
    case Call(k, _) => At(s, k) && s.procs[k].Holding?
    case Lock(k) => At(s, k) && s.procs[k].Called? && s.mutex == None
    case Append(k) => At(s, k) && s.procs[k].Locked?
    case Unlock(k) => At(s, k) && s.procs[k].Appended?
    case Release(k) => At(s, k) && s.procs[k].Unlocked? && s.sem > 0
    case Finish(k) => At(s, k) && s.procs[k].Released? && s.waitGroup > 0
    case Return => !s.returned && s.spawned == |s.procs| && s.waitGroup == 0
  }

  function Next(s: State, maxPar: nat, a: Action): State
    requires Enabled(s, maxPar, a)
  {
    match a
    case Spawn => s.(procs := s.procs[s.spawned := Started], spawned := s.spawned + 1, waitGroup := s.waitGroup + 1)
    case Acquire(k) => s.(procs := s.procs[k := Holding], sem := s.sem + 1)
    case Call(k, o) =>
      s.(procs := s.procs[k := Called(o)], submitted := if o.Submitted() then s.submitted + [k] else s.submitted)
    case Lock(k) => s.(procs := s.procs[k := Locked(s.procs[k].o)], mutex := Some(k))
    case Append(k) => s.(procs := s.procs[k := Appended(s.procs[k].o)], out := s.out + [(k, s.procs[k].o)])
    case Unlock(k) => s.(procs := s.procs[k := Unlocked(s.procs[k].o)], mutex := None)
    case Release(k) => s.(procs := s.procs[k := Released(s.procs[k].o)], sem := s.sem - 1)
    case Finish(k) => s.(procs := s.procs[k := Finished(s.procs[k].o)], waitGroup := s.waitGroup - 1)
    case Return => s.(returned := true)
  }

  /** The state after some actions, when each was enabled in its turn. */
  function Execute(n: nat, maxPar: nat, run: seq<Action>): Option<State> {
    if run == [] then Some(Initial(n))
    else
      match Execute(n, maxPar, run[..|run| - 1])
      case None => None
      case Some(s) => if Enabled(s, maxPar, run[|run| - 1]) then Some(Next(s, maxPar, run[|run| - 1])) else None
  }

  // ---------- counting goroutines ----------

  function Total(procs: seq<PC>, weight: PC -> nat): nat {
    if procs == [] then 0 else weight(procs[0]) + Total(procs[1..], weight)
  }

  lemma {:induction false} TotalAfterUpdate(procs: seq<PC>, k: nat, pc: PC, weight: PC -> nat)
    requires k < |procs|
    ensures Total(procs[k := pc], weight) + weight(procs[k]) == Total(procs, weight) + weight(pc)
  {
    if k > 0 {
      TotalAfterUpdate(procs[1..], k - 1, pc, weight);
      assert procs[k := pc][1..] == procs[1..][k - 1 := pc];
    } else {
      assert procs[0 := pc][1..] == procs[1..];
    }
  }

  lemma {:induction false} TotalIsPositive(procs: seq<PC>, k: nat, weight: PC -> nat)
    requires k < |procs|
    ensures Total(procs, weight) >= weight(procs[k])
  {
    if k > 0 {
      TotalIsPositive(procs[1..], k - 1, weight);
    }
  }

  lemma {:induction false} TotalOfZeros(procs: seq<PC>, weight: PC -> nat)
    requires forall k :: 0 <= k < |procs| ==> weight(procs[k]) == 0
    ensures Total(procs, weight) == 0
  {
    if procs != [] {
      TotalOfZeros(procs[1..], weight);
    }
  }

  function HoldsToken(pc: PC): nat {
    if pc.Holding? || pc.Called? || pc.Locked? || pc.Appended? || pc.Unlocked? then 1 else 0
  }

  function IsLive(pc: PC): nat {
    if pc.Unborn? || pc.Finished? then 0 else 1
  }

  predicate HasMutex(pc: PC) {
    pc.Locked? || pc.Appended?
  }

  predicate HasCalled(pc: PC) {
    !pc.Unborn? && !pc.Started? && !pc.Holding?
  }

  predicate HasAppended(pc: PC) {
    pc.Appended? || pc.Unlocked? || pc.Released? || pc.Finished?
  }

  /** Steps a goroutine still has to take. */
  function StepsLeft(pc: PC): nat {
    match pc
    case Unborn => 8
    case Started => 7
    case Holding => 6
    case Called(_) => 5
    case Locked(_) => 4
    case Appended(_) => 3
    case Unlocked(_) => 2
    case Released(_) => 1
    case Finished(_) => 0
  }

  // ---------- the invariant ----------

  ghost predicate Counters(s: State, n: nat, maxPar: nat) {
    && |s.procs| == n && s.spawned <= n
    && (forall k :: 0 <= k < n ==> (s.procs[k].Unborn? <==> s.spawned <= k))
    && s.sem == Total(s.procs, HoldsToken) <= maxPar
    && s.waitGroup == Total(s.procs, IsLive)
    && (s.returned ==> s.spawned == n && s.waitGroup == 0)
  }

  ghost predicate Exclusion(s: State) {
    && (forall k :: 0 <= k < |s.procs| ==> (HasMutex(s.procs[k]) <==> s.mutex == Some(k)))
    && (s.mutex.Some? ==> s.mutex.value < |s.procs|)
  }

  /** The result list holds each appended goroutine's outcome once, and nothing else. */
  ghost predicate Recorded(s: State) {
    && (forall i :: 0 <= i < |s.out| ==>
          s.out[i].0 < |s.procs| && HasAppended(s.procs[s.out[i].0]) && s.procs[s.out[i].0].o == s.out[i].1)
    && (forall i, j :: 0 <= i < j < |s.out| ==> s.out[i].0 != s.out[j].0)
    && (forall k :: 0 <= k < |s.procs| && HasAppended(s.procs[k]) ==> (k, s.procs[k].o) in s.out)
  }

  /** The submissions are those of the goroutines whose attempt reached the venue, each once. */
  ghost predicate SubmittedOnce(s: State) {
    && (forall i :: 0 <= i < |s.submitted| ==>
          s.submitted[i] < |s.procs| && HasCalled(s.procs[s.submitted[i]]) && s.procs[s.submitted[i]].o.Submitted())
    && (forall i, j :: 0 <= i < j < |s.submitted| ==> s.submitted[i] != s.submitted[j])
    && (forall k :: 0 <= k < |s.procs| && HasCalled(s.procs[k]) && s.procs[k].o.Submitted() ==> k in s.submitted)
  }

  ghost predicate Inv(s: State, n: nat, maxPar: nat) {
    Counters(s, n, maxPar) && Exclusion(s) && Recorded(s) && SubmittedOnce(s)
  }

  lemma CountersKept(s: State, n: nat, maxPar: nat, a: Action)
    requires Counters(s, n, maxPar) && Enabled(s, maxPar, a)
    ensures Counters(Next(s, maxPar, a), n, maxPar)
  {
    var t := Next(s, maxPar, a);
    if !a.Return? {
      var k := if a.Spawn? then s.spawned else a.k;
      TotalAfterUpdate(s.procs, k, t.procs[k], HoldsToken);
      TotalAfterUpdate(s.procs, k, t.procs[k], IsLive);
      TotalIsPositive(s.procs, k, IsLive);
    }
  }

  lemma ExclusionKept(s: State, maxPar: nat, a: Action)
    requires Exclusion(s) && Enabled(s, maxPar, a) && s.spawned <= |s.procs|
    requires a.Spawn? ==> s.procs[s.spawned].Unborn?
    ensures Exclusion(Next(s, maxPar, a))
  {
  }

  lemma RecordedKept(s: State, maxPar: nat, a: Action)
    requires Recorded(s) && Enabled(s, maxPar, a) && s.spawned <= |s.procs|
    requires a.Spawn? ==> s.procs[s.spawned].Unborn?
    ensures Recorded(Next(s, maxPar, a))
  {
    var t := Next(s, maxPar, a);
    if a.Append? {
      RecordedGrows(s, t, a.k, s.procs[a.k].o);
    } else {
      RecordedStays(s, t);
    }
  }

  lemma RecordedGrows(s: State, t: State, j: nat, o: Outcome)
    requires Recorded(s) && j < |s.procs| && !HasAppended(s.procs[j])
    requires t.procs == s.procs[j := Appended(o)] && t.out == s.out + [(j, o)]
    ensures Recorded(t)
  {
    forall k | 0 <= k < |t.procs| && HasAppended(t.procs[k])
      ensures (k, t.procs[k].o) in t.out
    {
      if k == j {
        assert t.out[|s.out|] == (k, t.procs[k].o);
      } else {
        assert (k, s.procs[k].o) in s.out;
      }
    }
  }

  lemma RecordedStays(s: State, t: State)
    requires Recorded(s) && t.out == s.out && |t.procs| == |s.procs|
    requires forall k :: 0 <= k < |s.procs| ==>
               && (HasAppended(t.procs[k]) <==> HasAppended(s.procs[k]))
               && (HasAppended(s.procs[k]) ==> t.procs[k].o == s.procs[k].o)
    ensures Recorded(t)
  {
  }

  lemma SubmittedOnceKept(s: State, maxPar: nat, a: Action)
    requires SubmittedOnce(s) && Enabled(s, maxPar, a) && s.spawned <= |s.procs|
    requires a.Spawn? ==> s.procs[s.spawned].Unborn?
    ensures SubmittedOnce(Next(s, maxPar, a))
  {
    var t := Next(s, maxPar, a);
    if a.Call? {
      SubmittedGrows(s, t, a.k, a.o);
    } else {
      SubmittedStays(s, t);
    }
  }

  lemma SubmittedGrows(s: State, t: State, j: nat, o: Outcome)
    requires SubmittedOnce(s) && j < |s.procs| && !HasCalled(s.procs[j])
    requires t.procs == s.procs[j := Called(o)]
    requires t.submitted == if o.Submitted() then s.submitted + [j] else s.submitted
    ensures SubmittedOnce(t)
  {
    forall k | 0 <= k < |t.procs| && HasCalled(t.procs[k]) && t.procs[k].o.Submitted()
      ensures k in t.submitted
    {
      if k == j {
        assert t.submitted[|s.submitted|] == k;
      } else {
        assert k in s.submitted;
      }
    }
  }

  lemma SubmittedStays(s: State, t: State)
    requires SubmittedOnce(s) && t.submitted == s.submitted && |t.procs| == |s.procs|
    requires forall k :: 0 <= k < |s.procs| ==>
               && (HasCalled(t.procs[k]) <==> HasCalled(s.procs[k]))
               && (HasCalled(s.procs[k]) ==> t.procs[k].o == s.procs[k].o)
    ensures SubmittedOnce(t)
  {
  }

  /** The invariant holds in every reachable state, whatever the interleaving. */
  lemma {:induction false} Reachable(n: nat, maxPar: nat, run: seq<Action>)
    requires Execute(n, maxPar, run).Some?
    ensures Inv(Execute(n, maxPar, run).value, n, maxPar)
  {
    if run == [] {
      TotalOfZeros(Initial(n).procs, HoldsToken);
      TotalOfZeros(Initial(n).procs, IsLive);
    } else {
      Reachable(n, maxPar, run[..|run| - 1]);
      var s, a := Execute(n, maxPar, run[..|run| - 1]).value, run[|run| - 1];
      CountersKept(s, n, maxPar, a);
      ExclusionKept(s, maxPar, a);
      RecordedKept(s, maxPar, a);
      SubmittedOnceKept(s, maxPar, a);
    }
  }

  // ---------- what every interleaving guarantees ----------

  /** At most `maxPar` goroutines hold the semaphore at once, and at most one the mutex. */
  lemma BoundedConcurrency(n: nat, maxPar: nat, run: seq<Action>)
    requires Execute(n, maxPar, run).Some?
    ensures var s := Execute(n, maxPar, run).value;
            && Total(s.procs, HoldsToken) <= maxPar
            && forall j, k :: 0 <= j < |s.procs| && 0 <= k < |s.procs| ==>
                 HasMutex(s.procs[j]) && HasMutex(s.procs[k]) ==> j == k
  {
    Reachable(n, maxPar, run);
  }

  /** Until the caller has returned, some step is always possible: no interleaving deadlocks. */
  lemma NoDeadlock(n: nat, maxPar: nat, run: seq<Action>) returns (a: Action)
    requires maxPar > 0 && Execute(n, maxPar, run).Some? && !Execute(n, maxPar, run).value.returned
    ensures Enabled(Execute(n, maxPar, run).value, maxPar, a)
  {
    Reachable(n, maxPar, run);
    var s := Execute(n, maxPar, run).value;
    if s.spawned < n {
      return Spawn;
    } else if s.mutex.Some? {
      return if s.procs[s.mutex.value].Locked? then Append(s.mutex.value) else Unlock(s.mutex.value);
    } else if k :| 0 <= k < n && IsLive(s.procs[k]) == 1 && !s.procs[k].Started? {
      TotalIsPositive(s.procs, k, HoldsToken);
      TotalIsPositive(s.procs, k, IsLive);
      return if s.procs[k].Holding? then Call(k, NoConnector)
             else if s.procs[k].Called? then Lock(k)
             else if s.procs[k].Unlocked? then Release(k)
             else Finish(k);
    } else if k :| 0 <= k < n && s.procs[k].Started? {
      TotalOfZeros(s.procs, HoldsToken);
      return Acquire(k);
    } else {
      TotalOfZeros(s.procs, IsLive);
      return Return;
    }
  }

  function Remaining(s: State): nat {
    Total(s.procs, StepsLeft) + if s.returned then 0 else 1
  }

  lemma {:induction false} InitialSteps(n: nat)
    ensures Total(Initial(n).procs, StepsLeft) == 8 * n
  {
    if n > 0 {
      InitialSteps(n - 1);
      assert Initial(n).procs[1..] == Initial(n - 1).procs;
    }
  }

  lemma StepUsesOne(s: State, n: nat, maxPar: nat, a: Action)
    requires Counters(s, n, maxPar) && Enabled(s, maxPar, a)
    ensures Remaining(Next(s, maxPar, a)) + 1 == Remaining(s)
  {
    if !a.Return? {
      var k := if a.Spawn? then s.spawned else a.k;
      TotalAfterUpdate(s.procs, k, Next(s, maxPar, a).procs[k], StepsLeft);
    }
  }

  /**
   Every step uses up exactly one of the 8n+1 steps there are, so every interleaving ends, and ends with the return.
   */
  lemma {:induction false} EveryRunIsFinite(n: nat, maxPar: nat, run: seq<Action>)
    requires Execute(n, maxPar, run).Some?
    ensures |run| + Remaining(Execute(n, maxPar, run).value) == 8 * n + 1
  {
    if run == [] {
      InitialSteps(n);
    } else {
      EveryRunIsFinite(n, maxPar, run[..|run| - 1]);
      Reachable(n, maxPar, run[..|run| - 1]);
      StepUsesOne(Execute(n, maxPar, run[..|run| - 1]).value, n, maxPar, run[|run| - 1]);
    }
  }

  lemma {:induction false} AllFinishedWhenNoneLive(procs: seq<PC>)
    requires Total(procs, IsLive) == 0
    ensures forall k :: 0 <= k < |procs| ==> IsLive(procs[k]) == 0
  {
    if procs != [] {
      AllFinishedWhenNoneLive(procs[1..]);
    }
  }

  /**
   When the caller returns, each venue has exactly one result, the outcome of its own attempt, and each venue whose
   attempt got that far was submitted to exactly once.
   */
  lemma OneResultPerVenue(n: nat, maxPar: nat, run: seq<Action>)
    requires Execute(n, maxPar, run).Some? && Execute(n, maxPar, run).value.returned
    ensures var s := Execute(n, maxPar, run).value;
            && |s.procs| == n
            && (forall k :: 0 <= k < n ==> s.procs[k].Finished? && (k, s.procs[k].o) in s.out)
            && (forall i :: 0 <= i < |s.out| ==> s.out[i].0 < n && s.out[i].1 == s.procs[s.out[i].0].o)
            && (forall i, j :: 0 <= i < j < |s.out| ==> s.out[i].0 != s.out[j].0)
            && (forall k :: 0 <= k < n ==> (k in s.submitted <==> s.procs[k].o.Submitted()))
            && (forall i, j :: 0 <= i < j < |s.submitted| ==> s.submitted[i] != s.submitted[j])
  {
    Reachable(n, maxPar, run);
    AllFinishedWhenNoneLive(Execute(n, maxPar, run).value.procs);
  }

  /** Some goroutine of the run stands for the venue, has its one result, and no other result is the venue's. */
  ghost predicate OneResultFor(vs: seq<string>, s: State, v: string) {
    && (exists k :: 0 <= k < |vs| && 0 <= k < |s.procs| && vs[k] == v && s.procs[k].Finished?
                    && (k, s.procs[k].o) in s.out)
    && (forall i, j :: 0 <= i < j < |s.out| && s.out[i].0 < |vs| && s.out[j].0 < |vs| ==>
          !(vs[s.out[i].0] == v && vs[s.out[j].0] == v))
  }

  ghost predicate AtMostOneSubmission(vs: seq<string>, s: State, v: string) {
    forall i, j :: 0 <= i < j < |s.submitted| && s.submitted[i] < |vs| && s.submitted[j] < |vs| ==>
      !(vs[s.submitted[i]] == v && vs[s.submitted[j]] == v)
  }

  /** By name: whatever venues are asked for, each gets exactly one result and at most one submission. */
  lemma EachVenueOnce(venues: seq<string>, maxPar: nat, run: seq<Action>, s: State, v: string)
    requires Execute(|Deduped(venues)|, maxPar, run) == Some(s) && s.returned && Requested(venues, v)
    ensures OneResultFor(Deduped(venues), s, v) && AtMostOneSubmission(Deduped(venues), s, v)
  {
    var vs := Deduped(venues);
    FirstOccurrencesMeaning(venues, {});
    OneResultPerVenue(|vs|, maxPar, run);
    assert v in vs;
    var k: nat :| k < |vs| && vs[k] == v;
    assert s.procs[k].Finished? && (k, s.procs[k].o) in s.out;
  }
}
