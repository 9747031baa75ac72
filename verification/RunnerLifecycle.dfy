/**
 The runner's lifecycle (internal/app/runner.go, lines 81-154) against its loop goroutines (lines 291-318, 414-577 and
 internal/app/exits.go, lines 66-159) as interleaved atomic steps.

 Every lifecycle method runs under one mutex. Only confirming a nuke does several visible things while holding it, so
 it is split into stages and the other methods wait for it; the loops read the halted and paused flags without the
 mutex, so their reads can fall between any two steps. Contexts can also be cancelled by their parents at any time.

 Every request a loop makes carries its context, so an order takes two steps. It is submitted at the last moment its
 context is looked at: when the simulated connector has its book (internal/exchange/paper.go, lines 66-70), or when the
 request to a venue goes out after the rate limiter's wait (internal/execution/router.go, lines 124-147). From then on
 it is in flight, and it lands, or fails, whatever becomes of the context.
 */
module RunnerLifecycle {
  import opened Types

  const CONFIRM_WINDOW := 60

  /** A confirmed nuke's progress; it holds the mutex until it is back at `NoNuke`. */
  datatype Nuke = NoNuke | Flattening | CancellingVenues | Halting | Pausing | CancellingLoop

  /**
   A loop goroutine: waiting for its ticker or its context; between ticks of a sweep over the instruments; past a tick's
   halted check, waiting for the book; inside a tick's signal loop; past the pause check of one signal, then with its
   entry in flight; past the halted check of one exit, inside a tick or after it, then with that exit in flight; gone.
   */
  datatype Loop =
    | Waiting
    | Sweeping
    | HaltChecked
    | InTick
    | EntryCleared
    | EntryInFlight
    | ExitCleared(inTick: bool)
    | ExitInFlight(inTick: bool)
    | Gone

  /**
   The nuke request in force and its deadline; when each request was made; which request each nuke used up, and when.
   */
  datatype NukeBook = NukeBook(armed: bool, until: int, armings: seq<int>, executions: seq<(nat, int)>)

  datatype State = State(
    now: int,
    paused: bool,
    halted: bool,
    book: NukeBook,
    loopCancel: Option<nat>,
    cancelled: seq<bool>,        // per loop context ever created
    loops: seq<Loop>,            // the goroutine of each context
    nuke: Nuke,
    entries: seq<nat>,           // entry orders of each loop that have landed
    exits: seq<nat>              // exit orders of each loop that have landed
  )

  datatype Action =
    | Elapse(d: nat)
    | Start
    | Stop
    | Pause
    | Resume
    | RequestNuke
    | ConfirmNuke
    | NukeStep
    | ParentCancel(i: nat)
    | LeaveLoop(i: nat)
    | TakeTick(i: nat)
    | EnterTick(i: nat)
    | GetBook(i: nat)
    | SkipTick(i: nat)
    | CheckSignal(i: nat)
    | SubmitEntry(i: nat)
    | LandEntry(i: nat)
    | FailEntry(i: nat)
    | SkipEntry(i: nat)
    | CheckExit(i: nat)
    | SubmitExit(i: nat)
    | LandExit(i: nat)
    | FailExit(i: nat)
    | SkipExit(i: nat)
    | EndTick(i: nat)
    | EndSweep(i: nat)

  function Initial(now: int): State {
    State(now, false, false, NukeBook(false, now, [], []), None, [], [], NoNuke, [], [])
  }

  /** The loop an action belongs to, if it is a loop's. */
  predicate LoopAt(s: State, i: nat, pc: Loop) {
    i < |s.loops| && s.loops[i] == pc
  }

  /** The loop's context is still live. */
  predicate Live(s: State, i: nat) {
    i < |s.cancelled| && !s.cancelled[i]
  }

  predicate ExitAt(s: State, i: nat, inFlight: bool) {
    i < |s.loops| && if inFlight then s.loops[i].ExitInFlight? else s.loops[i].ExitCleared?
  }

  predicate Enabled(s: State, a: Action) {
    match a
    case Elapse(_) => true
    case Start => s.nuke == NoNuke
    case Stop => s.nuke == NoNuke
    case Pause => s.nuke == NoNuke
    case Resume => s.nuke == NoNuke
    case RequestNuke => s.nuke == NoNuke
    case ConfirmNuke => s.nuke == NoNuke
    case NukeStep => s.nuke != NoNuke
    case ParentCancel(i) => i < |s.cancelled|
    case LeaveLoop(i) => LoopAt(s, i, Waiting) && i < |s.cancelled| && s.cancelled[i]
    case TakeTick(i) => LoopAt(s, i, Waiting)
    case EnterTick(i) => LoopAt(s, i, Sweeping)
    case GetBook(i) => LoopAt(s, i, HaltChecked) && Live(s, i)
    case SkipTick(i) => LoopAt(s, i, HaltChecked)
    case CheckSignal(i) => LoopAt(s, i, InTick)
    case SubmitEntry(i) => LoopAt(s, i, EntryCleared) && Live(s, i)
    case LandEntry(i) => LoopAt(s, i, EntryInFlight) && i < |s.entries|
    case FailEntry(i) => LoopAt(s, i, EntryInFlight)
    case SkipEntry(i) => LoopAt(s, i, EntryCleared)
    case CheckExit(i) => LoopAt(s, i, InTick) || LoopAt(s, i, Sweeping)
    case SubmitExit(i) => ExitAt(s, i, false) && Live(s, i)
    case LandExit(i) => ExitAt(s, i, true) && i < |s.exits|
    case FailExit(i) => ExitAt(s, i, true)
    case SkipExit(i) => ExitAt(s, i, false)
    case EndTick(i) => LoopAt(s, i, InTick)
    case EndSweep(i) => LoopAt(s, i, Sweeping)
  }

  function CancelLoop(s: State): State {
    if s.loopCancel.Some? && s.loopCancel.value < |s.cancelled|
    then s.(cancelled := s.cancelled[s.loopCancel.value := true], loopCancel := None)
    else s.(loopCancel := None)
  }

  function StartLoop(s: State): State {
    if s.halted || s.loopCancel.Some? then s
    else s.(loopCancel := Some(|s.cancelled|), cancelled := s.cancelled + [false], loops := s.loops + [Waiting],
            entries := s.entries + [0], exits := s.exits + [0])
  }

  function Request(b: NukeBook, now: int): NukeBook {
    b.(armed := true, until := now + CONFIRM_WINDOW, armings := b.armings + [now])
  }

  /** Whether a confirmation goes ahead. */
  predicate Confirmable(b: NukeBook, now: int) {
    b.armed && now <= b.until
  }

  /** A confirmation disarms, and uses up the latest request if it goes ahead. */
  function Confirm(b: NukeBook, now: int): NukeBook {
    if Confirmable(b, now) && b.armings != []
    then b.(armed := false, executions := b.executions + [(|b.armings| - 1, now)])
    else b.(armed := false)
  }

  function AdvanceNuke(s: State): State {
    match s.nuke
    case NoNuke => s
    case Flattening => s.(nuke := CancellingVenues)
    case CancellingVenues => s.(nuke := Halting)
    case Halting => s.(halted := true, nuke := Pausing)
    case Pausing => s.(paused := true, nuke := CancellingLoop)
    case CancellingLoop => CancelLoop(s).(nuke := NoNuke)
  }

  function SetLoop(s: State, i: nat, pc: Loop): State
    requires i < |s.loops|
  {
    s.(loops := s.loops[i := pc])
  }

  /** Where a loop goes on after an exit. */
  function Back(inTick: bool): Loop {
    if inTick then InTick else Sweeping
  }

  /** A failed attempt leaves the loop where it can try the next venue, or give up. */
  function Next(s: State, a: Action): State
    requires Enabled(s, a)
  {
    match a
    case Elapse(d) => s.(now := s.now + d)
    case Start => StartLoop(s)
    case Stop => CancelLoop(s)
    case Pause => s.(paused := true)
    case Resume => s.(paused := false)
    case RequestNuke => s.(book := Request(s.book, s.now))
    case ConfirmNuke =>
      s.(book := Confirm(s.book, s.now), nuke := if Confirmable(s.book, s.now) then Flattening else NoNuke)
    case NukeStep => AdvanceNuke(s)
    case ParentCancel(i) => s.(cancelled := s.cancelled[i := true])
    case LeaveLoop(i) => SetLoop(s, i, Gone)
    case TakeTick(i) => SetLoop(s, i, Sweeping)
    case EnterTick(i) => if s.halted then s else SetLoop(s, i, HaltChecked)
    case GetBook(i) => SetLoop(s, i, InTick)
    case SkipTick(i) => SetLoop(s, i, Sweeping)
    case CheckSignal(i) => SetLoop(s, i, if s.paused then Sweeping else EntryCleared)
    case SubmitEntry(i) => SetLoop(s, i, EntryInFlight)
    case LandEntry(i) => SetLoop(s, i, InTick).(entries := s.entries[i := s.entries[i] + 1])
    case FailEntry(i) => SetLoop(s, i, EntryCleared)
    case SkipEntry(i) => SetLoop(s, i, InTick)
    case CheckExit(i) => if s.halted then s else SetLoop(s, i, ExitCleared(s.loops[i] == InTick))
    case SubmitExit(i) => SetLoop(s, i, ExitInFlight(s.loops[i].inTick))
    case LandExit(i) => SetLoop(s, i, Back(s.loops[i].inTick)).(exits := s.exits[i := s.exits[i] + 1])
    case FailExit(i) => SetLoop(s, i, ExitCleared(s.loops[i].inTick))
    case SkipExit(i) => SetLoop(s, i, Back(s.loops[i].inTick))
    case EndTick(i) => SetLoop(s, i, Sweeping)
    case EndSweep(i) => SetLoop(s, i, Waiting)
  }

  /** The state after some actions from `s`, when each was enabled in its turn. */
  function Execute(s: State, run: seq<Action>): Option<State> {
    if run == [] then Some(s)
    else
      match Execute(s, run[..|run| - 1])
      case None => None
      case Some(t) => if Enabled(t, run[|run| - 1]) then Some(Next(t, run[|run| - 1])) else None
  }

  // ---------- the invariant ----------

  /** Every context that is not cancelled is the one whose cancel function the runner holds. */
  ghost predicate OneLiveContext(s: State) {
    && |s.cancelled| == |s.loops| == |s.entries| == |s.exits|
    && (forall i :: 0 <= i < |s.cancelled| && !s.cancelled[i] ==> s.loopCancel == Some(i))
    && (s.loopCancel.Some? ==> s.loopCancel.value < |s.cancelled|)
    && (s.halted && s.nuke == NoNuke ==> s.loopCancel == None)
    && (s.nuke in {Pausing, CancellingLoop} ==> s.halted)
    && (s.nuke == CancellingLoop ==> s.paused)
  }

  /** Requests are in the past; each execution used up a request of its own, within its window. */
  ghost predicate Accounted(b: NukeBook, now: int) {
    && (forall k :: 0 <= k < |b.armings| ==> b.armings[k] <= now)
    && (b.armed ==> b.armings != [] && b.until == b.armings[|b.armings| - 1] + CONFIRM_WINDOW)
    && (forall k :: 0 <= k < |b.executions| ==>
          && b.executions[k].0 < |b.armings|
          && b.armings[b.executions[k].0] <= b.executions[k].1 <= b.armings[b.executions[k].0] + CONFIRM_WINDOW
          && (b.armed ==> b.executions[k].0 < |b.armings| - 1))
    && (forall j, k :: 0 <= j < k < |b.executions| ==> b.executions[j].0 < b.executions[k].0)
  }

  /** A loop's own steps touch no context, flag or nuke. */
  predicate OwnStep(a: Action) {
    !(a.Elapse? || a.Start? || a.Stop? || a.Pause? || a.Resume? || a.RequestNuke? || a.ConfirmNuke? || a.NukeStep?
      || a.ParentCancel?)
  }

  lemma OwnStepFacts(s: State, a: Action)
    requires Enabled(s, a) && OwnStep(a)
    ensures var t := Next(s, a);
            && t.cancelled == s.cancelled && t.loopCancel == s.loopCancel && t.halted == s.halted && t.nuke == s.nuke
            && t.paused == s.paused && t.book == s.book && t.now == s.now
            && |t.loops| == |s.loops| && |t.entries| == |s.entries| && |t.exits| == |s.exits|
  {
  }

  /** The loop is where it was, with the same orders landed. */
  ghost predicate SameLoop(s: State, t: State, i: nat) {
    && i < |s.loops| && i < |t.loops| && t.loops[i] == s.loops[i]
    && i < |s.entries| && i < |t.entries| && t.entries[i] == s.entries[i]
    && i < |s.exits| && i < |t.exits| && t.exits[i] == s.exits[i]
  }

  /** A loop's place and orders change by its own steps only. */
  lemma OthersKeepLoop(s: State, a: Action, i: nat)
    requires Enabled(s, a) && (!OwnStep(a) || a.i != i)
    requires i < |s.loops| && i < |s.entries| && i < |s.exits|
    ensures SameLoop(s, Next(s, a), i)
  {
    if OwnStep(a) {
      OtherOwnKeepsLoop(s, a, i);
    } else {
      SharedKeepsLoop(s, a, i);
    }
  }

  lemma SharedKeepsLoop(s: State, a: Action, i: nat)
    requires Enabled(s, a) && !OwnStep(a) && i < |s.loops| && i < |s.entries| && i < |s.exits|
    ensures SameLoop(s, Next(s, a), i)
  {
  }

  lemma OtherOwnKeepsLoop(s: State, a: Action, i: nat)
    requires Enabled(s, a) && OwnStep(a) && a.i != i && i < |s.loops| && i < |s.entries| && i < |s.exits|
    ensures SameLoop(s, Next(s, a), i)
  {
  }

  /** Contexts are never revived. */
  lemma CancelledStays(s: State, a: Action, i: nat)
    requires Enabled(s, a) && i < |s.cancelled| && s.cancelled[i]
    ensures i < |Next(s, a).cancelled| && Next(s, a).cancelled[i]
  {
    if OwnStep(a) {
      OwnStepFacts(s, a);
    }
  }

  lemma OneLiveContextKept(s: State, a: Action)
    requires OneLiveContext(s) && Enabled(s, a)
    ensures OneLiveContext(Next(s, a))
  {
    if OwnStep(a) {
      OwnStepFacts(s, a);
    }
  }

  lemma RequestKeepsAccounts(b: NukeBook, now: int)
    requires Accounted(b, now)
    ensures Accounted(Request(b, now), now)
  {
  }

  lemma ConfirmKeepsAccounts(b: NukeBook, now: int)
    requires Accounted(b, now)
    ensures Accounted(Confirm(b, now), now)
  {
  }

  lemma AccountedKept(s: State, a: Action)
    requires Accounted(s.book, s.now) && Enabled(s, a)
    ensures Accounted(Next(s, a).book, Next(s, a).now)
  {
    if a.RequestNuke? {
      RequestKeepsAccounts(s.book, s.now);
    } else if a.ConfirmNuke? {
      ConfirmKeepsAccounts(s.book, s.now);
    } else {
      assert Next(s, a).book == s.book;
    }
  }

  lemma {:induction false} Reachable(now: int, run: seq<Action>)
    requires Execute(Initial(now), run).Some?
    ensures OneLiveContext(Execute(Initial(now), run).value)
    ensures Accounted(Execute(Initial(now), run).value.book, Execute(Initial(now), run).value.now)
  {
    if run != [] {
      Reachable(now, run[..|run| - 1]);
      OneLiveContextKept(Execute(Initial(now), run[..|run| - 1]).value, run[|run| - 1]);
      AccountedKept(Execute(Initial(now), run[..|run| - 1]).value, run[|run| - 1]);
    }
  }

  // ---------- what every interleaving guarantees ----------

  /** At most one loop context is live, and it is the one the runner can cancel. */
  lemma AtMostOneLiveContext(now: int, run: seq<Action>, i: nat, j: nat)
    requires Execute(Initial(now), run).Some?
    requires var s := Execute(Initial(now), run).value;
             i < |s.cancelled| && j < |s.cancelled| && !s.cancelled[i] && !s.cancelled[j]
    ensures i == j && Execute(Initial(now), run).value.loopCancel == Some(i)
  {
    Reachable(now, run);
  }

  /** Each executed nuke used up a different request, no more than the window after it was made. */
  lemma NukesConsumeDistinctArmings(now: int, run: seq<Action>, j: nat, k: nat)
    requires Execute(Initial(now), run).Some?
    requires j < |Execute(Initial(now), run).value.book.executions|
    requires k < |Execute(Initial(now), run).value.book.executions|
    ensures var b := Execute(Initial(now), run).value.book;
            && b.executions[k].0 < |b.armings|
            && 0 <= b.executions[k].1 - b.armings[b.executions[k].0] <= CONFIRM_WINDOW
            && (b.executions[j].0 == b.executions[k].0 ==> j == k)
  {
    Reachable(now, run);
  }

  // ---------- what each operation does ----------

  /** Stopping ends every context there is, and leaves the flags and the requests alone. */
  lemma StopEndsEveryContext(now: int, run: seq<Action>, s: State)
    requires Execute(Initial(now), run) == Some(s) && Enabled(s, Stop)
    ensures var t := Next(s, Stop);
            && (forall i :: 0 <= i < |t.cancelled| ==> t.cancelled[i])
            && t == s.(cancelled := t.cancelled, loopCancel := None) && |t.cancelled| == |s.cancelled|
  {
    Reachable(now, run);
    CancelEndsEveryContext(s);
  }

  lemma CancelEndsEveryContext(s: State)
    requires OneLiveContext(s)
    ensures var t := CancelLoop(s);
            && (forall i :: 0 <= i < |t.cancelled| ==> t.cancelled[i])
            && t == s.(cancelled := t.cancelled, loopCancel := None) && |t.cancelled| == |s.cancelled|
  {
  }

  /**
   Starting creates one live context, with its loop waiting and no orders, exactly when the runner has not halted and no
   earlier start is still to be stopped; otherwise it changes nothing.
   */
  lemma StartMakesOneContext(now: int, run: seq<Action>, s: State)
    requires Execute(Initial(now), run) == Some(s) && Enabled(s, Start)
    ensures var t := Next(s, Start);
            if !s.halted && s.loopCancel == None then
              && t.cancelled == s.cancelled + [false] && t.loops == s.loops + [Waiting]
              && t.entries == s.entries + [0] && t.exits == s.exits + [0]
              && (forall i :: 0 <= i < |s.cancelled| ==> t.cancelled[i]) && t.loopCancel == Some(|s.cancelled|)
              && t.now == s.now && t.paused == s.paused && t.halted == s.halted && t.book == s.book && t.nuke == s.nuke
            else t == s
  {
    Reachable(now, run);
  }

  /** The pause is set by one operation, lifted by another, and nothing else about the runner changes. */
  lemma PauseAndResume(s: State)
    ensures Enabled(s, Pause) <==> s.nuke == NoNuke
    ensures Enabled(s, Resume) <==> s.nuke == NoNuke
    ensures s.nuke == NoNuke ==> Next(s, Pause) == s.(paused := true) && Next(s, Resume) == s.(paused := false)
  {
  }

  /** The time of the last request of a run that no confirmation has followed. */
  ghost function Unanswered(now: int, run: seq<Action>): Option<int> {
    if run == [] then None
    else
      match run[|run| - 1]
      case RequestNuke => Some(TimeAfter(now, run))
      case ConfirmNuke => None
      case _ => Unanswered(now, run[..|run| - 1])
  }

  ghost function TimeAfter(now: int, run: seq<Action>): int {
    if run == [] then now
    else TimeAfter(now, run[..|run| - 1]) + if run[|run| - 1].Elapse? then run[|run| - 1].d else 0
  }

  lemma {:induction false} ArmedIsUnanswered(now: int, run: seq<Action>, s: State)
    requires Execute(Initial(now), run) == Some(s)
    ensures s.now == TimeAfter(now, run) && (s.book.armed <==> Unanswered(now, run).Some?)
    ensures s.book.armed ==> s.book.until == Unanswered(now, run).value + 60
  {
    if run != [] {
      var before, a := run[..|run| - 1], run[|run| - 1];
      var u := Execute(Initial(now), before).value;
      ArmedIsUnanswered(now, before, u);
      ArmedByStep(u, a);
    }
  }

  /** Requests arm, confirmations disarm, and time passes by itself. */
  lemma ArmedByStep(u: State, a: Action)
    requires Enabled(u, a)
    ensures var t := Next(u, a);
            && t.now == u.now + (if a.Elapse? then a.d else 0)
            && t.book.armed == (if a.RequestNuke? then true else if a.ConfirmNuke? then false else u.book.armed)
            && (t.book.armed ==> t.book.until == if a.RequestNuke? then u.now + 60 else u.book.until)
  {
    if OwnStep(a) {
      OwnStepFacts(u, a);
    }
  }

  /**
   A confirmation starts a nuke exactly when there is a request it is the first to follow, made no more than sixty
   seconds ago; either way that request is gone.
   */
  lemma ConfirmedExactlyWhen(now: int, run: seq<Action>, s: State)
    requires Execute(Initial(now), run) == Some(s) && Enabled(s, ConfirmNuke)
    ensures var t, request := Next(s, ConfirmNuke), Unanswered(now, run);
            && (t.nuke == Flattening <==> request.Some? && TimeAfter(now, run) <= request.value + 60)
            && (t.nuke == Flattening || t.nuke == NoNuke) && !t.book.armed
            && t == s.(book := t.book, nuke := t.nuke)
  {
    ArmedIsUnanswered(now, run, s);
  }

  /** A nuke that has run through leaves the runner halted and paused, with every context ended. */
  lemma NukeRunsThrough(now: int, run: seq<Action>, s: State)
    requires Execute(Initial(now), run) == Some(s) && Enabled(s, NukeStep) && Next(s, NukeStep).nuke == NoNuke
    ensures var t := Next(s, NukeStep);
            t.halted && t.paused && t.loopCancel == None && forall i :: 0 <= i < |t.cancelled| ==> t.cancelled[i]
  {
    Reachable(now, run);
  }

  /** It takes five steps: it flattens, then cancels at the venues, then halts, then pauses, then ends the loop. */
  lemma {:induction false} NukeTakesFiveSteps(s: State, more: nat, run: seq<Action>)
    requires s.nuke == Flattening && more <= 5 && run == seq(more, _ => NukeStep)
    ensures Execute(s, run).Some?
    ensures Execute(s, run).value.nuke == [Flattening, CancellingVenues, Halting, Pausing, CancellingLoop, NoNuke][more]
    ensures Execute(s, run).value.halted == (s.halted || more >= 3)
    ensures Execute(s, run).value.paused == (s.paused || more >= 4)
    decreases more
  {
    if more > 0 {
      assert run[..more - 1] == seq(more - 1, _ => NukeStep);
      NukeTakesFiveSteps(s, more - 1, run[..more - 1]);
      NukeStage(Execute(s, run[..more - 1]).value, more - 1);
    }
  }

  lemma NukeStage(u: State, done: nat)
    requires done < 5 && u.nuke == [Flattening, CancellingVenues, Halting, Pausing, CancellingLoop, NoNuke][done]
    ensures var t := AdvanceNuke(u);
            && t.nuke == [Flattening, CancellingVenues, Halting, Pausing, CancellingLoop, NoNuke][done + 1]
            && t.halted == (u.halted || done == 2) && t.paused == (u.paused || done == 3)
  {
  }

  /** A loop that is not inside a tick, nor past a halted check. */
  predicate Outside(pc: Loop) {
    pc in {Waiting, Sweeping, Gone}
  }

  /** A halted runner once its nuke is complete. */
  predicate HaltedForGood(s: State) {
    s.halted && s.nuke == NoNuke
  }

  /** The loop is outside any tick with the given counts, or it has not been created. */
  ghost predicate Quiet(s: State, i: nat, entries: nat, exits: nat) {
    && i < |s.loops| && i < |s.entries| && i < |s.exits|
    && Outside(s.loops[i]) && s.entries[i] == entries && s.exits[i] == exits
  }

  lemma HaltedStepKeepsQuiet(s: State, a: Action, i: nat, entries: nat, exits: nat)
    requires s.halted && Enabled(s, a) && Quiet(s, i, entries, exits)
    ensures Quiet(Next(s, a), i, entries, exits)
  {
    if !OwnStep(a) || a.i != i {
      OthersKeepLoop(s, a, i);
    }
  }

  lemma HaltedStepKeepsContexts(s: State, a: Action)
    requires s.halted && Enabled(s, a)
    ensures Next(s, a).halted && |Next(s, a).cancelled| == |s.cancelled|
    ensures forall k :: 0 <= k < |s.cancelled| && s.cancelled[k] ==> Next(s, a).cancelled[k]
  {
  }

  /** Once the runner has halted: it stays halted, no context is ever created, and a cancelled one stays cancelled. */
  lemma {:induction false} HaltIsForever(s: State, run: seq<Action>)
    requires s.halted && Execute(s, run).Some?
    ensures var t := Execute(s, run).value;
            && t.halted && |t.cancelled| == |s.cancelled|
            && forall k :: 0 <= k < |s.cancelled| && s.cancelled[k] ==> t.cancelled[k]
  {
    if run != [] {
      HaltIsForever(s, run[..|run| - 1]);
      HaltedStepKeepsContexts(Execute(s, run[..|run| - 1]).value, run[|run| - 1]);
    }
  }

  /**
   After a completed nuke no loop context is live, now or after anything that follows, a start or a resume included.
   */
  lemma NoLoopAfterNuke(now: int, before: seq<Action>, after: seq<Action>, k: nat)
    requires Execute(Initial(now), before).Some? && HaltedForGood(Execute(Initial(now), before).value)
    requires Execute(Execute(Initial(now), before).value, after).Some?
    requires k < |Execute(Execute(Initial(now), before).value, after).value.cancelled|
    ensures Execute(Execute(Initial(now), before).value, after).value.cancelled[k]
  {
    Reachable(now, before);
    HaltIsForever(Execute(Initial(now), before).value, after);
  }

  /** Once halted, a loop that is outside any tick never places another order, whatever follows. */
  lemma {:induction false} OutsideLoopsStayQuiet(s: State, run: seq<Action>, i: nat, entries: nat, exits: nat)
    requires s.halted && Execute(s, run).Some? && Quiet(s, i, entries, exits)
    ensures Quiet(Execute(s, run).value, i, entries, exits)
  {
    if run != [] {
      OutsideLoopsStayQuiet(s, run[..|run| - 1], i, entries, exits);
      HaltIsForever(s, run[..|run| - 1]);
      HaltedStepKeepsQuiet(Execute(s, run[..|run| - 1]).value, run[|run| - 1], i, entries, exits);
    }
  }

  /** Entries a loop can still place while the runner is paused: one, if it is already past its pause check. */
  function Pending(s: State, i: nat): nat
    requires i < |s.loops|
  {
    if s.loops[i] == EntryCleared || s.loops[i] == EntryInFlight then 1 else 0
  }

  ghost predicate EntriesBounded(s: State, i: nat, bound: nat) {
    i < |s.loops| && i < |s.entries| && i < |s.exits| && s.entries[i] + Pending(s, i) <= bound
  }

  lemma PausedStepFacts(s: State, a: Action, i: nat, bound: nat)
    requires s.paused && Enabled(s, a) && a != Resume && EntriesBounded(s, i, bound)
    ensures Next(s, a).paused && EntriesBounded(Next(s, a), i, bound)
  {
    if OwnStep(a) && a.i == i {
      OwnStepFacts(s, a);
      PausedOwnStep(s, a, i, bound);
    } else {
      OthersKeepLoop(s, a, i);
    }
  }

  lemma PausedOwnStep(s: State, a: Action, i: nat, bound: nat)
    requires s.paused && Enabled(s, a) && OwnStep(a) && a.i == i && EntriesBounded(s, i, bound)
    ensures EntriesBounded(Next(s, a), i, bound)
  {
  }

  /** While the runner stays paused, each loop places at most the one entry it had already cleared. */
  lemma {:induction false} PauseBoundsEntries(s: State, run: seq<Action>, i: nat, bound: nat)
    requires s.paused && Execute(s, run).Some? && Resume !in run && EntriesBounded(s, i, bound)
    ensures Execute(s, run).value.paused && EntriesBounded(Execute(s, run).value, i, bound)
  {
    if run != [] {
      PauseBoundsEntries(s, run[..|run| - 1], i, bound);
      PausedStepFacts(Execute(s, run[..|run| - 1]).value, run[|run| - 1], i, bound);
    }
  }

  // ---------- orders of a loop whose context has ended ----------

  predicate InFlight(pc: Loop) {
    pc.EntryInFlight? || pc.ExitInFlight?
  }

  /** No more entries and no more exits than these can have landed, unless more are submitted. */
  ghost predicate OrdersBounded(s: State, i: nat, entries: nat, exits: nat) {
    && i < |s.loops| && i < |s.entries| && i < |s.exits|
    && s.entries[i] + (if s.loops[i].EntryInFlight? then 1 else 0) <= entries
    && s.exits[i] + (if s.loops[i].ExitInFlight? then 1 else 0) <= exits
  }

  lemma CancelledStepFacts(s: State, a: Action, i: nat, entries: nat, exits: nat)
    requires Enabled(s, a) && i < |s.cancelled| && s.cancelled[i] && OrdersBounded(s, i, entries, exits)
    ensures i < |Next(s, a).cancelled| && Next(s, a).cancelled[i] && OrdersBounded(Next(s, a), i, entries, exits)
  {
    CancelledStays(s, a, i);
    if OwnStep(a) && a.i == i {
      OwnStepBounds(s, a, i, entries, exits);
    } else {
      OthersKeepLoop(s, a, i);
    }
  }

  /** Without a live context a loop submits nothing; what it does land was in flight. */
  lemma OwnStepBounds(s: State, a: Action, i: nat, entries: nat, exits: nat)
    requires Enabled(s, a) && OwnStep(a) && a.i == i && !Live(s, i) && OrdersBounded(s, i, entries, exits)
    ensures OrdersBounded(Next(s, a), i, entries, exits)
  {
  }

  lemma {:induction false} CancelBoundsOrders(s: State, run: seq<Action>, i: nat, entries: nat, exits: nat)
    requires Execute(s, run).Some? && i < |s.cancelled| && s.cancelled[i] && OrdersBounded(s, i, entries, exits)
    ensures var t := Execute(s, run).value;
            i < |t.cancelled| && t.cancelled[i] && OrdersBounded(t, i, entries, exits)
  {
    if run != [] {
      CancelBoundsOrders(s, run[..|run| - 1], i, entries, exits);
      CancelledStepFacts(Execute(s, run[..|run| - 1]).value, run[|run| - 1], i, entries, exits);
    }
  }

  function OrdersOf(s: State, i: nat): nat
    requires i < |s.entries| && i < |s.exits|
  {
    s.entries[i] + s.exits[i]
  }

  /**
   Once a loop's context has ended, by a stop, a nuke or its parent, at most one more order of that loop lands, the one
   in flight, whatever follows: a resume or another start included.
   */
  lemma AtMostOneOrderAfterCancel(now: int, before: seq<Action>, s: State, after: seq<Action>, t: State, i: nat)
    requires Execute(Initial(now), before) == Some(s) && i < |s.cancelled| && s.cancelled[i]
    requires Execute(s, after) == Some(t)
    ensures i < |s.loops| && i < |s.entries| && i < |s.exits| && i < |t.entries| && i < |t.exits|
    ensures OrdersOf(t, i) <= OrdersOf(s, i) + if InFlight(s.loops[i]) then 1 else 0
    ensures t.entries[i] <= s.entries[i] + if s.loops[i].EntryInFlight? then 1 else 0
    ensures t.exits[i] <= s.exits[i] + if s.loops[i].ExitInFlight? then 1 else 0
  {
    Reachable(now, before);
    var flying := s.loops[i];
    CancelBoundsOrders(s, after, i, s.entries[i] + (if flying.EntryInFlight? then 1 else 0),
                       s.exits[i] + (if flying.ExitInFlight? then 1 else 0));
  }

  /** These actions can follow, and more of the loop's orders have landed by their end. */
  ghost predicate LandsMore(s: State, after: seq<Action>, i: nat) {
    && Execute(s, after).Some?
    && i < |s.entries| && i < |s.exits|
    && i < |Execute(s, after).value.entries| && i < |Execute(s, after).value.exits|
    && OrdersOf(Execute(s, after).value, i) > OrdersOf(s, i)
  }

  /** One more can land exactly when one is in flight at that moment. */
  lemma OrderAfterCancelIff(now: int, before: seq<Action>, s: State, i: nat)
    requires Execute(Initial(now), before) == Some(s) && i < |s.cancelled| && s.cancelled[i]
    ensures i < |s.loops|
    ensures (exists after :: LandsMore(s, after, i)) <==> InFlight(s.loops[i])
  {
    Reachable(now, before);
    if InFlight(s.loops[i]) {
      var a := if s.loops[i].EntryInFlight? then LandEntry(i) else LandExit(i);
      var run, t := Then(s, [], s, a);
      assert LandsMore(s, run, i);
    } else if after :| LandsMore(s, after, i) {
      AtMostOneOrderAfterCancel(now, before, s, after, Execute(s, after).value, i);
    }
  }

  /** A completed nuke ends every context, so both hold of every loop from then on. */
  lemma OrderAfterNukeIff(now: int, before: seq<Action>, s: State, i: nat)
    requires Execute(Initial(now), before) == Some(s) && HaltedForGood(s) && i < |s.loops|
    ensures i < |s.cancelled| && s.cancelled[i]
    ensures (exists after :: LandsMore(s, after, i)) <==> InFlight(s.loops[i])
  {
    Reachable(now, before);
    OrderAfterCancelIff(now, before, s, i);
  }

  /** At position `q` the loop submits an order, under a context that is live. */
  ghost predicate SubmittedAt(s: State, run: seq<Action>, q: nat, i: nat) {
    && q < |run| && (run[q] == SubmitEntry(i) || run[q] == SubmitExit(i))
    && Execute(s, run[..q]).Some? && Live(Execute(s, run[..q]).value, i)
  }

  /**
   Where an order in flight comes from: it was in flight already at an earlier state, or was submitted since then under
   a live context. With the end of the flattening as that state, an order that lands after it was in flight then, or
   was submitted between it and the end of the context.
   */
  lemma {:induction false} LateOrderOrigin(s: State, run: seq<Action>, i: nat)
    requires Execute(s, run).Some? && i < |Execute(s, run).value.loops| && InFlight(Execute(s, run).value.loops[i])
    ensures (i < |s.loops| && InFlight(s.loops[i])) || exists q: nat :: SubmittedAt(s, run, q, i)
  {
    if run != [] {
      var before := run[..|run| - 1];
      var u, a := Execute(s, before).value, run[|run| - 1];
      if i < |u.loops| && InFlight(u.loops[i]) {
        LateOrderOrigin(s, before, i);
        if q: nat :| SubmittedAt(s, before, q, i) {
          SubmittedStays(s, run, q, i);
        }
      } else {
        OnlySubmitsFly(u, a, i);
        assert SubmittedAt(s, run, |run| - 1, i);
      }
    }
  }

  lemma SubmittedStays(s: State, run: seq<Action>, q: nat, i: nat)
    requires run != [] && SubmittedAt(s, run[..|run| - 1], q, i)
    ensures SubmittedAt(s, run, q, i)
  {
    assert run[..|run| - 1][..q] == run[..q];
  }

  lemma OnlySubmitsFly(u: State, a: Action, i: nat)
    requires Enabled(u, a) && i < |Next(u, a).loops| && InFlight(Next(u, a).loops[i])
    requires !(i < |u.loops| && InFlight(u.loops[i]))
    ensures (a == SubmitEntry(i) || a == SubmitExit(i)) && Live(u, i)
  {
    if OwnStep(a) {
      OwnSubmits(u, a, i);
    } else {
      SharedFliesNothing(u, a, i);
    }
  }

  lemma OwnSubmits(u: State, a: Action, i: nat)
    requires Enabled(u, a) && OwnStep(a) && i < |Next(u, a).loops| && InFlight(Next(u, a).loops[i])
    requires !(i < |u.loops| && InFlight(u.loops[i]))
    ensures (a == SubmitEntry(i) || a == SubmitExit(i)) && Live(u, i)
  {
  }

  lemma SharedFliesNothing(u: State, a: Action, i: nat)
    requires Enabled(u, a) && !OwnStep(a) && i < |Next(u, a).loops| && InFlight(Next(u, a).loops[i])
    ensures i < |u.loops| && InFlight(u.loops[i])
  {
  }

  /** One more action on the end of a run. */
  lemma Then(from: State, run: seq<Action>, s: State, a: Action) returns (run': seq<Action>, t: State)
    requires Execute(from, run) == Some(s) && Enabled(s, a)
    ensures run' == run + [a] && t == Next(s, a) && Execute(from, run') == Some(t)
  {
    run', t := run + [a], Next(s, a);
    assert run'[..|run|] == run;
  }

  /** Both happen. An entry submitted before a nuke begins lands after it has flattened everything and halted. */
  lemma EntryAfterNuke(now: int) returns (before: seq<Action>, s: State)
    ensures Execute(Initial(now), before) == Some(s) && HaltedForGood(s) && s.cancelled == [true]
    ensures s.loops == [EntryInFlight] && s.entries == [0] && s.exits == [0]
    ensures Enabled(s, LandEntry(0)) && Next(s, LandEntry(0)).entries == [1]
  {
    before, s := ClearedEntry(now);
    before, s := Then(Initial(now), before, s, SubmitEntry(0));
    before, s := NukeRuns(Initial(now), before, s);
    FlyingLands(s);
  }

  lemma FlyingLands(s: State)
    requires s.loops == [EntryInFlight] && s.entries == [0]
    ensures Enabled(s, LandEntry(0)) && Next(s, LandEntry(0)).entries == [1]
  {
  }

  /**
   And an exit submitted while the nuke is under way, after its flattening, lands then too, and opens the position again
   on the other side.
   */
  lemma ExitAfterNuke(now: int) returns (flattened: seq<Action>, u: State, after: seq<Action>, s: State)
    ensures Execute(Initial(now), flattened) == Some(u) && u.nuke == CancellingVenues && u.loops == [ExitCleared(true)]
    ensures Execute(u, after) == Some(s) && HaltedForGood(s) && s.cancelled == [true]
    ensures s.loops == [ExitInFlight(true)] && s.exits == [0]
    ensures Enabled(s, LandExit(0)) && Next(s, LandExit(0)).exits == [1]
  {
    flattened, u := ClearedExit(now);
    flattened, u := NukeBegins(Initial(now), flattened, u);
    flattened, u := Then(Initial(now), flattened, u, NukeStep);
    after, s := Then(u, [], u, SubmitExit(0));
    after, s := NukeEnds(u, after, s);
    FlyingExitLands(s);
  }

  lemma FlyingExitLands(s: State)
    requires s.loops == [ExitInFlight(true)] && s.exits == [0]
    ensures Enabled(s, LandExit(0)) && Next(s, LandExit(0)).exits == [1]
  {
  }

  /** What a nuke leaves alone. */
  ghost predicate SameOrders(s: State, t: State) {
    t.loops == s.loops && t.entries == s.entries && t.exits == s.exits
  }

  /** A nuke requested, confirmed at once and run through, with one loop and nothing else happening in between. */
  lemma NukeRuns(from: State, run: seq<Action>, s: State) returns (run': seq<Action>, t: State)
    requires Execute(from, run) == Some(s) && s.nuke == NoNuke && s.cancelled == [false] && s.loopCancel == Some(0)
    ensures Execute(from, run') == Some(t) && HaltedForGood(t) && t.cancelled == [true] && SameOrders(s, t)
  {
    run', t := NukeBegins(from, run, s);
    run', t := Then(from, run', t, NukeStep);
    run', t := NukeEnds(from, run', t);
  }

  lemma NukeBegins(from: State, run: seq<Action>, s: State) returns (run': seq<Action>, t: State)
    requires Execute(from, run) == Some(s) && s.nuke == NoNuke
    ensures Execute(from, run') == Some(t) && t.nuke == Flattening && SameOrders(s, t)
    ensures t.cancelled == s.cancelled && t.loopCancel == s.loopCancel
  {
    run', t := Then(from, run, s, RequestNuke);
    run', t := Then(from, run', t, ConfirmNuke);
  }

  /** The stages after the flattening. */
  lemma NukeEnds(from: State, run: seq<Action>, s: State) returns (run': seq<Action>, t: State)
    requires Execute(from, run) == Some(s) && s.nuke == CancellingVenues
    requires s.cancelled == [false] && s.loopCancel == Some(0)
    ensures Execute(from, run') == Some(t) && HaltedForGood(t) && t.cancelled == [true] && SameOrders(s, t)
  {
    run', t := NukeHalts(from, run, s);
    run', t := Then(from, run', t, NukeStep);
    run', t := Then(from, run', t, NukeStep);
  }

  lemma NukeHalts(from: State, run: seq<Action>, s: State) returns (run': seq<Action>, t: State)
    requires Execute(from, run) == Some(s) && s.nuke == CancellingVenues
    ensures Execute(from, run') == Some(t) && t.halted && t.nuke == Pausing && SameOrders(s, t)
    ensures t.cancelled == s.cancelled && t.loopCancel == s.loopCancel
  {
    run', t := Then(from, run, s, NukeStep);
    run', t := Then(from, run', t, NukeStep);
  }

  lemma SweepEntered(now: int) returns (run: seq<Action>, s: State)
    ensures Execute(Initial(now), run) == Some(s)
    ensures s.nuke == NoNuke && !s.halted && !s.paused && s.cancelled == [false] && s.loopCancel == Some(0)
    ensures s.loops == [Sweeping] && s.entries == [0] && s.exits == [0]
  {
    run, s := Then(Initial(now), [], Initial(now), Start);
    run, s := Then(Initial(now), run, s, TakeTick(0));
  }

  lemma TickEntered(now: int) returns (run: seq<Action>, s: State)
    ensures Execute(Initial(now), run) == Some(s)
    ensures s.nuke == NoNuke && !s.halted && !s.paused && s.cancelled == [false] && s.loopCancel == Some(0)
    ensures s.loops == [InTick] && s.entries == [0] && s.exits == [0]
  {
    run, s := SweepEntered(now);
    run, s := Then(Initial(now), run, s, EnterTick(0));
    run, s := Then(Initial(now), run, s, GetBook(0));
  }

  lemma ClearedEntry(now: int) returns (run: seq<Action>, s: State)
    ensures Execute(Initial(now), run) == Some(s)
    ensures s.nuke == NoNuke && s.cancelled == [false] && s.loopCancel == Some(0)
    ensures s.loops == [EntryCleared] && s.entries == [0] && s.exits == [0]
  {
    run, s := TickEntered(now);
    run, s := Then(Initial(now), run, s, CheckSignal(0));
  }

  lemma ClearedExit(now: int) returns (run: seq<Action>, s: State)
    ensures Execute(Initial(now), run) == Some(s)
    ensures s.nuke == NoNuke && s.cancelled == [false] && s.loopCancel == Some(0)
    ensures s.loops == [ExitCleared(true)] && s.entries == [0] && s.exits == [0]
  {
    run, s := TickEntered(now);
    run, s := Then(Initial(now), run, s, CheckExit(0));
  }
}
