/**
 The per-venue rate-limiter cache (internal/execution/router.go, lines 35-88): a map behind a read-write lock, looked up
 under the read lock and, on a miss, looked up again and filled under the write lock. Callers run as interleaved steps;
 normalising a venue name is an arbitrary function.
 */
module LimiterCache {
  import opened Types
  import opened VenueRouting

  datatype Config = Config(norm: string -> string, defaultRPS: real, burst: int, venueRPS: map<string, real>) {
    function Key(raw: string): string {
      Normalised(raw, norm)
    }

    function RPS(venue: string): real {
      if venue in venueRPS && venueRPS[venue] > 0.0 then venueRPS[venue] else defaultRPS
    }

    /** The configured burst, or the rate rounded down but at least one. */
    function Burst(venue: string): int {
      if burst > 0 then burst else if RPS(venue).Floor < 1 then 1 else RPS(venue).Floor
    }
  }

  /** A limiter object: its identity and what it was created with. */
  datatype Limiter = Limiter(id: nat, rps: real, burst: int)

  datatype PC =
    | Start
    | Reading
    | Read(found: Option<Limiter>)
    | Missed
    | Writing
    | Filled(l: Limiter)
    | Done(l: Limiter)

  datatype State = State(
    callers: seq<PC>,
    limiters: map<string, Limiter>,
    created: nat,
    readers: set<nat>,
    writer: Option<nat>
  )

  datatype Action = RLock(k: nat) | Lookup(k: nat) | RUnlock(k: nat) | WLock(k: nat) | Fill(k: nat) | WUnlock(k: nat)

  function Initial(n: nat): State {
    State(seq(n, _ => Start), map[], 0, {}, None)
  }

  predicate Enabled(s: State, a: Action) {
    && a.k < |s.callers|
    && match a
       case RLock(k) => s.callers[k].Start? && s.writer == None
       case Lookup(k) => s.callers[k].Reading?
       case RUnlock(k) => s.callers[k].Read?
       case WLock(k) => s.callers[k].Missed? && s.writer == None && s.readers == {}
       case Fill(k) => s.callers[k].Writing?
       case WUnlock(k) => s.callers[k].Filled?
  }

  /** `raw[k]` is the venue name caller `k` asked for. */
  function Next(c: Config, raw: seq<string>, s: State, a: Action): State
    requires |raw| == |s.callers| && Enabled(s, a)
  {
    var key := c.Key(raw[a.k]);
    match a
    case RLock(k) => s.(callers := s.callers[k := Reading], readers := s.readers + {k})
    case Lookup(k) =>
      s.(callers := s.callers[k := Read(if key in s.limiters then Some(s.limiters[key]) else None)])
    case RUnlock(k) =>
      var pc := match s.callers[k].found case Some(l) => Done(l) case None => Missed;
      s.(callers := s.callers[k := pc], readers := s.readers - {k})
    case WLock(k) => s.(callers := s.callers[k := Writing], writer := Some(k))
    case Fill(k) =>
      if key in s.limiters then s.(callers := s.callers[k := Filled(s.limiters[key])])
      else
        var l := Limiter(s.created, c.RPS(key), c.Burst(key));
        s.(callers := s.callers[k := Filled(l)], limiters := s.limiters[key := l], created := s.created + 1)
    case WUnlock(k) => s.(callers := s.callers[k := Done(s.callers[k].l)], writer := None)
  }

  function Execute(c: Config, raw: seq<string>, run: seq<Action>): (r: Option<State>)
    ensures r.Some? ==> |r.value.callers| == |raw|
  {
    if run == [] then Some(Initial(|raw|))
    else
      match Execute(c, raw, run[..|run| - 1])
      case None => None
      case Some(s) => if Enabled(s, run[|run| - 1]) then Some(Next(c, raw, s, run[|run| - 1])) else None
  }

  /** The limiter a caller has in hand, if any. */
  function InHand(pc: PC): Option<Limiter> {
    match pc
    case Read(found) => found
    case Filled(l) => Some(l)
    case Done(l) => Some(l)
    case _ => None
  }

  ghost predicate Locks(s: State) {
    && (forall k :: 0 <= k < |s.callers| ==> (k in s.readers <==> s.callers[k].Reading? || s.callers[k].Read?))
    && (forall k :: k in s.readers ==> k < |s.callers|)
    && (forall k :: 0 <= k < |s.callers| ==> (s.writer == Some(k) <==> s.callers[k].Writing? || s.callers[k].Filled?))
    && (s.writer.Some? ==> s.writer.value < |s.callers| && s.readers == {})
  }

  /** One limiter per key, each with an identity of its own. */
  ghost predicate Identities(s: State) {
    && s.created == |s.limiters|
    && (forall v :: v in s.limiters ==> s.limiters[v].id < s.created)
    && (forall u, v :: u in s.limiters && v in s.limiters && u != v ==> s.limiters[u].id != s.limiters[v].id)
  }

  /** Each with its key's settings. */
  ghost predicate Settings(c: Config, s: State) {
    forall v :: v in s.limiters ==> s.limiters[v].rps == c.RPS(v) && s.limiters[v].burst == c.Burst(v)
  }

  /** Every limiter in hand is the cached one. */
  ghost predicate Hands(c: Config, raw: seq<string>, s: State) {
    && |raw| == |s.callers|
    && forall k :: 0 <= k < |raw| && InHand(s.callers[k]).Some? ==>
         c.Key(raw[k]) in s.limiters && s.limiters[c.Key(raw[k])] == InHand(s.callers[k]).value
  }

  ghost predicate Cached(c: Config, raw: seq<string>, s: State) {
    Identities(s) && Settings(c, s) && Hands(c, raw, s)
  }

  lemma LocksKept(c: Config, raw: seq<string>, s: State, a: Action)
    requires |raw| == |s.callers| && Locks(s) && Enabled(s, a)
    ensures Locks(Next(c, raw, s, a))
  {
  }

  lemma IdentitiesKept(c: Config, raw: seq<string>, s: State, a: Action)
    requires |raw| == |s.callers| && Identities(s) && Enabled(s, a)
    ensures Identities(Next(c, raw, s, a))
  {
    var t := Next(c, raw, s, a);
    if t.limiters != s.limiters {
      assert t.limiters.Keys == s.limiters.Keys + {c.Key(raw[a.k])};
    }
  }

  lemma SettingsKept(c: Config, raw: seq<string>, s: State, a: Action)
    requires |raw| == |s.callers| && Settings(c, s) && Enabled(s, a)
    ensures Settings(c, Next(c, raw, s, a))
  {
  }

  lemma HandsKept(c: Config, raw: seq<string>, s: State, a: Action)
    requires Hands(c, raw, s) && Enabled(s, a)
    ensures Hands(c, raw, Next(c, raw, s, a))
  {
  }

  lemma {:induction false} Reachable(c: Config, raw: seq<string>, run: seq<Action>)
    requires Execute(c, raw, run).Some?
    ensures Locks(Execute(c, raw, run).value) && Cached(c, raw, Execute(c, raw, run).value)
  {
    if run != [] {
      Reachable(c, raw, run[..|run| - 1]);
      LocksKept(c, raw, Execute(c, raw, run[..|run| - 1]).value, run[|run| - 1]);
      IdentitiesKept(c, raw, Execute(c, raw, run[..|run| - 1]).value, run[|run| - 1]);
      SettingsKept(c, raw, Execute(c, raw, run[..|run| - 1]).value, run[|run| - 1]);
      HandsKept(c, raw, Execute(c, raw, run[..|run| - 1]).value, run[|run| - 1]);
    }
  }

  /**
   In every interleaving, two callers that have returned hold the same limiter exactly when their venues normalise
   alike.
   */
  lemma SameVenueSameLimiter(c: Config, raw: seq<string>, run: seq<Action>, j: nat, k: nat)
    requires Execute(c, raw, run).Some? && j < |raw| && k < |raw|
    requires Execute(c, raw, run).value.callers[j].Done? && Execute(c, raw, run).value.callers[k].Done?
    ensures var s := Execute(c, raw, run).value;
            s.callers[j].l == s.callers[k].l <==> c.Key(raw[j]) == c.Key(raw[k])
  {
    Reachable(c, raw, run);
  }

  /** As many limiters are ever created as there are distinct venues cached, each with its venue's rate and burst. */
  lemma OneLimiterPerVenue(c: Config, raw: seq<string>, run: seq<Action>, k: nat)
    requires Execute(c, raw, run).Some? && k < |raw| && Execute(c, raw, run).value.callers[k].Done?
    ensures var s := Execute(c, raw, run).value;
            && s.created == |s.limiters|
            && s.callers[k].l == Limiter(s.callers[k].l.id, c.RPS(c.Key(raw[k])), c.Burst(c.Key(raw[k])))
  {
    Reachable(c, raw, run);
  }

  /** The lock excludes a writer while anyone reads. */
  lemma WriterExcludesReaders(c: Config, raw: seq<string>, run: seq<Action>, j: nat, k: nat)
    requires Execute(c, raw, run).Some? && j < |raw| && k < |raw|
    requires Execute(c, raw, run).value.callers[j].Writing? || Execute(c, raw, run).value.callers[j].Filled?
    ensures var pc := Execute(c, raw, run).value.callers[k];
            !pc.Reading? && !pc.Read? && (pc.Writing? || pc.Filled? ==> j == k)
  {
    Reachable(c, raw, run);
  }

  /** While some caller has not returned, some step is possible. */
  lemma NoDeadlock(c: Config, raw: seq<string>, run: seq<Action>, j: nat) returns (a: Action)
    requires Execute(c, raw, run).Some? && j < |raw| && !Execute(c, raw, run).value.callers[j].Done?
    ensures Enabled(Execute(c, raw, run).value, a)
  {
    Reachable(c, raw, run);
    var s := Execute(c, raw, run).value;
    if s.writer.Some? {
      return if s.callers[s.writer.value].Writing? then Fill(s.writer.value) else WUnlock(s.writer.value);
    } else if k :| k in s.readers {
      return if s.callers[k].Reading? then Lookup(k) else RUnlock(k);
    } else {
      return if s.callers[j].Start? then RLock(j) else WLock(j);
    }
  }

  /** The venue's own positive rate, or the default. */
  ghost predicate RateOf(c: Config, venue: string, rate: real) {
    if venue in c.venueRPS && c.venueRPS[venue] > 0.0 then rate == c.venueRPS[venue] else rate == c.defaultRPS
  }

  /** The limiter a caller gets allows its venue's rate, and the configured burst or the whole requests of a second. */
  lemma LimiterSettings(c: Config, raw: seq<string>, run: seq<Action>, k: nat, venue: string, rate: real)
    requires Execute(c, raw, run).Some? && k < |raw| && Execute(c, raw, run).value.callers[k].Done?
    requires Names(c.norm(raw[k]), venue) && RateOf(c, venue, rate)
    ensures var l := Execute(c, raw, run).value.callers[k].l;
            && l.rps == rate
            && (c.burst > 0 ==> l.burst == c.burst)
            && (c.burst <= 0 && rate < 1.0 ==> l.burst == 1)
            && (c.burst <= 0 && rate >= 1.0 ==> l.burst as real <= rate < (l.burst + 1) as real)
  {
    OneLimiterPerVenue(c, raw, run, k);
  }
}
