/**
 * The cached graph counts behind the health endpoint: a TTL, one shared recompute at a time, and
 * the stale value when that recompute fails. Callers, the recompute's queries and the clock
 * interleave at every step.
 */
module HealthCache {
  import opened Wrappers

  /** Nanoseconds. */
  const STATS_TTL := 5_000_000_000

  /** A count remembers which recompute asked the database for it. */
  datatype Count = Count(value: int, flight: nat)
  datatype Stats = Stats(nodes: Count, edges: Count)
  datatype Cached = Cached(stats: Stats, at: int)

  /** `settledAt` is when the shared call had its answer; None is an error. */
  datatype Phase =
    | Entered
    | CountingNodes
    | CountingEdges(nodes: Count)
    | Publishing(stats: Stats)
    | Settled(answer: Option<Cached>, settledAt: int)

  datatype Flight = Flight(id: nat, phase: Phase)

  datatype Pc =
    | Idle
    | Missed(seen: Option<Cached>, readAt: int)
    | Waiting(flight: nat, seen: Option<Cached>, readAt: int)
    | Hit(answer: Cached, readAt: int)
    | Shared(answer: Cached, readAt: int, settledAt: int)
    | StaleOnError(answer: Cached, readAt: int)
    | Error

  datatype Happening = Started(at: int) | Published(at: int)

  datatype Sys = Sys(now: int, cache: Option<Cached>, flights: nat, flight: Option<Flight>, callers: seq<Pc>,
                     log: seq<Happening>)

  datatype Event =
    | Tick(elapsed: nat)
    | Read(c: nat)
    | Join(c: nat)
    | Recheck
    | NodeCount(answer: Option<int>)
    | EdgeCount(answer: Option<int>)
    | Publish
    | Finish

  predicate IsFresh(c: Option<Cached>, now: int) {
    c.Some? && now - c.value.at < STATS_TTL
  }

  predicate InPhase(s: Sys, e: Event) {
    s.flight.Some? &&
    match e
    case Recheck => s.flight.value.phase == Entered
    case NodeCount(_) => s.flight.value.phase == CountingNodes
    case EdgeCount(_) => s.flight.value.phase.CountingEdges?
    case Publish => s.flight.value.phase.Publishing?
    case Finish => s.flight.value.phase.Settled?
    case _ => false
  }

  predicate Allowed(s: Sys, e: Event) {
    match e
    case Tick(_) => true
    case Read(c) => c < |s.callers| && s.callers[c] == Idle
    case Join(c) => c < |s.callers| && s.callers[c].Missed?
    case _ => InPhase(s, e)
  }

  function Deliver(pc: Pc, f: Flight): Pc
    requires f.phase.Settled?
  {
    if !pc.Waiting? || pc.flight != f.id then pc
    else match f.phase.answer
      case Some(v) => Shared(v, pc.readAt, f.phase.settledAt)
      case None => if pc.seen.Some? then StaleOnError(pc.seen.value, pc.readAt) else Error
  }

  function Enter(s: Sys, phase: Phase): Sys
    requires s.flight.Some?
  {
    s.(flight := Some(s.flight.value.(phase := phase)))
  }

  function Apply(s: Sys, e: Event): Sys
    requires Allowed(s, e)
  {
    match e
    case Tick(elapsed) => s.(now := s.now + elapsed)
    case Read(c) =>
      var pc := if IsFresh(s.cache, s.now) then Hit(s.cache.value, s.now) else Missed(s.cache, s.now);
      s.(callers := s.callers[c := pc])
    case Join(c) =>
      var pc := s.callers[c];
      var id := if s.flight.Some? then s.flight.value.id else s.flights;
      var joined := s.(callers := s.callers[c := Waiting(id, pc.seen, pc.readAt)]);
      if s.flight.Some? then joined else joined.(flight := Some(Flight(id, Entered)), flights := s.flights + 1)
    case Recheck =>
      if IsFresh(s.cache, s.now) then Enter(s, Settled(s.cache, s.now))
      else Enter(s, CountingNodes).(log := s.log + [Started(s.now)])
    case NodeCount(answer) =>
      if answer.Some? then Enter(s, CountingEdges(Count(answer.value, s.flight.value.id))) else Enter(s,
                                 Settled(None, s.now))
    case EdgeCount(answer) =>
      if answer.Some? then Enter(s,
                                 Publishing(Stats(s.flight.value.phase.nodes, Count(answer.value, s.flight.value.id))))
      else Enter(s, Settled(None, s.now))
    case Publish =>
      var v := Cached(s.flight.value.phase.stats, s.now);
      Enter(s, Settled(Some(v), s.now)).(cache := Some(v), log := s.log + [Published(s.now)])
    case Finish =>
      s.(flight := None,
         callers := seq(|s.callers|, c requires 0 <= c < |s.callers| => Deliver(s.callers[c], s.flight.value)))
  }

  // ---- Invariant

  predicate OneRecompute(v: Cached) {
    v.stats.nodes.flight == v.stats.edges.flight
  }

  predicate Sound(v: Option<Cached>, now: int) {
    v.Some? ==> OneRecompute(v.value) && v.value.at <= now
  }

  /** A recompute that has started sees an expired cache until it publishes, and for good if it fails. */
  predicate FlightInv(s: Sys) {
    s.flight.Some? ==>
      var f := s.flight.value;
      && f.id < s.flights
      && (f.phase.CountingNodes? || f.phase.CountingEdges? || f.phase.Publishing? ==> !IsFresh(s.cache, s.now))
      && (f.phase.Settled? ==> if f.phase.answer.Some? then s.cache == f.phase.answer else !IsFresh(s.cache, s.now))
      && (f.phase.CountingEdges? ==> f.phase.nodes.flight == f.id)
      && (f.phase.Publishing? ==> f.phase.stats.nodes.flight == f.phase.stats.edges.flight)
      && (f.phase.Settled? ==> Sound(f.phase.answer, s.now) && f.phase.settledAt <= s.now)
      && (f.phase.Settled? && f.phase.answer.Some? ==>
             f.phase.answer.value.at <= f.phase.settledAt < f.phase.answer.value.at + STATS_TTL)
  }

  /** Whoever missed the cache after the shared call had its answer saw that answer past its TTL. */
  predicate MissedTheAnswer(s: Sys, readAt: int) {
    s.flight.Some? && s.flight.value.phase.Settled? && s.flight.value.phase.answer.Some? ==>
      s.flight.value.phase.settledAt < readAt ==> s.flight.value.phase.answer.value.at + STATS_TTL <= readAt
  }

  predicate LookedAndMissed(s: Sys, seen: Option<Cached>, readAt: int) {
    Sound(seen, s.now) && readAt <= s.now && !IsFresh(seen, readAt) && MissedTheAnswer(s, readAt)
  }

  predicate CallerInv(s: Sys, pc: Pc) {
    match pc
    case Idle => true
    case Missed(seen, readAt) => LookedAndMissed(s, seen, readAt)
    case Waiting(id, seen, readAt) => LookedAndMissed(s, seen, readAt) && s.flight.Some? && id == s.flight.value.id
    case Hit(v, readAt) => OneRecompute(v) && IsFresh(Some(v), readAt)
    case Shared(v, readAt, settledAt) =>
      OneRecompute(v) && v.at <= settledAt < v.at + STATS_TTL && (settledAt < readAt <==> v.at + STATS_TTL <= readAt)
    case StaleOnError(v, readAt) => OneRecompute(v) && !IsFresh(Some(v), readAt)
    case Error => true
  }

  /** No recompute starts within the TTL of an earlier publication. */
  predicate Spaced(log: seq<Happening>) {
    forall i, j | 0 <= i < j < |log| && log[i].Published? && log[j].Started? :: log[i].at + STATS_TTL <= log[j].at
  }

  predicate LogInv(log: seq<Happening>, cache: Option<Cached>, now: int) {
    && Spaced(log)
    && (forall i | 0 <= i < |log| :: log[i].at <= now)
    && (forall i | 0 <= i < |log| && log[i].Published? :: cache.Some? && log[i].at <= cache.value.at)
  }

  predicate InTimeOrder(log: seq<Happening>) {
    forall i, j | 0 <= i < j < |log| :: log[i].at <= log[j].at
  }

  predicate Inv(s: Sys) {
    && Sound(s.cache, s.now) && FlightInv(s) && LogInv(s.log, s.cache, s.now) && InTimeOrder(s.log)
    && forall c | 0 <= c < |s.callers| :: CallerInv(s, s.callers[c])
  }

  lemma StepKeepsFlight(s: Sys, e: Event)
    requires Inv(s) && Allowed(s, e)
    ensures Sound(Apply(s, e).cache, Apply(s, e).now) && FlightInv(Apply(s, e))
  {
  }

  lemma StepKeepsLog(s: Sys, e: Event)
    requires Inv(s) && Allowed(s, e)
    ensures LogInv(Apply(s, e).log, Apply(s, e).cache, Apply(s, e).now) && InTimeOrder(Apply(s, e).log)
  {
    var s' := Apply(s, e);
    if e.Recheck? && !IsFresh(s.cache, s.now) {
      Append(s.log, s.cache, s.cache, s.now, Started(s.now));
    } else if e.Publish? {
      Append(s.log, s.cache, s'.cache, s.now, Published(s.now));
    } else {
      assert s'.log == s.log && s'.cache == s.cache && s'.now >= s.now;
    }
  }

  lemma Append(log: seq<Happening>, cache: Option<Cached>, cache': Option<Cached>, now: int, h: Happening)
    requires LogInv(log, cache, now) && InTimeOrder(log) && Sound(cache, now) && h.at == now
    requires h.Started? ==> cache' == cache && !IsFresh(cache, now)
    requires h.Published? ==> cache'.Some? && cache'.value.at == now
    ensures LogInv(log + [h], cache', now) && InTimeOrder(log + [h])
  {
  }

  lemma StepKeepsInv(s: Sys, e: Event)
    requires Inv(s) && Allowed(s, e)
    ensures Inv(Apply(s, e))
  {
    var s' := Apply(s, e);
    StepKeepsFlight(s, e);
    StepKeepsLog(s, e);
    forall c | 0 <= c < |s'.callers| ensures CallerInv(s', s'.callers[c]) {
      StepKeepsCaller(s, e, c);
    }
  }

  lemma DeliverKeepsCaller(s: Sys, pc: Pc)
    requires FlightInv(s) && InPhase(s, Finish) && CallerInv(s, pc)
    ensures CallerInv(Apply(s, Finish), Deliver(pc, s.flight.value))
  {
  }

  lemma LookKeepsCaller(s: Sys, c: nat)
    requires Sound(s.cache, s.now) && FlightInv(s) && Allowed(s, Read(c))
    ensures CallerInv(Apply(s, Read(c)), Apply(s, Read(c)).callers[c])
  {
  }

  lemma JoinKeepsCaller(s: Sys, c: nat)
    requires FlightInv(s) && Allowed(s, Join(c)) && CallerInv(s, s.callers[c])
    ensures CallerInv(Apply(s, Join(c)), Apply(s, Join(c)).callers[c])
  {
  }

  lemma OthersKeepCaller(s: Sys, e: Event, pc: Pc)
    requires FlightInv(s) && Allowed(s, e) && !e.Finish? && CallerInv(s, pc)
    ensures CallerInv(Apply(s, e), pc)
  {
  }

  lemma StepKeepsCaller(s: Sys, e: Event, c: nat)
    requires Inv(s) && Allowed(s, e) && c < |s.callers|
    ensures CallerInv(Apply(s, e), Apply(s, e).callers[c])
  {
    assert CallerInv(s, s.callers[c]);
    if e.Finish? {
      DeliverKeepsCaller(s, s.callers[c]);
    } else if e == Read(c) {
      LookKeepsCaller(s, c);
    } else if e == Join(c) {
      JoinKeepsCaller(s, c);
    } else {
      OthersKeepCaller(s, e, s.callers[c]);
    }
  }
}
