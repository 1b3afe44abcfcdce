/** Whole runs of the statistics cache: what callers are and are not promised. */
module HealthRuns {
  import opened Wrappers
  import opened HealthCache

  predicate Initial(s: Sys) {
    s.cache == None && s.flight == None && s.log == [] && forall c | 0 <= c < |s.callers| :: s.callers[c] == Idle
  }

  ghost predicate Run(trace: seq<Sys>, events: seq<Event>) {
    && |trace| == |events| + 1 && Initial(trace[0])
    && (forall i | 0 <= i < |events| :: Allowed(trace[i], events[i]) && trace[i + 1] == Apply(trace[i], events[i]))
  }

  lemma {:induction false} RunKeepsInv(trace: seq<Sys>, events: seq<Event>, i: nat)
    requires Run(trace, events) && i < |trace|
    ensures Inv(trace[i])
  {
    if i > 0 {
      RunKeepsInv(trace, events, i - 1);
      StepKeepsInv(trace[i - 1], events[i - 1]);
    }
  }

  // ---- What callers get

  predicate Answered(pc: Pc) {
    pc.Hit? || pc.Shared? || pc.StaleOnError?
  }

  /** Every answered pair was counted by one recompute, however callers and recomputes interleave. */
  lemma PairsAreNeverMixed(trace: seq<Sys>, events: seq<Event>, i: nat, c: nat)
    requires Run(trace, events) && i < |trace| && c < |trace[i].callers| && Answered(trace[i].callers[c])
    ensures OneRecompute(trace[i].callers[c].answer)
  {
    RunKeepsInv(trace, events, i);
    assert CallerInv(trace[i], trace[i].callers[c]);
  }

  predicate Stale(pc: Pc)
    requires Answered(pc)
  {
    pc.readAt - pc.answer.at >= STATS_TTL
  }

  /**
   * A caller is served a value that was past its TTL when it looked exactly when its shared call
   * failed, or had its answer before the caller looked.
   */
  lemma StaleIffFailedOrSettled(trace: seq<Sys>, events: seq<Event>, i: nat, c: nat)
    requires Run(trace, events) && i < |trace| && c < |trace[i].callers| && Answered(trace[i].callers[c])
    ensures var pc := trace[i].callers[c]; Stale(pc) <==> pc.StaleOnError? || (pc.Shared? && pc.settledAt < pc.readAt)
    ensures var pc := trace[i].callers[c]; pc.Shared? ==> pc.answer.at <= pc.settledAt < pc.answer.at + STATS_TTL
  {
    RunKeepsInv(trace, events, i);
    assert CallerInv(trace[i], trace[i].callers[c]);
  }

  /** No recompute starts within the TTL of a publication. */
  lemma RecomputesAreSpaced(trace: seq<Sys>, events: seq<Event>, i: nat, a: nat, b: nat)
    requires Run(trace, events) && i < |trace| && a < b < |trace[i].log|
    requires trace[i].log[a].Published? && trace[i].log[b].Started?
    ensures trace[i].log[b].at - trace[i].log[a].at >= 5_000_000_000
  {
    RunKeepsInv(trace, events, i);
  }

  // ---- When recomputes come closer than the TTL

  predicate Fails(e: Event) {
    e == NodeCount(None) || e == EdgeCount(None)
  }

  predicate Working(s: Sys) {
    && s.flight.Some?
    && (s.flight.value.phase.CountingNodes? || s.flight.value.phase.CountingEdges? || s.flight.value.phase.Publishing?)
  }

  /** Event `p` is the failed count of the recompute begun by log entry `a`. */
  ghost predicate FailsRecompute(trace: seq<Sys>, events: seq<Event>, p: nat, a: nat) {
    p < |events| && p < |trace| && Fails(events[p]) && |trace[p].log| == a + 1
  }

  ghost predicate Failed(trace: seq<Sys>, events: seq<Event>, i: nat, a: nat) {
    exists p | 0 <= p < i :: FailsRecompute(trace, events, p, a)
  }

  /** A recompute that has begun is still at work, or published next, or failed. */
  ghost predicate FateAt(trace: seq<Sys>, events: seq<Event>, i: nat, a: nat)
    requires i < |trace|
  {
    var log := trace[i].log;
    a < |log| && log[a].Started? ==>
      || (a + 1 == |log| && Working(trace[i]))
      || (a + 1 < |log| && log[a + 1].Published?)
      || Failed(trace, events, i, a)
  }

  lemma {:induction false} EveryRecomputeEnds(trace: seq<Sys>, events: seq<Event>, i: nat, a: nat)
    requires Run(trace, events) && i < |trace|
    ensures FateAt(trace, events, i, a)
  {
    if i > 0 {
      var s, e := trace[i - 1], events[i - 1];
      assert Allowed(s, e) && trace[i] == Apply(s, e);
      EveryRecomputeEnds(trace, events, i - 1, a);
      if Failed(trace, events, i - 1, a) {
        var p :| 0 <= p < i - 1 && FailsRecompute(trace, events, p, a);
        assert Failed(trace, events, i, a);
      } else if a + 1 == |s.log| && Fails(e) {
        assert FailsRecompute(trace, events, i - 1, a);
      }
    }
  }

  /** Two recomputes start within one TTL only if a count of the first one failed. */
  lemma CloseStartsMeanFailure(trace: seq<Sys>, events: seq<Event>, i: nat, a: nat, b: nat)
    requires Run(trace, events) && i < |trace| && a < b < |trace[i].log|
    requires trace[i].log[a].Started? && trace[i].log[b].Started? && trace[i].log[b].at - trace[i].log[a].at < STATS_TTL
    ensures exists p | 0 <= p < i :: FailsRecompute(trace, events, p, a)
  {
    RunKeepsInv(trace, events, i);
    EveryRecomputeEnds(trace, events, i, a);
  }

  /** So while no count fails, recomputes start at most once per TTL. */
  lemma SuccessesAreSpaced(trace: seq<Sys>, events: seq<Event>, i: nat, a: nat, b: nat)
    requires Run(trace, events) && i < |trace| && forall e | e in events :: !Fails(e)
    requires a < b < |trace[i].log| && trace[i].log[a].Started? && trace[i].log[b].Started?
    ensures trace[i].log[b].at - trace[i].log[a].at >= 5_000_000_000
  {
    if trace[i].log[b].at - trace[i].log[a].at < STATS_TTL {
      CloseStartsMeanFailure(trace, events, i, a, b);
    }
  }

  /**
   * And once a count has failed, in whatever state the run is then, the next caller starts another
   * recompute at the same instant.
   */
  lemma FailureIsRetriedAtOnce(trace: seq<Sys>, events: seq<Event>, c: nat)
      returns (trace': seq<Sys>, events': seq<Event>)
    requires Run(trace, events)
    requires var s := trace[|events|];
      InPhase(s, Finish) && s.flight.value.phase.answer.None? && c < |s.callers| && s.callers[c] == Idle
    ensures Run(trace', events') && |trace'| > |trace| && trace'[..|trace|] == trace
    ensures events' == events + [Finish, Read(c), Join(c), Recheck]
    ensures var s, s' := trace[|events|], trace'[|events'|]; s'.now == s.now && s'.log == s.log + [Started(s.now)]
  {
    var s := trace[|events|];
    RunKeepsInv(trace, events, |events|);
    var s1 := Apply(s, Finish);
    var s2 := Apply(s1, Read(c));
    assert s2.callers[c] == Missed(s.cache, s.now);
    var s3 := Apply(s2, Join(c));
    trace', events' := Extend(trace, events, Finish, s1);
    trace', events' := Extend(trace', events', Read(c), s2);
    trace', events' := Extend(trace', events', Join(c), s3);
    trace', events' := Extend(trace', events', Recheck, Apply(s3, Recheck));
  }

  /** Had the call succeeded, that caller would have been served its answer instead. */
  lemma SuccessIsServed(trace: seq<Sys>, events: seq<Event>, c: nat)
    requires Run(trace, events)
    requires var s := trace[|events|];
      InPhase(s, Finish) && IsFresh(s.flight.value.phase.answer, s.now) && c < |s.callers| && s.callers[c] == Idle
    ensures var s := trace[|events|];
      Apply(Apply(s, Finish), Read(c)).callers[c] == Hit(s.flight.value.phase.answer.value, s.now)
  {
    RunKeepsInv(trace, events, |events|);
  }

  // ---- Two runs

  lemma Extend(trace: seq<Sys>, events: seq<Event>, e: Event, next: Sys) returns (trace': seq<Sys>, events': seq<Event>)
    requires Run(trace, events) && Allowed(trace[|events|], e) && Apply(trace[|events|], e) == next
    ensures trace' == trace + [next] && events' == events + [e] && Run(trace', events')
  {
    trace', events' := trace + [next], events + [e];
  }

  lemma Begin() returns (trace: seq<Sys>, events: seq<Event>)
    ensures Run(trace, events) && events == [] && trace == [Sys(0, None, 0, None, [Idle, Idle], [])]
  {
    trace, events := [Sys(0, None, 0, None, [Idle, Idle], [])], [];
  }

  /**
   * The TTL alone is not a promise to the caller: with no failure at all, a caller that looks after
   * the shared call has published, and a TTL later, joins it and is served the old value.
   */
  lemma LateJoinerIsServedStale() returns (trace: seq<Sys>, events: seq<Event>)
    ensures Run(trace, events)
    ensures forall e | e in events :: !Fails(e)
    ensures var s := trace[|events|];
      |s.callers| == 2 && s.callers[1].Shared? && s.callers[1].readAt - s.callers[1].answer.at >= STATS_TTL
  {
    var w, v, late, log := Waiting(0, None, 0), Published7By9(), STATS_TTL, [Started(0), Published(0)];
    trace, events := FirstPublication();
    trace, events := Extend(trace, events, Tick(late),
                            Sys(late, Some(v), 1, Some(Flight(0, Settled(Some(v), 0))), [w, Idle], log));
    trace, events := Extend(trace, events, Read(1),
                            Sys(late, Some(v), 1, Some(Flight(0, Settled(Some(v), 0))),
                                [w, Missed(Some(v), late)], log));
    trace, events := Extend(trace, events, Join(1),
                            Sys(late, Some(v), 1, Some(Flight(0, Settled(Some(v), 0))),
                                [w, Waiting(0, Some(v), late)], log));
    trace, events := Extend(trace, events, Finish,
                            Sys(late, Some(v), 1, None, [Shared(v, 0, 0), Shared(v, late, 0)], log));
  }

  function Published7By9(): Cached {
    Cached(Stats(Count(7, 0), Count(9, 0)), 0)
  }

  /** One caller's recompute, begun at time zero. */
  lemma FirstStart() returns (trace: seq<Sys>, events: seq<Event>)
    ensures Run(trace, events) && forall e | e in events :: !Fails(e)
    ensures trace[|events|] ==
            Sys(0, None, 1, Some(Flight(0, CountingNodes)), [Waiting(0, None, 0), Idle], [Started(0)])
  {
    var w := Waiting(0, None, 0);
    trace, events := Begin();
    trace, events := Extend(trace, events, Read(0), Sys(0, None, 0, None, [Missed(None, 0), Idle], []));
    trace, events := Extend(trace, events, Join(0), Sys(0, None, 1, Some(Flight(0, Entered)), [w, Idle], []));
    trace, events := Extend(trace, events, Recheck,
                            Sys(0, None, 1, Some(Flight(0, CountingNodes)), [w, Idle], [Started(0)]));
  }

  /** It is published at time zero, and not yet delivered. */
  lemma FirstPublication() returns (trace: seq<Sys>, events: seq<Event>)
    ensures Run(trace, events) && forall e | e in events :: !Fails(e)
    ensures trace[|events|] == Sys(0, Some(Published7By9()), 1, Some(Flight(0, Settled(Some(Published7By9()), 0))),
                                   [Waiting(0, None, 0), Idle], [Started(0), Published(0)])
  {
    var w, n, v := Waiting(0, None, 0), Count(7, 0), Published7By9();
    trace, events := FirstStart();
    trace, events := Extend(trace, events, NodeCount(Some(7)),
                            Sys(0, None, 1, Some(Flight(0, CountingEdges(n))), [w, Idle], [Started(0)]));
    trace, events := Extend(trace, events, EdgeCount(Some(9)),
                            Sys(0, None, 1, Some(Flight(0, Publishing(v.stats))), [w, Idle], [Started(0)]));
    trace, events := Extend(trace, events, Publish,
                            Sys(0, Some(v), 1, Some(Flight(0, Settled(Some(v), 0))), [w, Idle],
                                [Started(0), Published(0)]));
  }

  /** A run in which the first count fails and two recomputes start at one instant. */
  lemma TwoStartsAtOneInstant() returns (trace: seq<Sys>, events: seq<Event>)
    ensures Run(trace, events)
    ensures trace[|events|].log == [Started(0), Started(0)]
  {
    var w := Waiting(0, None, 0);
    trace, events := FirstStart();
    trace, events := Extend(trace, events, NodeCount(None),
                            Sys(0, None, 1, Some(Flight(0, Settled(None, 0))), [w, Idle], [Started(0)]));
    trace, events := FailureIsRetriedAtOnce(trace, events, 1);
  }
}
