/** Where each caller's outcome comes from, over whole runs of the statistics cache. */
module HealthOutcomes {
  import opened Wrappers
  import opened HealthCache
  import opened HealthRuns

  /** What a caller waiting on a call is given when the call ends: its answer, else what the caller saw. */
  function Served(seen: Option<Cached>, readAt: int, answer: Option<Cached>, settledAt: int): Pc {
    if answer.Some? then Shared(answer.value, readAt, settledAt)
    else if seen.Some? then StaleOnError(seen.value, readAt)
    else Error
  }

  /** The call ends at step `p`, with caller `c` waiting on it. */
  predicate Ends(trace: seq<Sys>, events: seq<Event>, p: nat, c: nat) {
    && p < |events| < |trace| && events[p] == Finish && InPhase(trace[p], Finish)
    && c < |trace[p].callers| && trace[p].callers[c].Waiting?
  }

  predicate Over(pc: Pc) {
    pc.Hit? || pc.Shared? || pc.StaleOnError? || pc.Error?
  }

  lemma OverForGood(s: Sys, e: Event, c: nat)
    requires Allowed(s, e) && c < |s.callers| && Over(s.callers[c])
    ensures c < |Apply(s, e).callers| && Apply(s, e).callers[c] == s.callers[c]
  {
  }

  lemma {:induction false} StaysOver(trace: seq<Sys>, events: seq<Event>, p: nat, i: nat, c: nat)
    requires Run(trace, events) && p <= i < |trace| && c < |trace[p].callers| && Over(trace[p].callers[c])
    ensures c < |trace[i].callers| && trace[i].callers[c] == trace[p].callers[c]
    decreases i
  {
    if p < i {
      StaysOver(trace, events, p, i - 1, c);
      assert Allowed(trace[i - 1], events[i - 1]) && trace[i] == Apply(trace[i - 1], events[i - 1]);
      OverForGood(trace[i - 1], events[i - 1], c);
    }
  }

  lemma FinishServes(s: Sys, c: nat)
    requires Inv(s) && InPhase(s, Finish) && c < |s.callers| && s.callers[c].Waiting?
    ensures var s', w := Apply(s, Finish), s.callers[c];
      && c < |s'.callers|
      && s'.callers[c] == Served(w.seen, w.readAt, s.flight.value.phase.answer, s.flight.value.phase.settledAt)
  {
    assert CallerInv(s, s.callers[c]);
  }

  /** Everyone waiting when the call ends is served by its outcome, and that is final. */
  lemma EveryWaiterIsServed(trace: seq<Sys>, events: seq<Event>, p: nat, i: nat, c: nat)
    requires Run(trace, events) && Ends(trace, events, p, c) && p < i < |trace|
    ensures var w, f := trace[p].callers[c], trace[p].flight.value.phase;
      c < |trace[i].callers| && trace[i].callers[c] == Served(w.seen, w.readAt, f.answer, f.settledAt)
  {
    RunKeepsInv(trace, events, p);
    FinishServes(trace[p], c);
    assert trace[p + 1] == Apply(trace[p], events[p]);
    StaysOver(trace, events, p + 1, i, c);
  }

  // ---- Where an outcome comes from

  /** Step `r` is the caller's look at the cache, at `at`, finding `seen`. */
  predicate Looks(trace: seq<Sys>, events: seq<Event>, r: nat, c: nat, seen: Option<Cached>, at: int) {
    r < |events| < |trace| && events[r] == Read(c) && trace[r].cache == seen && trace[r].now == at
  }

  ghost predicate Looked(trace: seq<Sys>, events: seq<Event>, i: nat, c: nat, seen: Option<Cached>, at: int) {
    exists r | 0 <= r < i :: Looks(trace, events, r, c, seen, at)
  }

  /** Some call that ended before `i` while `c` waited on it left `c` with `pc`. */
  ghost predicate WasServed(trace: seq<Sys>, events: seq<Event>, i: nat, c: nat, pc: Pc) {
    exists p | 0 <= p < i :: Ends(trace, events, p, c) && ServedAt(trace[p], c, pc)
  }

  predicate ServedAt(s: Sys, c: nat, pc: Pc)
    requires InPhase(s, Finish) && c < |s.callers| && s.callers[c].Waiting?
  {
    pc == Served(s.callers[c].seen, s.callers[c].readAt, s.flight.value.phase.answer, s.flight.value.phase.settledAt)
  }

  ghost predicate Sourced(trace: seq<Sys>, events: seq<Event>, i: nat, c: nat, pc: Pc) {
    match pc
    case Idle => forall r | 0 <= r < i :: r < |events| && events[r] != Read(c)
    case Missed(seen, at) => Looked(trace, events, i, c, seen, at)
    case Waiting(_, seen, at) => Looked(trace, events, i, c, seen, at)
    case Hit(v, at) => at - v.at < 5_000_000_000 && Looked(trace, events, i, c, Some(v), at)
    case _ => WasServed(trace, events, i, c, pc)
  }

  lemma SourcedLater(trace: seq<Sys>, events: seq<Event>, h: nat, c: nat, pc: Pc)
    requires h < |events| < |trace| && Sourced(trace, events, h, c, pc) && (pc == Idle ==> events[h] != Read(c))
    ensures Sourced(trace, events, h + 1, c, pc)
  {
  }

  lemma StepSources(trace: seq<Sys>, events: seq<Event>, h: nat, c: nat)
    requires h < |events| < |trace| && Inv(trace[h]) && c < |trace[h].callers|
    requires Allowed(trace[h], events[h]) && trace[h + 1] == Apply(trace[h], events[h])
    requires Sourced(trace, events, h, c, trace[h].callers[c])
    ensures c < |trace[h + 1].callers| && Sourced(trace, events, h + 1, c, trace[h + 1].callers[c])
  {
    var s, e := trace[h], events[h];
    var pc := s.callers[c];
    if e == Read(c) {
      assert Looks(trace, events, h, c, s.cache, s.now);
    } else if e == Join(c) {
      SourcedLater(trace, events, h, c, pc);
    } else if e.Finish? && pc.Waiting? {
      FinishServes(s, c);
      assert Ends(trace, events, h, c) && ServedAt(s, c, trace[h + 1].callers[c]);
    } else {
      SourcedLater(trace, events, h, c, pc);
    }
  }

  /** Every outcome has its source: the caller's one look at the cache, or the call it waited on. */
  lemma {:induction false} OutcomesHaveSources(trace: seq<Sys>, events: seq<Event>, i: nat, c: nat)
    requires Run(trace, events) && i < |trace| && c < |trace[i].callers|
    ensures Sourced(trace, events, i, c, trace[i].callers[c])
  {
    if i > 0 {
      var h := i - 1;
      assert Allowed(trace[h], events[h]) && trace[h + 1] == Apply(trace[h], events[h]);
      OutcomesHaveSources(trace, events, h, c);
      RunKeepsInv(trace, events, h);
      StepSources(trace, events, h, c);
    }
  }

  predicate FailsWith(trace: seq<Sys>, events: seq<Event>, p: nat, c: nat, seen: Option<Cached>) {
    Ends(trace, events, p, c) && trace[p].flight.value.phase.answer == None && trace[p].callers[c].seen == seen
  }

  /** A caller is failed exactly when the call it waited on failed and its look had found nothing cached. */
  lemma ErrorIffNothingToServe(trace: seq<Sys>, events: seq<Event>, i: nat, c: nat)
    requires Run(trace, events) && i < |trace| && c < |trace[i].callers|
    ensures trace[i].callers[c] == Error <==> exists p | 0 <= p < i :: FailsWith(trace, events, p, c, None)
  {
    OutcomesHaveSources(trace, events, i, c);
    if trace[i].callers[c] == Error {
      var p :| 0 <= p < i && Ends(trace, events, p, c) && ServedAt(trace[p], c, Error);
      assert FailsWith(trace, events, p, c, None);
    }
    if p :| 0 <= p < i && FailsWith(trace, events, p, c, None) {
      EveryWaiterIsServed(trace, events, p, i, c);
    }
  }

  /** And is served what it saw exactly when that call failed and the look had found something. */
  lemma StaleOnErrorIffSeen(trace: seq<Sys>, events: seq<Event>, i: nat, c: nat, v: Cached)
    requires Run(trace, events) && i < |trace| && c < |trace[i].callers|
    ensures trace[i].callers[c].StaleOnError? && trace[i].callers[c].answer == v <==>
            exists p | 0 <= p < i :: FailsWith(trace, events, p, c, Some(v))
  {
    OutcomesHaveSources(trace, events, i, c);
    if trace[i].callers[c].StaleOnError? && trace[i].callers[c].answer == v {
      var p :| 0 <= p < i && Ends(trace, events, p, c) && ServedAt(trace[p], c, trace[i].callers[c]);
      assert FailsWith(trace, events, p, c, Some(v));
    }
    if p :| 0 <= p < i && FailsWith(trace, events, p, c, Some(v)) {
      EveryWaiterIsServed(trace, events, p, i, c);
    }
  }

  // ---- Once anything has been published

  lemma {:induction false} CacheStays(trace: seq<Sys>, events: seq<Event>, p: nat, i: nat)
    requires Run(trace, events) && p <= i < |trace| && trace[p].cache.Some?
    ensures trace[i].cache.Some?
    decreases i
  {
    if p < i {
      CacheStays(trace, events, p, i - 1);
      assert Allowed(trace[i - 1], events[i - 1]) && trace[i] == Apply(trace[i - 1], events[i - 1]);
    }
  }

  lemma StepLeavesIdle(s: Sys, e: Event, c: nat)
    requires Allowed(s, e) && c < |s.callers| && s.callers[c] != Idle
    ensures c < |Apply(s, e).callers| && Apply(s, e).callers[c] != Idle
  {
  }

  lemma {:induction false} LooksOnce(trace: seq<Sys>, events: seq<Event>, r: nat, i: nat, c: nat)
    requires Run(trace, events) && r < i < |trace| && events[r] == Read(c)
    ensures c < |trace[i].callers| && trace[i].callers[c] != Idle
    decreases i
  {
    var h := i - 1;
    assert Allowed(trace[h], events[h]) && trace[h + 1] == Apply(trace[h], events[h]);
    if r < h {
      LooksOnce(trace, events, r, h, c);
      StepLeavesIdle(trace[h], events[h], c);
    }
  }

  /** What a caller looks up once: the look behind its state is the one it made. */
  lemma SameLook(trace: seq<Sys>, events: seq<Event>, r: nat, q: nat, c: nat)
    requires Run(trace, events) && r < |events| && q < |events| && events[r] == Read(c) && events[q] == Read(c)
    ensures r == q
  {
    assert Allowed(trace[r], events[r]) && Allowed(trace[q], events[q]);
    if r < q {
      LooksOnce(trace, events, r, q, c);
    } else if q < r {
      LooksOnce(trace, events, q, r, c);
    }
  }

  /** Once counts have been published, no caller that looks afterwards is ever failed. */
  lemma NoErrorOncePublished(trace: seq<Sys>, events: seq<Event>, p: nat, r: nat, i: nat, c: nat)
    requires Run(trace, events) && p < r < |events| && i < |trace| && c < |trace[i].callers|
    requires events[p] == Publish && events[r] == Read(c)
    ensures trace[i].callers[c] != Error
  {
    assert trace[p + 1] == Apply(trace[p], events[p]);
    CacheStays(trace, events, p + 1, r);
    ErrorIffNothingToServe(trace, events, i, c);
    if trace[i].callers[c] == Error {
      var q :| 0 <= q < i && FailsWith(trace, events, q, c, None);
      OutcomesHaveSources(trace, events, q, c);
      var l :| 0 <= l < q && Looks(trace, events, l, c, None, trace[q].callers[c].readAt);
      SameLook(trace, events, r, l, c);
    }
  }

  // ---- The numbers served

  predicate CountsNodes(trace: seq<Sys>, events: seq<Event>, x: nat, c: Count) {
    && x < |events| < |trace| && events[x] == NodeCount(Some(c.value))
    && trace[x].flight.Some? && trace[x].flight.value.id == c.flight
  }

  predicate CountsEdges(trace: seq<Sys>, events: seq<Event>, x: nat, c: Count) {
    && x < |events| < |trace| && events[x] == EdgeCount(Some(c.value))
    && trace[x].flight.Some? && trace[x].flight.value.id == c.flight
  }

  predicate PublishesAt(trace: seq<Sys>, events: seq<Event>, z: nat, at: int) {
    z < |events| < |trace| && events[z] == Publish && trace[z].now == at
  }

  ghost predicate NodesCounted(trace: seq<Sys>, events: seq<Event>, i: nat, c: Count) {
    exists x | 0 <= x < i :: CountsNodes(trace, events, x, c)
  }

  ghost predicate EdgesCounted(trace: seq<Sys>, events: seq<Event>, i: nat, c: Count) {
    exists x | 0 <= x < i :: CountsEdges(trace, events, x, c)
  }

  /** The database gave both numbers to one recompute, and they were published when `v` says. */
  ghost predicate Counted(trace: seq<Sys>, events: seq<Event>, i: nat, v: Cached) {
    && NodesCounted(trace, events, i, v.stats.nodes) && EdgesCounted(trace, events, i, v.stats.edges)
    && v.stats.nodes.flight == v.stats.edges.flight
    && exists z | 0 <= z < i :: PublishesAt(trace, events, z, v.at)
  }

  ghost predicate PhaseCounted(trace: seq<Sys>, events: seq<Event>, i: nat, f: Flight) {
    match f.phase
    case CountingEdges(n) => NodesCounted(trace, events, i, n)
    case Publishing(stats) => NodesCounted(trace, events, i, stats.nodes) && EdgesCounted(trace, events, i, stats.edges)
    case _ => true
  }

  ghost predicate SysCounted(trace: seq<Sys>, events: seq<Event>, i: nat, s: Sys) {
    && (s.cache.Some? ==> Counted(trace, events, i, s.cache.value))
    && (s.flight.Some? ==> PhaseCounted(trace, events, i, s.flight.value))
  }

  lemma SysCountedLater(trace: seq<Sys>, events: seq<Event>, h: nat, s: Sys)
    requires SysCounted(trace, events, h, s)
    ensures SysCounted(trace, events, h + 1, s)
  {
  }

  lemma StepCounts(trace: seq<Sys>, events: seq<Event>, h: nat)
    requires h < |events| < |trace| && Inv(trace[h])
    requires Allowed(trace[h], events[h]) && trace[h + 1] == Apply(trace[h], events[h])
    requires SysCounted(trace, events, h, trace[h])
    ensures SysCounted(trace, events, h + 1, trace[h + 1])
  {
    var s, e := trace[h], events[h];
    SysCountedLater(trace, events, h, s);
    match e
    case NodeCount(Some(n)) => assert CountsNodes(trace, events, h, Count(n, s.flight.value.id));
    case EdgeCount(Some(n)) => assert CountsEdges(trace, events, h, Count(n, s.flight.value.id));
    case Publish => assert PublishesAt(trace, events, h, s.now);
    case _ =>
  }

  lemma {:induction false} CacheIsCounted(trace: seq<Sys>, events: seq<Event>, i: nat)
    requires Run(trace, events) && i < |trace|
    ensures SysCounted(trace, events, i, trace[i])
  {
    if i > 0 {
      var h := i - 1;
      assert Allowed(trace[h], events[h]) && trace[h + 1] == Apply(trace[h], events[h]);
      CacheIsCounted(trace, events, h);
      RunKeepsInv(trace, events, h);
      StepCounts(trace, events, h);
    }
  }

  lemma CountedLater(trace: seq<Sys>, events: seq<Event>, r: nat, i: nat, v: Cached)
    requires r <= i && Counted(trace, events, r, v)
    ensures Counted(trace, events, i, v)
  {
  }

  lemma LookIsCounted(trace: seq<Sys>, events: seq<Event>, i: nat, c: nat, v: Cached, at: int)
    requires Run(trace, events) && i < |trace| && Looked(trace, events, i, c, Some(v), at)
    ensures Counted(trace, events, i, v)
  {
    var r :| 0 <= r < i && Looks(trace, events, r, c, Some(v), at);
    CacheIsCounted(trace, events, r);
    CountedLater(trace, events, r, i, v);
  }

  /** Whatever a caller is given are the two numbers the database returned to one recompute. */
  lemma AnswersAreCounts(trace: seq<Sys>, events: seq<Event>, i: nat, c: nat)
    requires Run(trace, events) && i < |trace| && c < |trace[i].callers| && Answered(trace[i].callers[c])
    ensures Counted(trace, events, i, trace[i].callers[c].answer)
  {
    var pc := trace[i].callers[c];
    OutcomesHaveSources(trace, events, i, c);
    if pc.Hit? {
      LookIsCounted(trace, events, i, c, pc.answer, pc.readAt);
    } else {
      var p :| 0 <= p < i && Ends(trace, events, p, c) && ServedAt(trace[p], c, pc);
      if pc.Shared? {
        RunKeepsInv(trace, events, p);
        CacheIsCounted(trace, events, p);
      } else {
        OutcomesHaveSources(trace, events, p, c);
        LookIsCounted(trace, events, p, c, pc.answer, pc.readAt);
      }
      CountedLater(trace, events, p, i, pc.answer);
    }
  }
}
