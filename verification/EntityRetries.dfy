/** When a link is given up: over whole runs, exactly when nothing could have been retried. */
module EntityRetries {
  import opened Wrappers
  import opened EntityLinks
  import opened EntityRuns

  /** Attempts of link `j` that ended in an error worth retrying, in the first `n` events. */
  function Retryable(events: seq<Event>, n: nat, j: nat): nat
    requires n <= |events|
  {
    if n == 0 then 0 else Retryable(events, n - 1, j) + if events[n - 1] == Abort(j, true) then 1 else 0
  }

  /** Step `h` told link `j` it was committed. */
  predicate Succeeds(events: seq<Event>, h: nat, j: nat) {
    h < |events| && events[h] == Commit(j, true)
  }

  /** Step `h` left nothing to retry: the answer was lost, the error was final, or it was the third attempt. */
  predicate GivesUp(events: seq<Event>, h: nat, j: nat) {
    h < |events| &&
    (events[h] == Commit(j, false) || events[h] == Abort(j, false)
     || (events[h] == Abort(j, true) && Retryable(events, h, j) == 2))
  }

  ghost predicate Succeeded(events: seq<Event>, i: nat, j: nat) {
    exists h | 0 <= h < i :: Succeeds(events, h, j)
  }

  ghost predicate GaveUp(events: seq<Event>, i: nat, j: nat) {
    exists h | 0 <= h < i :: GivesUp(events, h, j)
  }

  ghost predicate Accounted(events: seq<Event>, i: nat, j: nat, job: Job)
    requires i <= |events|
  {
    && (job.pc.Linked? <==> Succeeded(events, i, j))
    && (job.pc == Failed <==> GaveUp(events, i, j))
    && (!Final(job) ==> job.attempt == Retryable(events, i, j) < 3)
  }

  lemma StepAccounts(key: Identity -> int, s: Sys, events: seq<Event>, h: nat, j: nat)
    requires h < |events| && Allowed(key, s, events[h]) && j < |s.jobs|
    requires Accounted(events, h, j, s.jobs[j])
    ensures j < |Apply(key, s, events[h]).jobs|
    ensures Accounted(events, h + 1, j, Apply(key, s, events[h]).jobs[j])
  {
    var job' := Apply(key, s, events[h]).jobs[j];
    assert Succeeded(events, h + 1, j) <==> Succeeded(events, h, j) || Succeeds(events, h, j);
    assert GaveUp(events, h + 1, j) <==> GaveUp(events, h, j) || GivesUp(events, h, j);
    if events[h] == Abort(j, true) || events[h] == Abort(j, false) {
      assert job' == AfterAbort(s.jobs[j], events[h].retryable);
    }
  }

  /**
   * A link is committed as far as its caller knows exactly when a commit was acknowledged. It is
   * given up exactly when a commit's answer was lost, an attempt ended in an error that is not worth
   * retrying, or a third attempt ended in any error; until then every error is retried.
   */
  lemma {:induction false} LinkOutcomes(key: Identity -> int, trace: seq<Sys>, events: seq<Event>, i: nat, j: nat)
    requires Run(key, trace, events) && i < |trace| && j < |trace[i].jobs|
    ensures Accounted(events, i, j, trace[i].jobs[j])
  {
    if i > 0 {
      RunStep(key, trace, events, i - 1);
      LinkOutcomes(key, trace, events, i - 1, j);
      StepAccounts(key, trace[i - 1], events, i - 1, j);
    }
  }
}
