/**
 * Per-key token buckets with lazy refill. Seconds and tokens are reals; every bucket keeps, as
 * ghost state, the requests it has answered.
 */
module RateLimiter {

  const DEFAULT_RATE_LIMIT := 6000
  const MAX_BUCKETS := 4096

  datatype Request = Request(at: real, admitted: bool)
  datatype Terms = Terms(max: real, rate: real, created: real)

  function Min(a: real, b: real): real { if a <= b then a else b }

  function LastTime(b: Terms, log: seq<Request>): real {
    if log == [] then b.created else log[|log| - 1].at
  }

  /** Tokens earned between two instants. */
  function Gain(b: Terms, x: real, y: real): real {
    (y - x) * b.rate
  }

  /** Tokens at `now`, refilled, before a request at `now` is decided. */
  function Refilled(b: Terms, log: seq<Request>, now: real): real
    decreases |log|, 1
  {
    Min(b.max, Left(b, log) + Gain(b, LastTime(b, log), now))
  }

  /** Tokens left after the last request of `log`. */
  function Left(b: Terms, log: seq<Request>): real
    decreases |log|, 0
  {
    if log == [] then b.max
    else
      var r := log[|log| - 1];
      Refilled(b, log[..|log| - 1], r.at) - if r.admitted then 1.0 else 0.0
  }

  /** Requests in time order, each answered by the bucket's own rule. */
  predicate Answered(b: Terms, log: seq<Request>) {
    b.rate >= 0.0 && b.max >= 0.0 && (log != [] ==>
      var front, r := log[..|log| - 1], log[|log| - 1];
      Answered(b, front) && LastTime(b, front) <= r.at && (r.admitted <==> Refilled(b, front, r.at) >= 1.0))
  }

  /** Requests admitted at or after the instant `s`. */
  function AdmittedSince(log: seq<Request>, s: real): nat {
    if log == [] then 0
    else
      var r := log[|log| - 1];
      AdmittedSince(log[..|log| - 1], s) + if r.admitted && r.at >= s then 1 else 0
  }

  /** What the window that opened at `s` still allows at `now`. */
  function Headroom(b: Terms, log: seq<Request>, s: real, now: real): real {
    b.max + Gain(b, s, now) - AdmittedSince(log, s) as real
  }

  lemma GainAdds(b: Terms, x: real, y: real, z: real)
    requires b.rate >= 0.0 && y <= z
    ensures Gain(b, x, z) == Gain(b, x, y) + Gain(b, y, z)
    ensures Gain(b, y, z) >= 0.0
  {
  }

  lemma {:induction false} NothingLater(b: Terms, log: seq<Request>, s: real)
    requires Answered(b, log) && s > LastTime(b, log)
    ensures AdmittedSince(log, s) == 0
  {
    if log != [] { NothingLater(b, log[..|log| - 1], s); }
  }

  /** One request at `t` costs the counter and every window open by then the same. */
  lemma RequestCostsBoth(b: Terms, front: seq<Request>, r: Request, s: real, now: real)
    requires s <= r.at <= now && b.rate >= 0.0
    ensures Headroom(b, front + [r], s, now) ==
            Headroom(b, front, s, r.at) - (if r.admitted then 1.0 else 0.0) + Gain(b, r.at, now)
  {
    GainAdds(b, s, r.at, now);
    assert (front + [r])[..|front|] == front;
  }

  lemma {:induction false} NoWindowIsExceeded(b: Terms, log: seq<Request>, s: real, now: real)
    requires Answered(b, log) && b.created <= s <= now && LastTime(b, log) <= now
    ensures Refilled(b, log, now) <= Headroom(b, log, s, now)
  {
    if s > LastTime(b, log) {
      NothingLater(b, log, s);
      GainAdds(b, s, s, now);
    } else if log != [] {
      var front, r := log[..|log| - 1], log[|log| - 1];
      NoWindowIsExceeded(b, front, s, r.at);
      assert log == front + [r];
      RequestCostsBoth(b, front, r, s, now);
    }
  }

  lemma {:induction false} SomeWindowIsTight(b: Terms, log: seq<Request>, now: real) returns (s: real)
    requires Answered(b, log) && LastTime(b, log) <= now
    ensures b.created <= s <= now && Headroom(b, log, s, now) <= Refilled(b, log, now)
  {
    TimesPassed(b, log);
    if Refilled(b, log, now) == b.max {
      s := now;
    } else if log == [] {
      s := b.created;
    } else {
      var front, r := log[..|log| - 1], log[|log| - 1];
      s := SomeWindowIsTight(b, front, r.at);
      assert log == front + [r];
      RequestCostsBoth(b, front, r, s, now);
    }
  }

  lemma {:induction false} TimesPassed(b: Terms, log: seq<Request>)
    requires Answered(b, log)
    ensures b.created <= LastTime(b, log)
  {
    if log != [] { TimesPassed(b, log[..|log| - 1]); }
  }

  /** Every window since the bucket was created would still hold one more request at `now`. */
  ghost predicate WithinEveryWindow(b: Terms, log: seq<Request>, now: real) {
    forall s | b.created <= s <= now :: Headroom(b, log, s, now) >= 1.0
  }

  /** The lazily refilled counter decides exactly by windows. */
  lemma AdmissionIsExact(b: Terms, log: seq<Request>, now: real)
    requires Answered(b, log) && LastTime(b, log) <= now
    ensures Refilled(b, log, now) >= 1.0 <==> WithinEveryWindow(b, log, now)
  {
    if Refilled(b, log, now) >= 1.0 {
      forall s | b.created <= s <= now ensures Headroom(b, log, s, now) >= 1.0 {
        NoWindowIsExceeded(b, log, s, now);
      }
    } else {
      var s := SomeWindowIsTight(b, log, now);
    }
  }

  function AdmittedBetween(log: seq<Request>, s: real, e: real): nat {
    if log == [] then 0
    else
      var r := log[|log| - 1];
      AdmittedBetween(log[..|log| - 1], s, e) + if r.admitted && s <= r.at <= e then 1 else 0
  }

  lemma {:induction false} BetweenAtMostSince(log: seq<Request>, s: real, e: real)
    ensures AdmittedBetween(log, s, e) <= AdmittedSince(log, s)
  {
    if log != [] { BetweenAtMostSince(log[..|log| - 1], s, e); }
  }

  /** Over a whole run, no window holds more than the burst plus what its length refills. */
  lemma {:induction false} EveryWindowIsBounded(b: Terms, log: seq<Request>, s: real, e: real)
    requires Answered(b, log) && b.created <= s <= e
    ensures AdmittedBetween(log, s, e) as real <= b.max + Gain(b, s, e)
  {
    GainAdds(b, s, s, e);
    if log != [] {
      var front, r := log[..|log| - 1], log[|log| - 1];
      if r.admitted && s <= r.at <= e {
        NoWindowIsExceeded(b, front, s, r.at);
        BetweenAtMostSince(front, s, e);
        GainAdds(b, s, r.at, e);
      } else {
        EveryWindowIsBounded(b, front, s, e);
      }
    }
  }

  lemma {:induction false} NeverOverdrawn(b: Terms, log: seq<Request>)
    requires Answered(b, log)
    ensures 0.0 <= Left(b, log) <= b.max
  {
    if log != [] {
      var front, r := log[..|log| - 1], log[|log| - 1];
      NeverOverdrawn(b, front);
      GainAdds(b, LastTime(b, front), LastTime(b, front), r.at);
    }
  }

  function TermsFor(perMinute: nat, created: real): Terms {
    Terms(perMinute as real, perMinute as real / 60.0, created)
  }

  // ---- In the configured limit itself

  /** What a limit of `n` a minute allows from `s` to `now`: a burst of `n`, and `n` for each minute. */
  function Allowance(n: nat, s: real, now: real): real {
    n as real + (now - s) * n as real / 60.0
  }

  /** One more request now stays within the limit, counted from any instant since `created`. */
  ghost predicate WithinLimit(n: nat, created: real, log: seq<Request>, now: real) {
    forall s | created <= s <= now :: AdmittedSince(log, s) as real + 1.0 <= Allowance(n, s, now)
  }

  lemma AllowanceIs(n: nat, created: real, s: real, now: real)
    ensures TermsFor(n, created).max + Gain(TermsFor(n, created), s, now) == Allowance(n, s, now)
  {
    PerSecond(now - s, n as real);
  }

  lemma PerSecond(span: real, n: real)
    ensures span * (n / 60.0) == span * n / 60.0
  {
  }

  lemma LimitIsWindows(n: nat, created: real, log: seq<Request>, now: real)
    ensures WithinEveryWindow(TermsFor(n, created), log, now) <==> WithinLimit(n, created, log, now)
  {
    var b := TermsFor(n, created);
    forall s ensures Headroom(b, log, s, now) == Allowance(n, s, now) - AdmittedSince(log, s) as real {
      AllowanceIs(n, created, s, now);
    }
    if WithinLimit(n, created, log, now) {
      forall s | b.created <= s <= now ensures Headroom(b, log, s, now) >= 1.0 {
        assert AdmittedSince(log, s) as real + 1.0 <= Allowance(n, s, now);
      }
    }
  }

  /** A new request is admitted exactly while the limit allows one more, in every window. */
  lemma AdmittedIffWithinLimit(n: nat, created: real, log: seq<Request>, now: real)
    requires Answered(TermsFor(n, created), log) && LastTime(TermsFor(n, created), log) <= now
    ensures Refilled(TermsFor(n, created), log, now) >= 1.0 <==> WithinLimit(n, created, log, now)
  {
    AdmissionIsExact(TermsFor(n, created), log, now);
    LimitIsWindows(n, created, log, now);
  }

  predicate Follows(created: real, log: seq<Request>, k: nat)
    requires k < |log|
  {
    (if k == 0 then created else log[k - 1].at) <= log[k].at
  }

  /** Request `k` was not out of order, and was admitted exactly if the limit allowed it. */
  ghost predicate Rightly(n: nat, created: real, log: seq<Request>, k: nat)
    requires k < |log|
  {
    Follows(created, log, k) && (log[k].admitted <==> WithinLimit(n, created, log[..k], log[k].at))
  }

  /** A bucket's history under a limit: requests in time order, each admitted exactly while the limit allows. */
  lemma {:induction false} HistoriesOfALimit(n: nat, created: real, log: seq<Request>)
    ensures Answered(TermsFor(n, created), log) <==> forall k | 0 <= k < |log| :: Rightly(n, created, log, k)
  {
    if log != [] {
      var last := |log| - 1;
      var front, r := log[..last], log[last];
      HistoriesOfALimit(n, created, front);
      forall k | 0 <= k < last ensures Rightly(n, created, log, k) <==> Rightly(n, created, front, k) {
        assert log[..k] == front[..k];
      }
      if !Answered(TermsFor(n, created), front) {
        var k :| 0 <= k < last && !Rightly(n, created, front, k);
        assert !Rightly(n, created, log, k);
      }
      assert Follows(created, log, last) <==> LastTime(TermsFor(n, created), front) <= r.at;
      assert Rightly(n, created, log, last) <==>
             Follows(created, log, last) && (r.admitted <==> WithinLimit(n, created, front, r.at));
      if Answered(TermsFor(n, created), front) && LastTime(TermsFor(n, created), front) <= r.at {
        AdmittedIffWithinLimit(n, created, front, r.at);
      }
    }
  }

  /** No stretch of time sees more admitted than the limit, and the limit for each further minute. */
  lemma LimitIsKept(n: nat, created: real, log: seq<Request>, s: real, e: real)
    requires Answered(TermsFor(n, created), log) && created <= s <= e
    ensures AdmittedBetween(log, s, e) as real <= n as real + (e - s) * n as real / 60.0
  {
    EveryWindowIsBounded(TermsFor(n, created), log, s, e);
    AllowanceIs(n, created, s, e);
  }

  /** Whole seconds a rejected client is told to wait. */
  function RetryAfterSeconds(rateLimit: int): int {
    if rateLimit <= 0 then 1
    else
      var secs := -(-(60.0 / rateLimit as real)).Floor;
      if secs < 1 then 1 else secs
  }

  /** The advice is the fewest whole seconds, and at least one, in which the limit comes to a request. */
  lemma AdviceIsLeast(perMinute: nat, secs: int)
    requires perMinute >= 1
    ensures secs >= RetryAfterSeconds(perMinute) <==> secs >= 1 && secs * perMinute >= 60
  {
    var x := 60.0 / perMinute as real;
    assert secs >= -(-x).Floor <==> secs as real >= x;
    Quotient(secs as real, perMinute as real);
    assert (secs * perMinute) as real == secs as real * perMinute as real;
  }

  lemma Quotient(a: real, n: real)
    requires n > 0.0
    ensures a >= 60.0 / n <==> a * n >= 60.0
  {
    assert 60.0 / n * n == 60.0;
    assert (a - 60.0 / n) * n == a * n - 60.0;
    Signs(a - 60.0 / n, n);
  }

  lemma Signs(d: real, n: real)
    requires n > 0.0
    ensures d >= 0.0 <==> d * n >= 0.0
  {
    if d < 0.0 { assert d * n < 0.0; }
  }

  /** A client that stays silent as long as it was told is admitted on its next request. */
  lemma SilentClientIsAdmitted(perMinute: nat, created: real, log: seq<Request>, now: real)
    requires perMinute >= 1 && Answered(TermsFor(perMinute, created), log)
    requires LastTime(TermsFor(perMinute, created), log) + RetryAfterSeconds(perMinute) as real <= now
    ensures Refilled(TermsFor(perMinute, created), log, now) >= 1.0
  {
    var b := TermsFor(perMinute, created);
    NeverOverdrawn(b, log);
    AdviceCoversOneToken(perMinute);
    OneTokenIsRefilled(b, LastTime(b, log), now, 60.0 / perMinute as real);
  }

  lemma AdviceCoversOneToken(perMinute: nat)
    requires perMinute >= 1
    ensures RetryAfterSeconds(perMinute) as real >= 60.0 / perMinute as real
    ensures 60.0 / perMinute as real * (perMinute as real / 60.0) == 1.0
  {
    var x := 60.0 / perMinute as real;
    assert (-x).Floor as real <= -x;
  }

  lemma OneTokenIsRefilled(b: Terms, last: real, now: real, need: real)
    requires b.rate >= 0.0 && need * b.rate == 1.0 && last + need <= now
    ensures Gain(b, last, now) >= 1.0
  {
    assert (now - last - need) * b.rate >= 0.0;
  }

  /** Answering one more request by the rule extends the history by the rule. */
  lemma AnswerOne(b: Terms, log: seq<Request>, now: real, ok: bool)
    requires Answered(b, log) && LastTime(b, log) <= now && (ok <==> Refilled(b, log, now) >= 1.0)
    ensures Answered(b, log + [Request(now, ok)]) && LastTime(b, log + [Request(now, ok)]) == now
    ensures Left(b, log + [Request(now, ok)]) == Refilled(b, log, now) - if ok then 1.0 else 0.0
  {
    assert (log + [Request(now, ok)])[..|log|] == log;
  }

  lemma Grows<V>(m: map<string, V>, key: string, v: V)
    requires key !in m
    ensures |m[key := v]| == |m| + 1
  {
    assert m[key := v].Keys == m.Keys + {key};
  }

  lemma Shrinks<V>(m: map<string, V>, key: string)
    requires key in m
    ensures |m - {key}| == |m| - 1
  {
    assert (m - {key}).Keys == m.Keys - {key};
  }

  class TokenBucket {
    const perMinute: nat
    const max: real
    const rate: real
    var tokens: real
    var lastTime: real
    ghost const created: real
    ghost const owner: string
    ghost var log: seq<Request>

    ghost function Deal(): Terms {
      Terms(max, rate, created)
    }

    ghost predicate Valid()
      reads this
    {
      && Deal() == TermsFor(perMinute, created) && Answered(Deal(), log)
      && tokens == Left(Deal(), log) && lastTime == LastTime(Deal(), log)
    }

    constructor (perMinute: nat, now: real, ghost owner: string)
      ensures Valid() && this.perMinute == perMinute && created == now && log == [] && this.owner == owner
      ensures tokens == max == perMinute as real && rate * 60.0 == perMinute as real && lastTime == now
    {
      this.owner := owner;
      this.perMinute := perMinute;
      tokens := perMinute as real;
      max := perMinute as real;
      rate := perMinute as real / 60.0;
      lastTime := now;
      created := now;
      log := [];
    }

    method Refill(now: real)
      modifies `tokens, `lastTime
      ensures tokens == Min(max, old(tokens) + Gain(Deal(), old(lastTime), now)) && lastTime == now
    {
      var elapsed := now - lastTime;
      lastTime := now;
      tokens := tokens + elapsed * rate;
      if tokens > max {
        tokens := max;
      }
    }

    method Allow(now: real) returns (ok: bool)
      requires Valid() && lastTime <= now
      modifies this
      ensures Valid()
      ensures log == old(log) + [Request(now, ok)]
      ensures ok <==> WithinLimit(perMinute, created, old(log), now)
    {
      AdmittedIffWithinLimit(perMinute, created, log, now);
      Refill(now);
      ok := tokens >= 1.0;
      if ok {
        tokens := tokens - 1.0;
      }
      AnswerOne(Deal(), log, now, ok);
      log := log + [Request(now, ok)];
    }
  }

  class Limiter {
    const rateLimit: nat
    var buckets: map<string, TokenBucket>

    ghost predicate Valid()
      reads this, buckets.Values
    {
      && rateLimit >= 1 && |buckets| <= MAX_BUCKETS && "" !in buckets
      && (forall k | k in buckets :: buckets[k].owner == k && buckets[k].perMinute == rateLimit && buckets[k].Valid())
    }

    ghost predicate Idlest(v: string)
      reads this, buckets.Values
    {
      v in buckets && forall k | k in buckets :: buckets[v].lastTime <= buckets[k].lastTime
    }

    constructor (limit: int)
      ensures Valid() && buckets == map[]
      ensures rateLimit == if limit <= 0 then 6000 else limit
    {
      rateLimit := if limit <= 0 then DEFAULT_RATE_LIMIT else limit;
      buckets := map[];
    }

    /** Drops one bucket that has gone longest without a request. */
    method EvictIdlest() returns (ghost victim: string)
      requires Valid() && buckets != map[]
      modifies this
      ensures Valid()
      ensures victim in old(buckets) && buckets == old(buckets) - {victim}
      ensures old(Idlest(victim))
    {
      var oldestKey, oldest := "", 0.0;
      var todo := buckets.Keys;
      while todo != {}
        invariant todo <= buckets.Keys
        invariant oldestKey == "" <==> todo == buckets.Keys
        invariant oldestKey != "" ==> oldestKey in buckets && oldest == buckets[oldestKey].lastTime
        invariant oldestKey != "" ==> forall k | k in buckets.Keys - todo :: oldest <= buckets[k].lastTime
        decreases todo
      {
        var k :| k in todo;
        todo := todo - {k};
        if oldestKey == "" || buckets[k].lastTime < oldest {
          oldestKey, oldest := k, buckets[k].lastTime;
        }
      }
      if oldestKey != "" {
        buckets := buckets - {oldestKey};
      }
      victim := oldestKey;
    }

    /** Leaves room for one more bucket, dropping the idlest one only when the map is full. */
    method MakeRoom() returns (ghost victim: string)
      requires Valid()
      modifies this
      ensures Valid() && |buckets| < MAX_BUCKETS && buckets == old(buckets) - {victim}
      ensures victim == "" || (old(|buckets|) == MAX_BUCKETS && old(Idlest(victim)))
    {
      victim := "";
      if |buckets| >= MAX_BUCKETS {
        victim := EvictIdlest();
        Shrinks(old(buckets), victim);
      }
    }

    method InsertBucket(key: string, born: real)
      requires Valid() && key != "" && key !in buckets && |buckets| < MAX_BUCKETS
      modifies this
      ensures Valid() && key in buckets && fresh(buckets[key]) && buckets == old(buckets)[key := buckets[key]]
      ensures buckets[key].log == [] && buckets[key].created == born == buckets[key].lastTime
    {
      var bucket := new TokenBucket(rateLimit, born, key);
      Grows(buckets, key, bucket);
      buckets := buckets[key := bucket];
    }

    method AddBucket(key: string, born: real) returns (ghost victim: string)
      requires Valid() && key != "" && key !in buckets
      modifies this
      ensures Valid() && key in buckets && fresh(buckets[key]) &&
              buckets == (old(buckets) - {victim})[key := buckets[key]]
      ensures buckets[key].log == [] && buckets[key].created == born == buckets[key].lastTime
      ensures victim == "" || (old(|buckets|) == MAX_BUCKETS && old(Idlest(victim)))
    {
      victim := MakeRoom();
      InsertBucket(key, born);
    }

    method Ask(key: string, now: real) returns (ok: bool)
      requires Valid() && key in buckets && buckets[key].lastTime <= now
      modifies buckets[key]
      ensures Valid() && buckets[key].log == old(buckets[key].log) + [Request(now, ok)]
      ensures ok <==> WithinLimit(rateLimit, buckets[key].created, old(buckets[key].log), now)
    {
      ok := buckets[key].Allow(now);
    }

    /**
     * `born` and `now` are the two clock readings of a first request. Only this key's bucket
     * answers, and only a full map loses another key's: the one idle longest.
     */
    method AllowRequest(key: string, born: real, now: real) returns (ok: bool, ghost victim: string)
      requires Valid() && key != "" && born <= now
      requires key in buckets ==> buckets[key].lastTime <= now
      modifies this, if key in buckets then {buckets[key]} else {}
      ensures Valid() && key in buckets && |buckets| <= 4096
      ensures key in old(buckets) ==>
                buckets == old(buckets) && buckets[key].log == old(buckets[key].log) + [Request(now, ok)]
      ensures ok <==> WithinLimit(rateLimit, buckets[key].created,
                                  if key in old(buckets) then old(buckets[key].log) else [], now)
      ensures key !in old(buckets) ==> buckets == (old(buckets) - {victim})[key := buckets[key]]
      ensures key !in old(buckets) ==>
                fresh(buckets[key]) && buckets[key].created == born && buckets[key].log == [Request(now, ok)]
      ensures victim == "" || (key !in old(buckets) && old(|buckets|) == 4096 && old(Idlest(victim)))
    {
      victim := "";
      if key !in buckets {
        victim := AddBucket(key, born);
      }
      ok := Ask(key, now);
    }
  }
}
