/** Means of the metrics over the scorable questions, at each requested depth. */
module EvalAggregate {
  import opened EvalLaws
  import opened EvalMetrics

  const METRIC_DEPTH := 10

  datatype Aggregate = Aggregate(n: nat, unscorable: nat, hit: map<int, real>, recall: map<int, real>,
                                 full: map<int, real>, mrr: real, ndcg: real)

  datatype Metric = Hit | Recall | Full

  /** What a map holds for a depth; nothing is zero. */
  function Read(m: map<int, real>, k: int): real {
    if k in m then m[k] else 0.0
  }

  function Mrr(ranks: seq<int>, k: int): real
    requires Positive(ranks)
  {
    if |ranks| == 0 || ranks[0] > k then 0.0 else 1.0 / ranks[0] as real
  }

  /** What one scorable question adds to a metric at depth `k`. */
  function Gauge(metric: Metric, r: QuestionResult, k: int): real
    requires r.Scorable()
  {
    var within := Within(r.ranks, |r.ranks|, k);
    match metric
    case Hit => if within > 0 then 1.0 else 0.0
    case Recall => within as real / r.evidencePresent as real
    case Full => if within == r.evidencePresent then 1.0 else 0.0
  }

  function Total(metric: Metric, results: seq<QuestionResult>, n: nat, k: int): real
    requires n <= |results|
  {
    if n == 0 then 0.0
    else Total(metric, results, n - 1, k) + if results[n - 1].Scorable() then Gauge(metric, results[n - 1], k) else 0.0
  }

  function Scored(results: seq<QuestionResult>, n: nat): (count: nat)
    requires n <= |results|
    ensures count <= n
  {
    if n == 0 then 0 else Scored(results, n - 1) + if results[n - 1].Scorable() then 1 else 0
  }

  predicate OneBased(results: seq<QuestionResult>) {
    forall i | 0 <= i < |results| :: Positive(results[i].ranks)
  }

  function MrrTotal(results: seq<QuestionResult>, n: nat): real
    requires n <= |results| && OneBased(results)
  {
    if n == 0 then 0.0
    else MrrTotal(results, n - 1) + if results[n - 1].Scorable() then Mrr(results[n - 1].ranks, METRIC_DEPTH) else 0.0
  }

  function NdcgTotal(gain: nat -> real, results: seq<QuestionResult>, n: nat): real
    requires n <= |results| && OneBased(results)
  {
    if n == 0 then 0.0
    else
      var r := results[n - 1];
      NdcgTotal(gain, results, n - 1) +
      if r.Scorable() then Ndcg(gain, r.ranks, r.evidencePresent, METRIC_DEPTH) else 0.0
  }

  // ---- Repeated depths: a depth listed m times is added m times and divided m times.

  function Listed(ks: seq<int>, n: nat, k: int): nat
    requires n <= |ks|
  {
    if n == 0 then 0 else Listed(ks, n - 1, k) + if ks[n - 1] == k then 1 else 0
  }

  function Times(m: nat, x: real): real {
    if m == 0 then 0.0 else Times(m - 1, x) + x
  }

  function Shrink(x: real, n: real, m: nat): real
    requires n > 0.0
  {
    if m == 0 then x else Shrink(x, n, m - 1) / n
  }

  lemma {:induction false} TimesSum(m: nat, x: real, y: real)
    ensures Times(m, x + y) == Times(m, x) + Times(m, y)
  {
    if m > 0 {
      TimesSum(m - 1, x, y);
    }
  }

  lemma {:induction false} TimesZero(m: nat)
    ensures Times(m, 0.0) == 0.0
  {
    if m > 0 {
      TimesZero(m - 1);
    }
  }

  // ---- Accumulation

  ghost predicate Accumulated(acc: map<int, real>, metric: Metric, results: seq<QuestionResult>, n: nat, ks: seq<int>)
    requires n <= |results|
  {
    forall k :: Read(acc, k) == Times(Listed(ks, |ks|, k), Total(metric, results, n, k))
  }

  ghost predicate Adding(acc: map<int, real>, before: map<int, real>, metric: Metric, r: QuestionResult, ks: seq<int>,
                         n: nat)
    requires r.Scorable() && n <= |ks|
  {
    forall k :: Read(acc, k) == Read(before, k) + Times(Listed(ks, n, k), Gauge(metric, r, k))
  }

  ghost predicate Raised(acc': map<int, real>, acc: map<int, real>, k: int, x: real) {
    forall q :: Read(acc', q) == Read(acc, q) + if q == k then x else 0.0
  }

  lemma AddAtDepth(acc: map<int, real>, acc': map<int, real>, before: map<int, real>, metric: Metric, r: QuestionResult,
                   ks: seq<int>, n: nat)
    requires r.Scorable() && n < |ks| && Adding(acc, before, metric, r, ks, n)
    requires Raised(acc', acc, ks[n], Gauge(metric, r, ks[n]))
    ensures Adding(acc', before, metric, r, ks, n + 1)
  {
    forall k ensures Read(acc', k) == Read(before, k) + Times(Listed(ks, n + 1, k), Gauge(metric, r, k)) {
      assert Read(acc, k) == Read(before, k) + Times(Listed(ks, n, k), Gauge(metric, r, k));
    }
  }

  lemma AddingAccumulates(acc: map<int, real>, before: map<int, real>, metric: Metric, results: seq<QuestionResult>,
                          n: nat, ks: seq<int>)
    requires n < |results| && results[n].Scorable()
    requires Accumulated(before, metric, results, n, ks) && Adding(acc, before, metric, results[n], ks, |ks|)
    ensures Accumulated(acc, metric, results, n + 1, ks)
  {
    forall k ensures Read(acc, k) == Times(Listed(ks, |ks|, k), Total(metric, results, n + 1, k)) {
      TimesSum(Listed(ks, |ks|, k), Total(metric, results, n, k), Gauge(metric, results[n], k));
      assert Read(before, k) == Times(Listed(ks, |ks|, k), Total(metric, results, n, k));
    }
  }

  lemma NothingAccumulated(metric: Metric, results: seq<QuestionResult>, ks: seq<int>)
    ensures Accumulated(map[], metric, results, 0, ks)
  {
    forall k ensures Times(Listed(ks, |ks|, k), 0.0) == 0.0 {
      TimesZero(Listed(ks, |ks|, k));
    }
  }

  lemma SkippedAccumulates(acc: map<int, real>, metric: Metric, results: seq<QuestionResult>, n: nat, ks: seq<int>)
    requires n < |results| && !results[n].Scorable() && Accumulated(acc, metric, results, n, ks)
    ensures Accumulated(acc, metric, results, n + 1, ks)
  {
    forall k ensures Read(acc, k) == Times(Listed(ks, |ks|, k), Total(metric, results, n + 1, k)) {
      assert Read(acc, k) == Times(Listed(ks, |ks|, k), Total(metric, results, n, k));
    }
  }

  method CountWithin(ranks: seq<int>, k: int) returns (within: nat)
    ensures within == Within(ranks, |ranks|, k)
  {
    within := 0;
    for i := 0 to |ranks|
      invariant within == Within(ranks, i, k)
    {
      if ranks[i] <= k {
        within := within + 1;
      }
    }
  }

  /** The loop over depths for one scorable question. */
  method AddQuestion(r: QuestionResult, ks: seq<int>, hit0: map<int, real>, recall0: map<int, real>, full0: map<int,
                     real>)
    returns (hit: map<int, real>, recall: map<int, real>, full: map<int, real>)
    requires r.Scorable()
    ensures Adding(hit, hit0, Hit, r, ks, |ks|)
    ensures Adding(recall, recall0, Recall, r, ks, |ks|)
    ensures Adding(full, full0, Full, r, ks, |ks|)
  {
    hit, recall, full := hit0, recall0, full0;
    for j := 0 to |ks|
      invariant Adding(hit, hit0, Hit, r, ks, j)
      invariant Adding(recall, recall0, Recall, r, ks, j)
      invariant Adding(full, full0, Full, r, ks, j)
    {
      var k := ks[j];
      var within := CountWithin(r.ranks, k);
      var hit1, recall1, full1 := hit, recall, full;
      if within > 0 {
        hit1 := hit[k := Read(hit, k) + 1.0];
      }
      recall1 := recall[k := Read(recall, k) + within as real / r.evidencePresent as real];
      if within == r.evidencePresent {
        full1 := full[k := Read(full, k) + 1.0];
      }
      assert Raised(hit1, hit, k, Gauge(Hit, r, k));
      assert Raised(recall1, recall, k, Gauge(Recall, r, k));
      assert Raised(full1, full, k, Gauge(Full, r, k));
      AddAtDepth(hit, hit1, hit0, Hit, r, ks, j);
      AddAtDepth(recall, recall1, recall0, Recall, r, ks, j);
      AddAtDepth(full, full1, full0, Full, r, ks, j);
      hit, recall, full := hit1, recall1, full1;
    }
  }

  ghost predicate Divided(acc: map<int, real>, before: map<int, real>, ks: seq<int>, n: real, j: nat)
    requires n > 0.0 && j <= |ks|
  {
    forall k :: Read(acc, k) == Shrink(Read(before, k), n, Listed(ks, j, k))
  }

  method DivideAll(before: map<int, real>, ks: seq<int>, n: real) returns (acc: map<int, real>)
    requires n > 0.0
    ensures Divided(acc, before, ks, n, |ks|)
  {
    acc := before;
    for j := 0 to |ks|
      invariant Divided(acc, before, ks, n, j)
    {
      var k := ks[j];
      ghost var was := acc;
      acc := acc[k := Read(acc, k) / n];
      assert forall q :: Read(acc, q) == if q == k then Read(was, q) / n else Read(was, q);
    }
  }

  /** What is reported for a metric at depth `k`. */
  function Reported(metric: Metric, results: seq<QuestionResult>, ks: seq<int>, k: int): real {
    var n := Scored(results, |results|);
    if n == 0 then 0.0
    else Shrink(Times(Listed(ks, |ks|, k), Total(metric, results, |results|, k)), n as real, Listed(ks, |ks|, k))
  }

  function Average(total: real, n: nat): real {
    if n == 0 then 0.0 else total / n as real
  }

  function Mean(metric: Metric, results: seq<QuestionResult>, k: int): real {
    Average(Total(metric, results, |results|, k), Scored(results, |results|))
  }

  ghost predicate Reports(acc: map<int, real>, metric: Metric, results: seq<QuestionResult>, ks: seq<int>) {
    forall k :: Read(acc, k) == Reported(metric, results, ks, k)
  }

  method AggregateResults(gain: nat -> real, results: seq<QuestionResult>, ks: seq<int>) returns (agg: Aggregate)
    requires OneBased(results)
    ensures agg.n == Scored(results, |results|) && agg.n + agg.unscorable == |results|
    ensures Reports(agg.hit, Hit, results, ks) && Reports(agg.recall, Recall, results, ks) &&
            Reports(agg.full, Full, results, ks)
    ensures agg.mrr == Average(MrrTotal(results, |results|), agg.n)
    ensures agg.ndcg == Average(NdcgTotal(gain, results, |results|), agg.n)
  {
    var n, unscorable, mrr, ndcg := 0, 0, 0.0, 0.0;
    var hit: map<int, real>, recall: map<int, real>, full: map<int, real> := map[], map[], map[];
    NothingAccumulated(Hit, results, ks);
    NothingAccumulated(Recall, results, ks);
    NothingAccumulated(Full, results, ks);
    for i := 0 to |results|
      invariant n == Scored(results, i) && n + unscorable == i
      invariant mrr == MrrTotal(results, i) && ndcg == NdcgTotal(gain, results, i)
      invariant Accumulated(hit, Hit, results, i, ks)
      invariant Accumulated(recall, Recall, results, i, ks)
      invariant Accumulated(full, Full, results, i, ks)
      invariant n == 0 ==> hit == map[] && recall == map[] && full == map[] && mrr == 0.0 && ndcg == 0.0
    {
      var r := results[i];
      if !r.Scorable() {
        unscorable := unscorable + 1;
        SkippedAccumulates(hit, Hit, results, i, ks);
        SkippedAccumulates(recall, Recall, results, i, ks);
        SkippedAccumulates(full, Full, results, i, ks);
        continue;
      }
      n := n + 1;
      var hit1, recall1, full1 := AddQuestion(r, ks, hit, recall, full);
      AddingAccumulates(hit1, hit, Hit, results, i, ks);
      AddingAccumulates(recall1, recall, Recall, results, i, ks);
      AddingAccumulates(full1, full, Full, results, i, ks);
      hit, recall, full := hit1, recall1, full1;
      mrr := mrr + Mrr(r.ranks, METRIC_DEPTH);
      var gained := ComputeNdcg(gain, r.ranks, r.evidencePresent, METRIC_DEPTH);
      ndcg := ndcg + gained;
    }
    if n == 0 {
      return Aggregate(n, unscorable, hit, recall, full, mrr, ndcg);
    }
    var hits := DivideAll(hit, ks, n as real);
    var recalls := DivideAll(recall, ks, n as real);
    var fulls := DivideAll(full, ks, n as real);
    return Aggregate(n, unscorable, hits, recalls, fulls, mrr / n as real, ndcg / n as real);
  }

  // ---- What the means promise

  /** The shape Score gives its results. */
  predicate WellFormed(r: QuestionResult) {
    Positive(r.ranks) && Sorted(r.ranks) && |r.ranks| <= r.evidencePresent
  }

  predicate AllWellFormed(results: seq<QuestionResult>) {
    forall i | 0 <= i < |results| :: WellFormed(results[i])
  }

  predicate DistinctDepths(ks: seq<int>) {
    forall i, j | 0 <= i < j < |ks| :: ks[i] != ks[j]
  }

  lemma {:induction false} ListedOnce(ks: seq<int>, n: nat, k: int)
    requires n <= |ks| && DistinctDepths(ks)
    ensures Listed(ks, n, k) == if k in ks[..n] then 1 else 0
  {
    if n > 0 {
      ListedOnce(ks, n - 1, k);
      assert ks[..n] == ks[..n - 1] + [ks[n - 1]];
    }
  }

  /** Distinct depths report plain means. */
  lemma DistinctDepthsReportMeans(metric: Metric, results: seq<QuestionResult>, ks: seq<int>, k: int)
    requires DistinctDepths(ks) && k in ks
    ensures Reported(metric, results, ks, k) == Mean(metric, results, k)
  {
    ListedOnce(ks, |ks|, k);
    assert ks[..|ks|] == ks;
    var total := Total(metric, results, |results|, k);
    assert Times(1, total) == Times(0, total) + total;
    if Scored(results, |results|) > 0 {
      var n := Scored(results, |results|) as real;
      assert Shrink(total, n, 1) == Shrink(total, n, 0) / n;
    }
  }

  lemma {:induction false} WithinGrows(ranks: seq<int>, n: nat, k: int, k': int)
    requires n <= |ranks| && k <= k'
    ensures Within(ranks, n, k) <= Within(ranks, n, k')
  {
    if n > 0 {
      WithinGrows(ranks, n - 1, k, k');
    }
  }

  lemma Share(a: nat, b: nat, c: nat)
    requires a <= b <= c && c > 0
    ensures 0.0 <= a as real / c as real <= b as real / c as real <= 1.0
    ensures a > 0 ==> a as real / c as real > 0.0
    ensures a as real / c as real == 1.0 <==> a == c
  {
    Portion(a as real, b as real, c as real);
    Portion(b as real, b as real, c as real);
  }

  lemma Portion(a: real, b: real, d: real)
    requires 0.0 <= a <= b <= d && d > 0.0
    ensures 0.0 <= a / d <= b / d <= 1.0
    ensures (a > 0.0 ==> a / d > 0.0) && (a / d == 1.0 <==> a == d)
  {
    var x, y := a / d, b / d;
    assert x * d == a && y * d == b;
    assert (y - x) * d == b - a && (1.0 - y) * d == d - b && (1.0 - x) * d == d - a;
    SignOf(x, d);
    SignOf(y - x, d);
    SignOf(1.0 - y, d);
    SignOf(1.0 - x, d);
  }

  lemma SignOf(x: real, d: real)
    requires d > 0.0
    ensures (x * d > 0.0 <==> x > 0.0) && (x * d == 0.0 <==> x == 0.0)
  {
    if x > 0.0 {
      assert x * d > 0.0;
    } else if x < 0.0 {
      assert (0.0 - x) * d > 0.0;
      assert (0.0 - x) * d == 0.0 - x * d;
    }
  }

  lemma GaugesAreOrdered(r: QuestionResult, k: int, k': int)
    requires WellFormed(r) && r.Scorable() && k <= k'
    ensures 0.0 <= Gauge(Full, r, k) <= Gauge(Recall, r, k) <= Gauge(Hit, r, k) <= 1.0
    ensures forall metric :: Gauge(metric, r, k) <= Gauge(metric, r, k')
  {
    WithinGrows(r.ranks, |r.ranks|, k, k');
    Share(Within(r.ranks, |r.ranks|, k), Within(r.ranks, |r.ranks|, k'), r.evidencePresent);
    forall metric ensures Gauge(metric, r, k) <= Gauge(metric, r, k') {
      match metric
      case Hit =>
      case Recall =>
      case Full =>
    }
  }

  lemma {:induction false} TotalsAreOrdered(results: seq<QuestionResult>, n: nat, k: int, k': int)
    requires n <= |results| && AllWellFormed(results) && k <= k'
    ensures 0.0 <= Total(Full, results, n, k) <= Total(Recall, results, n, k) <= Total(Hit, results, n, k)
    ensures Total(Hit, results, n, k) <= Scored(results, n) as real
    ensures forall metric :: Total(metric, results, n, k) <= Total(metric, results, n, k')
  {
    if n > 0 {
      TotalsAreOrdered(results, n - 1, k, k');
      if results[n - 1].Scorable() {
        GaugesAreOrdered(results[n - 1], k, k');
      }
    }
  }

  lemma AveragesAreOrdered(a: real, b: real, n: nat)
    requires 0.0 <= a <= b <= n as real
    ensures 0.0 <= Average(a, n) <= Average(b, n) <= 1.0
  {
    if n > 0 {
      var x, y, d := a / n as real, b / n as real, n as real;
      assert x * d == a && y * d == b;
    }
  }

  /** 0 <= Full <= Recall <= Hit <= 1 at each depth. */
  lemma MeansAreOrdered(results: seq<QuestionResult>, k: int)
    requires AllWellFormed(results)
    ensures 0.0 <= Mean(Full, results, k) <= Mean(Recall, results, k) <= Mean(Hit, results, k) <= 1.0
  {
    var n := Scored(results, |results|);
    TotalsAreOrdered(results, |results|, k, k);
    AveragesAreOrdered(Total(Full, results, |results|, k), Total(Recall, results, |results|, k), n);
    AveragesAreOrdered(Total(Recall, results, |results|, k), Total(Hit, results, |results|, k), n);
  }

  /** Each mean grows with the depth. */
  lemma MeansGrowWithDepth(metric: Metric, results: seq<QuestionResult>, k: int, k': int)
    requires AllWellFormed(results) && k <= k'
    ensures Mean(metric, results, k) <= Mean(metric, results, k')
  {
    TotalsAreOrdered(results, |results|, k, k');
    TotalsAreOrdered(results, |results|, k', k');
    AveragesAreOrdered(Total(metric, results, |results|, k), Total(metric, results, |results|, k'),
                       Scored(results, |results|));
  }

  lemma MrrIsAtMostHit(r: QuestionResult)
    requires WellFormed(r) && r.Scorable()
    ensures 0.0 <= Mrr(r.ranks, METRIC_DEPTH) <= Gauge(Hit, r, METRIC_DEPTH)
    ensures Mrr(r.ranks, METRIC_DEPTH) > 0.0 <==> Gauge(Hit, r, METRIC_DEPTH) == 1.0
  {
    WithinIsPrefix(r.ranks, |r.ranks|, METRIC_DEPTH);
    if r.ranks != [] {
      Share(1, r.ranks[0], r.ranks[0]);
      assert r.ranks[0] <= METRIC_DEPTH <==> 0 < Within(r.ranks, |r.ranks|, METRIC_DEPTH);
    }
  }

  lemma {:induction false} MrrTotalIsAtMostHits(results: seq<QuestionResult>, n: nat)
    requires n <= |results| && AllWellFormed(results)
    ensures OneBased(results)
    ensures 0.0 <= MrrTotal(results, n) <= Total(Hit, results, n, METRIC_DEPTH)
  {
    if n > 0 {
      MrrTotalIsAtMostHits(results, n - 1);
      if results[n - 1].Scorable() {
        MrrIsAtMostHit(results[n - 1]);
      }
    }
  }

  lemma {:induction false} NdcgTotalIsBounded(gain: nat -> real, results: seq<QuestionResult>, n: nat)
    requires n <= |results| && AllWellFormed(results) && Discount(gain)
    requires forall i | 0 <= i < |results| :: Strict(results[i].ranks)
    ensures OneBased(results)
    ensures 0.0 <= NdcgTotal(gain, results, n) <= Scored(results, n) as real
  {
    if n > 0 {
      NdcgTotalIsBounded(gain, results, n - 1);
      var r := results[n - 1];
      StrictIsDominated(r.ranks, |r.ranks|);
      NdcgIsShareOfIdeal(gain, r.ranks, r.evidencePresent, METRIC_DEPTH);
    }
  }

  /** The mean reciprocal rank lies between zero and the hit rate at its depth. */
  lemma MeanReciprocalRankIsAtMostHit(results: seq<QuestionResult>)
    requires AllWellFormed(results)
    ensures OneBased(results)
    ensures 0.0 <= Average(MrrTotal(results, |results|), Scored(results, |results|)) <= Mean(Hit, results, METRIC_DEPTH)
  {
    MrrTotalIsAtMostHits(results, |results|);
    TotalsAreOrdered(results, |results|, METRIC_DEPTH, METRIC_DEPTH);
    AveragesAreOrdered(MrrTotal(results, |results|), Total(Hit, results, |results|, METRIC_DEPTH),
                       Scored(results, |results|));
  }

  lemma MeanNdcgIsBounded(gain: nat -> real, results: seq<QuestionResult>)
    requires AllWellFormed(results) && Discount(gain)
    requires forall i | 0 <= i < |results| :: Strict(results[i].ranks)
    ensures OneBased(results)
    ensures 0.0 <= Average(NdcgTotal(gain, results, |results|), Scored(results, |results|)) <= 1.0
  {
    NdcgTotalIsBounded(gain, results, |results|);
    var total := NdcgTotal(gain, results, |results|);
    AveragesAreOrdered(total, total, Scored(results, |results|));
  }

  // ---- When what is reported is the mean

  function Power(n: nat, e: nat): nat {
    if e == 0 then 1 else n * Power(n, e - 1)
  }

  lemma Distribute(a: real, x: real)
    ensures (a + 1.0) * x == a * x + x
  {
  }

  lemma {:induction false} TimesIsProduct(m: nat, x: real)
    ensures Times(m, x) == m as real * x
  {
    if m > 0 {
      TimesIsProduct(m - 1, x);
      Distribute((m - 1) as real, x);
    }
  }

  lemma DivideTwice(x: real, p: real, n: real, power: real, once: real, twice: real)
    requires p > 0.0 && n > 0.0 && power == n * p && once == x / p && twice == once / n
    ensures power > 0.0 && twice == x / power
  {
    assert once * p == x && twice * n == once;
    assert twice * power == twice * n * p;
  }

  lemma PowerGrows(n: nat, m: nat)
    requires n > 0 && m > 0
    ensures Power(n, m) as real == n as real * Power(n, m - 1) as real
  {
    var p := Power(n, m - 1);
    assert Power(n, m) == n * p;
  }

  lemma {:induction false} PowerIsPositive(n: nat, m: nat)
    requires n > 0
    ensures Power(n, m) > 0
  {
    if m > 0 {
      PowerIsPositive(n, m - 1);
    }
  }

  lemma {:induction false} ShrinkIsQuotient(x: real, n: nat, m: nat)
    requires n > 0
    ensures Power(n, m) > 0 && Shrink(x, n as real, m) == x / Power(n, m) as real
  {
    if m > 0 {
      ShrinkIsQuotient(x, n, m - 1);
      PowerGrows(n, m);
      DivideTwice(x, Power(n, m - 1) as real, n as real, Power(n, m) as real, Shrink(x, n as real, m - 1),
                  Shrink(x, n as real, m));
    }
  }

  lemma AtLeastTwice(n: nat, p: nat)
    requires n >= 2
    ensures n * p >= 2 * p
  {
    var d: nat := n - 2;
    assert d * p >= 0;
    assert n * p == d * p + 2 * p;
  }

  lemma GrowsPast(n: nat, p: nat, m: nat)
    requires m > 1 && (n == 1 ==> p == 1) && (n >= 2 ==> p >= m - 1 && (m > 3 ==> p > m - 1))
    requires m == 2 ==> p == 1
    ensures n == 1 ==> n * p == 1
    ensures n >= 2 ==> n * p >= m && (m > 2 ==> n * p > m) && (m == 2 ==> n * p == n)
  {
    if n >= 2 {
      AtLeastTwice(n, p);
    }
  }

  /** n^(m - 1) is m for one listing, or two of each. */
  lemma {:induction false} PowerMeets(n: nat, m: nat)
    requires n > 0 && m > 0
    ensures Power(n, m - 1) == m <==> m == 1 || (m == 2 && n == 2)
    ensures n >= 2 ==> Power(n, m - 1) >= m && (m > 2 ==> Power(n, m - 1) > m)
    ensures n == 1 ==> Power(n, m - 1) == 1
  {
    if m > 1 {
      PowerMeets(n, m - 1);
      GrowsPast(n, Power(n, m - 2), m);
    }
  }

  lemma QuotientsAgree(t: real, m: real, n: real, q: real, product: real, power: real, reported: real)
    requires n > 0.0 && q > 0.0 && power > 0.0
    requires product == m * t && power == n * q && reported == product / power
    ensures reported == t / n <==> t == 0.0 || m == q
  {
    var mean := t / n;
    assert reported * (n * q) == m * t && mean * n == t;
    assert mean * (n * q) == mean * n * q == t * q;
    if reported == mean {
      assert m * t == q * t;
      assert (m - q) * t == 0.0;
    }
    if m == q {
      assert (reported - mean) * (n * q) == 0.0;
    }
  }

  lemma Quantities(total: real, m: nat, n: nat) returns (product: real, power: real, q: real)
    requires n > 0 && m > 0
    ensures power > 0.0 && q > 0.0 && product == m as real * total && power == n as real * q
    ensures Shrink(Times(m, total), n as real, m) == product / power
    ensures q == m as real <==> m == 1 || (m == 2 && n == 2)
  {
    product, power, q := Times(m, total), Power(n, m) as real, Power(n, m - 1) as real;
    TimesIsProduct(m, total);
    ShrinkIsQuotient(product, n, m);
    PowerMeets(n, m);
    PowerGrows(n, m);
    PowerIsPositive(n, m - 1);
  }

  lemma ListedTimesIsMeanIff(total: real, m: nat, n: nat)
    requires n > 0 && m > 0
    ensures Shrink(Times(m, total), n as real, m) == total / n as real <==> total == 0.0 || m == 1 || (m == 2 && n == 2)
  {
    var product, power, q := Quantities(total, m, n);
    QuotientsAgree(total, m as real, n as real, q, product, power, Shrink(Times(m, total), n as real, m));
  }

  /**
   * What is reported at a listed depth is the mean over the scorable questions exactly when the
   * metric is zero throughout, or the depth is listed once, or twice for two scorable questions.
   */
  lemma ReportedIsMeanIff(metric: Metric, results: seq<QuestionResult>, ks: seq<int>, k: int)
    requires Listed(ks, |ks|, k) > 0 && Scored(results, |results|) > 0
    ensures var m, n := Listed(ks, |ks|, k), Scored(results, |results|);
      Reported(metric, results, ks, k) == Mean(metric, results, k) <==>
        Total(metric, results, |results|, k) == 0.0 || m == 1 || (m == 2 && n == 2)
  {
    ListedTimesIsMeanIff(Total(metric, results, |results|, k), Listed(ks, |ks|, k), Scored(results, |results|));
  }

  /** The depths the eval command asks for: four of its own, and the one it searches to. */
  function CommandDepths(topK: int): seq<int> {
    [1, 3, 5, 10, topK]
  }

  lemma CommandLists(topK: int, k: int)
    ensures Listed(CommandDepths(topK), 5, k) == (if k in {1, 3, 5, 10} then 1 else 0) + if k == topK then 1 else 0
  {
    var ks := CommandDepths(topK);
    assert Listed(ks, 1, k) == if k == 1 then 1 else 0;
    assert Listed(ks, 2, k) == Listed(ks, 1, k) + if k == 3 then 1 else 0;
    assert Listed(ks, 3, k) == Listed(ks, 2, k) + if k == 5 then 1 else 0;
    assert Listed(ks, 4, k) == Listed(ks, 3, k) + if k == 10 then 1 else 0;
    assert Listed(ks, 5, k) == Listed(ks, 4, k) + if k == topK then 1 else 0;
  }

  /**
   * So the command's report is a mean at every one of its depths, unless it searches to 1, 3, 5 or
   * 10, some question scores there, and the scorable questions are not two.
   */
  lemma CommandReportsMeanIff(metric: Metric, results: seq<QuestionResult>, topK: int, k: int)
    requires k in CommandDepths(topK) && Scored(results, |results|) > 0
    ensures Reported(metric, results, CommandDepths(topK), k) == Mean(metric, results, k) <==>
            Total(metric, results, |results|, k) == 0.0 || k != topK || topK !in {1, 3, 5, 10} ||
            Scored(results, |results|) == 2
  {
    CommandLists(topK, k);
    ReportedIsMeanIff(metric, results, CommandDepths(topK), k);
  }

  /** One question, found first, searched to depth five: the reported hit rate is two. */
  lemma RepeatedDepthIsNotAMean()
    ensures Reported(Hit, [QuestionResult(1, 1, [1])], CommandDepths(5), 5) == 2.0
  {
    var results := [QuestionResult(1, 1, [1])];
    assert Within([1], 1, 5) == 1;
    assert Total(Hit, results, 1, 5) == 1.0 && Scored(results, 1) == 1;
    CommandLists(5, 5);
    assert Times(1, 1.0) == 1.0 && Times(2, 1.0) == 2.0;
    assert Shrink(2.0, 1.0, 1) == 2.0 && Shrink(2.0, 1.0, 2) == 2.0;
  }
}
