/** The metrics read off the evidence itself: which present turns the leading documents cover. */
module EvalReadings {
  import opened Ordering
  import opened EvalMetrics
  import opened EvalLaws
  import opened EvalAggregate

  /** Turn `s` is covered by one of the first `k` documents. */
  predicate CoveredBy(s: string, retrieved: seq<Doc>, sources: Sources, k: int) {
    exists i | 0 <= i < k && i < |retrieved| :: retrieved[i] in sources && s in sources[retrieved[i]]
  }

  function Covered(truth: set<string>, retrieved: seq<Doc>, sources: Sources, k: int): set<string> {
    set s | s in truth && CoveredBy(s, retrieved, sources, k)
  }

  lemma CoveredIffRanked(s: string, retrieved: seq<Doc>, sources: Sources, k: int)
    ensures CoveredBy(s, retrieved, sources, k) <==> 0 < FirstRank(s, retrieved, |retrieved|, sources) <= k
  {
    var rank := FirstRank(s, retrieved, |retrieved|, sources);
    if rank > 0 {
      assert s in SourcesOf(sources, retrieved[rank - 1]);
    }
    if i :| 0 <= i < k && i < |retrieved| && retrieved[i] in sources && s in sources[retrieved[i]] {
      assert s in SourcesOf(sources, retrieved[i]);
    }
  }

  lemma OneMoreDocument(truth: set<string>, retrieved: seq<Doc>, sources: Sources, k: nat)
    requires k > 0
    ensures |Covered(truth, retrieved, sources, k)| ==
            |Covered(truth, retrieved, sources, k - 1)| + |TurnsAt(k, truth, retrieved, sources)|
  {
    var now, before := Covered(truth, retrieved, sources, k), Covered(truth, retrieved, sources, k - 1);
    var newly := TurnsAt(k, truth, retrieved, sources);
    forall s | s in truth
      ensures s in now <==> s in before || s in newly
      ensures !(s in before && s in newly)
    {
      CoveredIffRanked(s, retrieved, sources, k);
      CoveredIffRanked(s, retrieved, sources, k - 1);
    }
    assert now == before + newly && before * newly == {};
  }

  lemma {:induction false} WithinOneMore(ranks: seq<int>, n: nat, k: int)
    requires n <= |ranks|
    ensures Within(ranks, n, k) == Within(ranks, n, k - 1) + multiset(ranks[..n])[k]
  {
    if n > 0 {
      WithinOneMore(ranks, n - 1, k);
      assert ranks[..n] == ranks[..n - 1] + [ranks[n - 1]];
    }
  }

  lemma {:induction false} NoneWithin(ranks: seq<int>, n: nat)
    requires n <= |ranks| && Positive(ranks)
    ensures Within(ranks, n, 0) == 0
  {
    if n > 0 {
      NoneWithin(ranks, n - 1);
    }
  }

  lemma OneMorePlace(ranks: seq<int>, truth: set<string>, retrieved: seq<Doc>, sources: Sources, k: nat)
    requires RanksOf(ranks, truth, retrieved, sources) && k > 0
    ensures Within(ranks, |ranks|, k) ==
            Within(ranks, |ranks|, k - 1) + |TurnsAt(k, truth, retrieved, sources)|
  {
    WithinOneMore(ranks, |ranks|, k);
    assert ranks[..|ranks|] == ranks;
    RankCounts(ranks, truth, retrieved, sources, k);
  }

  lemma NoPlace(ranks: seq<int>, truth: set<string>, retrieved: seq<Doc>, sources: Sources)
    requires RanksOf(ranks, truth, retrieved, sources)
    ensures Within(ranks, |ranks|, 0) == 0 && Covered(truth, retrieved, sources, 0) == {}
  {
    RanksFitPresent(ranks, truth, retrieved, sources);
    NoneWithin(ranks, |ranks|);
  }

  ghost predicate StepsAlike(ranks: seq<int>, truth: set<string>, retrieved: seq<Doc>, sources: Sources, k: nat) {
    k > 0 ==>
      Within(ranks, |ranks|, k) - Within(ranks, |ranks|, k - 1) ==
      |Covered(truth, retrieved, sources, k)| - |Covered(truth, retrieved, sources, k - 1)|
  }

  lemma {:induction false} StepsAdd(ranks: seq<int>, truth: set<string>, retrieved: seq<Doc>, sources: Sources, k: nat)
    requires forall j: nat :: StepsAlike(ranks, truth, retrieved, sources, j)
    requires Within(ranks, |ranks|, 0) == |Covered(truth, retrieved, sources, 0)|
    ensures Within(ranks, |ranks|, k) == |Covered(truth, retrieved, sources, k)|
  {
    if k > 0 {
      StepsAdd(ranks, truth, retrieved, sources, k - 1);
      assert StepsAlike(ranks, truth, retrieved, sources, k);
    }
  }

  /** The ranks within `k` are as many as the present turns the first `k` documents cover. */
  lemma WithinIsCovered(ranks: seq<int>, truth: set<string>, retrieved: seq<Doc>, sources: Sources, k: nat)
    requires RanksOf(ranks, truth, retrieved, sources)
    ensures Within(ranks, |ranks|, k) == |Covered(truth, retrieved, sources, k)|
  {
    forall j: nat ensures StepsAlike(ranks, truth, retrieved, sources, j) {
      if j > 0 {
        OneMorePlace(ranks, truth, retrieved, sources, j);
        OneMoreDocument(truth, retrieved, sources, j);
      }
    }
    NoPlace(ranks, truth, retrieved, sources);
    StepsAdd(ranks, truth, retrieved, sources, k);
  }

  lemma AllCovered(truth: set<string>, covered: set<string>)
    requires covered <= truth
    ensures |covered| <= |truth| && (|covered| == |truth| <==> covered == truth)
  {
    assert truth == covered + (truth - covered);
  }

  /**
   * A scored question at depth `k`: a hit when the first `k` documents cover some present turn,
   * full when they cover every one, and recall the share of the present turns they cover.
   */
  lemma GaugesAreCoverage(r: QuestionResult, truth: set<string>, retrieved: seq<Doc>, sources: Sources, k: nat)
    requires RanksOf(r.ranks, truth, retrieved, sources) && r.evidencePresent == |truth| && truth != {}
    ensures var covered := Covered(truth, retrieved, sources, k);
      && r.Scorable()
      && Gauge(Hit, r, k) == (if covered != {} then 1.0 else 0.0)
      && Gauge(Recall, r, k) == |covered| as real / |truth| as real
      && Gauge(Full, r, k) == (if covered == truth then 1.0 else 0.0)
  {
    WithinIsCovered(r.ranks, truth, retrieved, sources, k);
    AllCovered(truth, Covered(truth, retrieved, sources, k));
    assert |truth| > 0;
    assert |Covered(truth, retrieved, sources, k)| > 0 <==> Covered(truth, retrieved, sources, k) != {};
  }

  lemma {:induction false} NoRankUpTo(ranks: seq<int>, n: nat, k: int)
    requires n <= |ranks| && Sorted(ranks)
    ensures Within(ranks, n, k) == 0 <==> n == 0 || ranks[0] > k
  {
    if n > 0 {
      NoRankUpTo(ranks, n - 1, k);
    }
  }

  lemma MrrFromWithin(ranks: seq<int>, r: nat, k: int)
    requires Positive(ranks) && Sorted(ranks) && r > 0
    requires Within(ranks, |ranks|, r - 1) == 0 && Within(ranks, |ranks|, r) > 0
    ensures Mrr(ranks, k) == if r <= k then 1.0 / r as real else 0.0
  {
    NoRankUpTo(ranks, |ranks|, r - 1);
    NoRankUpTo(ranks, |ranks|, r);
  }

  /** The reciprocal rank is 1 / r for the first document, at place r, that covers a present turn; 0 past `k`. */
  lemma MrrIsReciprocal(ranks: seq<int>, truth: set<string>, retrieved: seq<Doc>, sources: Sources, r: nat, k: int)
    requires RanksOf(ranks, truth, retrieved, sources) && r > 0
    requires Covered(truth, retrieved, sources, r - 1) == {} && Covered(truth, retrieved, sources, r) != {}
    ensures Positive(ranks) && Mrr(ranks, k) == if r <= k then 1.0 / r as real else 0.0
  {
    RanksFitPresent(ranks, truth, retrieved, sources);
    WithinIsCovered(ranks, truth, retrieved, sources, r - 1);
    WithinIsCovered(ranks, truth, retrieved, sources, r);
    assert |Covered(truth, retrieved, sources, r)| > 0;
    MrrFromWithin(ranks, r, k);
  }

  /** And zero when no retrieved document covers one. */
  lemma MrrOfNothing(ranks: seq<int>, truth: set<string>, retrieved: seq<Doc>, sources: Sources, k: int)
    requires RanksOf(ranks, truth, retrieved, sources) && Covered(truth, retrieved, sources, |retrieved|) == {}
    ensures Positive(ranks) && Mrr(ranks, k) == 0.0
  {
    RanksFitPresent(ranks, truth, retrieved, sources);
    WithinIsCovered(ranks, truth, retrieved, sources, |retrieved|);
    NoRankUpTo(ranks, |ranks|, |retrieved|);
    FirstRankIsAPlace(ranks, truth, retrieved, sources);
  }

  lemma FirstRankIsAPlace(ranks: seq<int>, truth: set<string>, retrieved: seq<Doc>, sources: Sources)
    requires RanksOf(ranks, truth, retrieved, sources)
    ensures ranks != [] ==> 1 <= ranks[0] <= |retrieved|
  {
    if ranks != [] {
      assert ranks[0] in ranks;
    }
  }

  // ---- Gains

  /** The present turns that no document before place `k` covers, and the one at `k` does. */
  function NewAt(truth: set<string>, retrieved: seq<Doc>, sources: Sources, k: nat): nat
    requires k > 0
  {
    var newly := Covered(truth, retrieved, sources, k) - Covered(truth, retrieved, sources, k - 1);
    |newly|
  }

  /** Each place up to `k` gains once for every turn it is the first to cover. */
  function GainByPlace(gain: nat -> real, truth: set<string>, retrieved: seq<Doc>, sources: Sources, k: nat): real {
    if k == 0 then 0.0
    else
      GainByPlace(gain, truth, retrieved, sources, k - 1) + Times(NewAt(truth, retrieved, sources, k), gain(k))
  }

  lemma {:induction false} DcgOneMore(gain: nat -> real, ranks: seq<int>, n: nat, k: nat)
    requires n <= |ranks| && Positive(ranks) && k > 0
    ensures Dcg(gain, ranks, n, k) == Dcg(gain, ranks, n, k - 1) + Times(multiset(ranks[..n])[k], gain(k))
  {
    if n > 0 {
      DcgOneMore(gain, ranks, n - 1, k);
      assert ranks[..n] == ranks[..n - 1] + [ranks[n - 1]];
    }
  }

  lemma {:induction false} NothingGained(gain: nat -> real, ranks: seq<int>, n: nat)
    requires n <= |ranks| && Positive(ranks)
    ensures Dcg(gain, ranks, n, 0) == 0.0
  {
    if n > 0 {
      NothingGained(gain, ranks, n - 1);
    }
  }

  lemma NewlyRanked(truth: set<string>, retrieved: seq<Doc>, sources: Sources, k: nat)
    requires k > 0
    ensures NewAt(truth, retrieved, sources, k) == |TurnsAt(k, truth, retrieved, sources)|
  {
    var newly := Covered(truth, retrieved, sources, k) - Covered(truth, retrieved, sources, k - 1);
    forall s | s in truth ensures s in newly <==> s in TurnsAt(k, truth, retrieved, sources) {
      CoveredIffRanked(s, retrieved, sources, k);
      CoveredIffRanked(s, retrieved, sources, k - 1);
    }
    assert newly == TurnsAt(k, truth, retrieved, sources);
  }

  ghost predicate GainsAlike(gain: nat -> real, ranks: seq<int>, truth: set<string>, retrieved: seq<Doc>,
                             sources: Sources, k: nat)
    requires Positive(ranks)
  {
    k > 0 ==>
      Dcg(gain, ranks, |ranks|, k) ==
      Dcg(gain, ranks, |ranks|, k - 1) + Times(NewAt(truth, retrieved, sources, k), gain(k))
  }

  lemma PlaceGains(gain: nat -> real, ranks: seq<int>, truth: set<string>, retrieved: seq<Doc>, sources: Sources,
                   k: nat)
    requires RanksOf(ranks, truth, retrieved, sources) && Positive(ranks)
    ensures GainsAlike(gain, ranks, truth, retrieved, sources, k)
  {
    if k > 0 {
      DcgOneMore(gain, ranks, |ranks|, k);
      assert ranks[..|ranks|] == ranks;
      RankCounts(ranks, truth, retrieved, sources, k);
      NewlyRanked(truth, retrieved, sources, k);
    }
  }

  lemma {:induction false} GainsAdd(gain: nat -> real, ranks: seq<int>, truth: set<string>, retrieved: seq<Doc>,
                                    sources: Sources, k: nat)
    requires Positive(ranks) && forall j: nat :: GainsAlike(gain, ranks, truth, retrieved, sources, j)
    requires Dcg(gain, ranks, |ranks|, 0) == 0.0
    ensures Dcg(gain, ranks, |ranks|, k) == GainByPlace(gain, truth, retrieved, sources, k)
  {
    if k > 0 {
      GainsAdd(gain, ranks, truth, retrieved, sources, k - 1);
      assert GainsAlike(gain, ranks, truth, retrieved, sources, k);
    }
  }

  /** The gain a scored question accumulates is that of each turn at the place that first covers it. */
  lemma DcgIsGainByPlace(gain: nat -> real, ranks: seq<int>, truth: set<string>, retrieved: seq<Doc>,
                         sources: Sources, k: nat)
    requires RanksOf(ranks, truth, retrieved, sources)
    ensures Positive(ranks) && Dcg(gain, ranks, |ranks|, k) == GainByPlace(gain, truth, retrieved, sources, k)
  {
    RanksFitPresent(ranks, truth, retrieved, sources);
    NothingGained(gain, ranks, |ranks|);
    forall j: nat ensures GainsAlike(gain, ranks, truth, retrieved, sources, j) {
      PlaceGains(gain, ranks, truth, retrieved, sources, j);
    }
    GainsAdd(gain, ranks, truth, retrieved, sources, k);
  }

  // ---- Sums over questions

  /** What one question adds to each of the sums. */
  lemma OneQuestion(gain: nat -> real, metric: Metric, r: QuestionResult, k: int)
    requires Positive(r.ranks)
    ensures OneBased([r])
    ensures Scored([r], 1) == if r.Scorable() then 1 else 0
    ensures Total(metric, [r], 1, k) == if r.Scorable() then Gauge(metric, r, k) else 0.0
    ensures MrrTotal([r], 1) == if r.Scorable() then Mrr(r.ranks, 10) else 0.0
    ensures NdcgTotal(gain, [r], 1) == if r.Scorable() then Ndcg(gain, r.ranks, r.evidencePresent, 10) else 0.0
  {
    assert Scored([r], 0) == 0 && Total(metric, [r], 0, k) == 0.0 && MrrTotal([r], 0) == 0.0;
    assert NdcgTotal(gain, [r], 0) == 0.0;
  }

  /** Asking more questions adds theirs, so the sums are over all the questions, each once. */
  lemma {:induction false} SumsSplit(gain: nat -> real, metric: Metric, a: seq<QuestionResult>, b: seq<QuestionResult>,
                                     n: nat, k: int)
    requires n <= |b| && OneBased(a) && OneBased(b)
    ensures OneBased(a + b)
    ensures Scored(a + b, |a| + n) == Scored(a, |a|) + Scored(b, n)
    ensures Total(metric, a + b, |a| + n, k) == Total(metric, a, |a|, k) + Total(metric, b, n, k)
    ensures MrrTotal(a + b, |a| + n) == MrrTotal(a, |a|) + MrrTotal(b, n)
    ensures NdcgTotal(gain, a + b, |a| + n) == NdcgTotal(gain, a, |a|) + NdcgTotal(gain, b, n)
  {
    if n > 0 {
      SumsSplit(gain, metric, a, b, n - 1, k);
      assert (a + b)[|a| + n - 1] == b[n - 1];
    } else {
      SumsOfFront(gain, metric, a, b, |a|, k);
    }
  }

  lemma {:induction false} SumsOfFront(gain: nat -> real, metric: Metric, a: seq<QuestionResult>,
                                       b: seq<QuestionResult>, n: nat, k: int)
    requires n <= |a| && OneBased(a) && OneBased(b)
    ensures OneBased(a + b)
    ensures Scored(a + b, n) == Scored(a, n) && Total(metric, a + b, n, k) == Total(metric, a, n, k)
    ensures MrrTotal(a + b, n) == MrrTotal(a, n) && NdcgTotal(gain, a + b, n) == NdcgTotal(gain, a, n)
  {
    if n > 0 {
      SumsOfFront(gain, metric, a, b, n - 1, k);
    }
  }
}
