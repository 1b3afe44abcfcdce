/** What the ranks and nDCG of a question promise. */
module EvalLaws {
  import opened Ordering
  import opened EvalMetrics

  // ---- When ranks are strict

  /** No two present turns are first covered by the same document. */
  ghost predicate FirstCoversApart(truth: set<string>, retrieved: seq<Doc>, sources: Sources) {
    forall s, t | s in truth && t in truth && s != t && FirstRank(s, retrieved, |retrieved|, sources) > 0 ::
      FirstRank(s, retrieved, |retrieved|, sources) != FirstRank(t, retrieved, |retrieved|, sources)
  }

  /** Each retrieved document is evidence for at most one turn. */
  ghost predicate OneTurnPerDoc(truth: set<string>, retrieved: seq<Doc>, sources: Sources) {
    forall i, s, t | 0 <= i < |retrieved| && s in truth && t in truth &&
        s in SourcesOf(sources, retrieved[i]) && t in SourcesOf(sources, retrieved[i]) :: s == t
  }

  lemma AtMostOne<T>(s: set<T>)
    requires forall x, y | x in s && y in s :: x == y
    ensures |s| <= 1
  {
    if x :| x in s {
      assert s == {x};
    }
  }

  lemma AtLeastTwo<T>(s: set<T>, x: T, y: T)
    requires x in s && y in s && x != y
    ensures |s| >= 2
  {
    assert {x, y} <= s;
    assert s == {x, y} + (s - {x, y});
  }

  lemma StrictIsCountedOnce(ranks: seq<int>)
    requires Sorted(ranks)
    ensures Strict(ranks) <==> forall x :: multiset(ranks)[x] <= 1
  {
    DistinctCounts(ranks);
    assert Strict(ranks) <==> Distinct(ranks);
  }

  lemma ApartIsFewPerRank(truth: set<string>, retrieved: seq<Doc>, sources: Sources)
    ensures FirstCoversApart(truth, retrieved, sources) <==>
            forall r: nat | r > 0 :: |TurnsAt(r, truth, retrieved, sources)| <= 1
  {
    forall r: nat | r > 0 && FirstCoversApart(truth, retrieved, sources)
      ensures |TurnsAt(r, truth, retrieved, sources)| <= 1
    {
      AtMostOne(TurnsAt(r, truth, retrieved, sources));
    }
    forall s, t | s in truth && t in truth && s != t && FirstRank(s, retrieved, |retrieved|, sources) > 0 &&
        FirstRank(s, retrieved, |retrieved|, sources) == FirstRank(t, retrieved, |retrieved|, sources)
      ensures |TurnsAt(FirstRank(s, retrieved, |retrieved|, sources), truth, retrieved, sources)| >= 2
    {
      AtLeastTwo(TurnsAt(FirstRank(s, retrieved, |retrieved|, sources), truth, retrieved, sources), s, t);
    }
  }

  lemma RankCounts(ranks: seq<int>, truth: set<string>, retrieved: seq<Doc>, sources: Sources, x: int)
    requires RanksOf(ranks, truth, retrieved, sources)
    ensures x <= 0 ==> multiset(ranks)[x] == 0
    ensures x > 0 ==> multiset(ranks)[x] == |TurnsAt(x, truth, retrieved, sources)|
  {
    assert x in multiset(ranks) <==> x in ranks;
  }

  /** The ranks are strictly increasing exactly when no document is the first to cover two turns. */
  lemma RanksAreStrictIff(ranks: seq<int>, truth: set<string>, retrieved: seq<Doc>, sources: Sources)
    requires RanksOf(ranks, truth, retrieved, sources)
    ensures Strict(ranks) <==> FirstCoversApart(truth, retrieved, sources)
  {
    StrictIsCountedOnce(ranks);
    ApartIsFewPerRank(truth, retrieved, sources);
    forall x ensures multiset(ranks)[x] == if x <= 0 then 0 else |TurnsAt(x, truth, retrieved, sources)| {
      RankCounts(ranks, truth, retrieved, sources, x);
    }
    if Strict(ranks) {
      forall r: nat | r > 0 ensures |TurnsAt(r, truth, retrieved, sources)| <= 1 {
        assert multiset(ranks)[r] <= 1;
      }
    }
  }

  lemma RanksFitPresent(ranks: seq<int>, truth: set<string>, retrieved: seq<Doc>, sources: Sources)
    requires RanksOf(ranks, truth, retrieved, sources)
    ensures |ranks| <= |truth| && Positive(ranks)
  {
    assert forall i | 0 <= i < |ranks| :: ranks[i] in ranks;
    var unseen := TurnsAt(0, truth, retrieved, sources);
    assert truth == (truth - unseen) + unseen;
  }

  // ---- nDCG against its ideal

  /** The i-th rank is at least i, counting from 1: no document is credited twice ahead of its place. */
  predicate Dominated(ranks: seq<int>) {
    forall i | 0 <= i < |ranks| :: ranks[i] >= i + 1
  }

  predicate PerfectUpTo(ranks: seq<int>, m: int) {
    m <= |ranks| && forall i | 0 <= i < m :: ranks[i] == i + 1
  }

  lemma {:induction false} StrictIsDominated(ranks: seq<int>, n: nat)
    requires Strict(ranks) && Positive(ranks) && n <= |ranks|
    ensures forall i | 0 <= i < n :: ranks[i] >= i + 1
  {
    if n > 0 {
      StrictIsDominated(ranks, n - 1);
      assert n > 1 ==> ranks[n - 2] < ranks[n - 1];
    }
  }

  lemma {:induction false} WithinIsPrefix(ranks: seq<int>, n: nat, k: int)
    requires Sorted(ranks) && n <= |ranks|
    ensures forall i | 0 <= i < n :: ranks[i] <= k <==> i < Within(ranks, n, k)
  {
    if n > 0 {
      WithinIsPrefix(ranks, n - 1, k);
      assert forall i | 0 <= i < n - 1 :: ranks[i] <= ranks[n - 1];
      if ranks[n - 1] <= k && n > 1 {
        assert ranks[n - 2] <= k;
      }
    }
  }

  /** One more rank within the depth: it earns at most its place's gain, and all of it only at its place. */
  lemma DcgStep(gain: nat -> real, ranks: seq<int>, n: nat)
    requires Discount(gain) && 0 < n <= |ranks| && ranks[n - 1] >= n
    ensures 0.0 < gain(ranks[n - 1]) <= gain(n) && (gain(ranks[n - 1]) == gain(n) <==> ranks[n - 1] == n)
    ensures PerfectUpTo(ranks, n) <==> PerfectUpTo(ranks, n - 1) && ranks[n - 1] == n
  {
    var r := ranks[n - 1];
    assert gain(r) > gain(r + 1) > 0.0;
    assert r > n ==> gain(n) > gain(r);
  }

  lemma {:induction false} DcgIsAtMostIdeal(gain: nat -> real, ranks: seq<int>, n: nat, k: int)
    requires Discount(gain) && Sorted(ranks) && Dominated(ranks) && n <= |ranks|
    ensures var m := Within(ranks, n, k);
      && 0.0 <= Dcg(gain, ranks, n, k) <= Ideal(gain, m)
      && (Dcg(gain, ranks, n, k) == Ideal(gain, m) <==> PerfectUpTo(ranks, m))
  {
    if n > 0 {
      DcgIsAtMostIdeal(gain, ranks, n - 1, k);
      if ranks[n - 1] <= k {
        WithinIsPrefix(ranks, n - 1, k);
        assert n > 1 ==> ranks[n - 2] <= ranks[n - 1];
        assert Within(ranks, n - 1, k) == n - 1;
        DcgStep(gain, ranks, n);
      }
    }
  }

  lemma {:induction false} IdealGrows(gain: nat -> real, a: nat, b: nat)
    requires Discount(gain) && a <= b
    ensures Ideal(gain, a) <= Ideal(gain, b)
    ensures Ideal(gain, a) == Ideal(gain, b) <==> a == b
    decreases b
  {
    if a < b {
      assert gain(b) > gain(b + 1) > 0.0;
      IdealGrows(gain, a, b - 1);
    }
  }

  lemma Ratio(a: real, b: real)
    requires 0.0 <= a <= b && b > 0.0
    ensures 0.0 <= a / b <= 1.0 && (a / b == 1.0 <==> a == b)
  {
    assert a / b * b == a;
  }

  /** nDCG is a share of the ideal, and the whole of it exactly when the top places are all taken. */
  lemma NdcgIsShareOfIdeal(gain: nat -> real, ranks: seq<int>, relevant: nat, k: int)
    requires Discount(gain) && Sorted(ranks) && Dominated(ranks) && |ranks| <= relevant
    ensures 0.0 <= Ndcg(gain, ranks, relevant, k) <= 1.0
    ensures var top := Min(relevant, k); Ndcg(gain, ranks, relevant, k) == 1.0 <==> top > 0 && PerfectUpTo(ranks, top)
  {
    var top := Min(relevant, k);
    if top > 0 {
      var m := Within(ranks, |ranks|, k);
      DcgIsAtMostIdeal(gain, ranks, |ranks|, k);
      WithinIsPrefix(ranks, |ranks|, k);
      assert m > 0 ==> ranks[m - 1] <= k;
      assert m <= top;
      IdealGrows(gain, m, top);
      IdealGrows(gain, 0, top);
      Ratio(Dcg(gain, ranks, |ranks|, k), Ideal(gain, top));
      if PerfectUpTo(ranks, top) {
        assert ranks[top - 1] <= k;
      }
    }
  }

  /** For a scored question whose documents are each evidence for one turn. */
  lemma ScoredNdcgIsBounded(gain: nat -> real, ranks: seq<int>, truth: set<string>, retrieved: seq<Doc>,
                            sources: Sources,
                            k: int)
    requires Discount(gain) && RanksOf(ranks, truth, retrieved, sources)
    requires OneTurnPerDoc(truth, retrieved, sources)
    ensures Strict(ranks) && Positive(ranks) && |ranks| <= |truth|
    ensures 0.0 <= Ndcg(gain, ranks, |truth|, k) <= 1.0
    ensures var top := Min(|truth|, k); Ndcg(gain, ranks, |truth|, k) == 1.0 <==> top > 0 && PerfectUpTo(ranks, top)
  {
    RanksAreStrictIff(ranks, truth, retrieved, sources);
    RanksFitPresent(ranks, truth, retrieved, sources);
    StrictIsDominated(ranks, |ranks|);
    NdcgIsShareOfIdeal(gain, ranks, |truth|, k);
  }
}
