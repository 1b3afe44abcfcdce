/** What the fused ranking does and does not depend on. */
module FusionLaws {
  import opened Ordering
  import opened Uuid
  import opened Ranking
  import opened Fusion

  // ---- Pool order

  predicate DistinctMemories(s: seq<Memory>) {
    forall i, j | 0 <= i < j < |s| :: s[i].id != s[j].id
  }

  predicate DistinctPools(p: Pools) {
    DistinctIds(p.graph) && DistinctIds(p.vector) && DistinctMemories(p.entity)
  }

  /** The same pools, each in another order. */
  ghost predicate Rearranged(p: Pools, q: Pools) {
    && q == p.(graph := q.graph, vector := q.vector, entity := q.entity)
    && DistinctPools(p) && DistinctPools(q)
    && Elements(p.graph) == Elements(q.graph)
    && Elements(p.vector) == Elements(q.vector)
    && Elements(p.entity) == Elements(q.entity)
  }

  lemma {:induction false} LookupFinds(pool: seq<Result>, n: nat, id: Id, i: nat)
    requires n <= |pool| && i < n && pool[i].memory.id == id && DistinctIds(pool)
    ensures Last(pool, n, id) == i == First(pool, n, id)
  {
    if i < n - 1 {
      LookupFinds(pool, n - 1, id, i);
      assert pool[i].memory.id != pool[n - 1].memory.id;
    } else {
      LookupMisses(pool, n - 1, id);
    }
  }

  lemma {:induction false} LookupMisses(pool: seq<Result>, n: nat, id: Id)
    requires n <= |pool| && forall i | 0 <= i < n :: pool[i].memory.id != id
    ensures Last(pool, n, id) == -1 == First(pool, n, id)
  {
    if n > 0 {
      LookupMisses(pool, n - 1, id);
    }
  }

  lemma {:induction false} MemoryLookupFinds(pool: seq<Memory>, n: nat, id: Id, i: nat)
    requires n <= |pool| && i < n && pool[i].id == id && DistinctMemories(pool)
    ensures FirstMemory(pool, n, id) == i
  {
    if i < n - 1 {
      MemoryLookupFinds(pool, n - 1, id, i);
    } else {
      MemoryLookupMisses(pool, n - 1, id);
    }
  }

  lemma {:induction false} MemoryLookupMisses(pool: seq<Memory>, n: nat, id: Id)
    requires n <= |pool| && forall i | 0 <= i < n :: pool[i].id != id
    ensures FirstMemory(pool, n, id) == -1
  {
    if n > 0 {
      MemoryLookupMisses(pool, n - 1, id);
    }
  }

  /** Rearranging a pool of distinct memories changes where a lookup lands, not what it finds. */
  lemma SameLookup(a: seq<Result>, b: seq<Result>, id: Id)
    requires DistinctIds(a) && DistinctIds(b) && Elements(a) == Elements(b)
    ensures Last(a, |a|, id) == First(a, |a|, id) && Last(b, |b|, id) == First(b, |b|, id)
    ensures Last(a, |a|, id) >= 0 <==> Last(b, |b|, id) >= 0
    ensures Last(a, |a|, id) >= 0 ==> a[Last(a, |a|, id)] == b[Last(b, |b|, id)]
  {
    assert forall i | 0 <= i < |a| :: a[i] in Elements(a);
    assert forall i | 0 <= i < |b| :: b[i] in Elements(b);
    if i :| 0 <= i < |a| && a[i].memory.id == id {
      var j :| 0 <= j < |b| && b[j] == a[i];
      LookupFinds(a, |a|, id, i);
      LookupFinds(b, |b|, id, j);
    } else {
      LookupMisses(a, |a|, id);
      LookupMisses(b, |b|, id);
    }
  }

  lemma SameMemoryLookup(a: seq<Memory>, b: seq<Memory>, id: Id)
    requires DistinctMemories(a) && DistinctMemories(b) && Elements(a) == Elements(b)
    ensures FirstMemory(a, |a|, id) >= 0 <==> FirstMemory(b, |b|, id) >= 0
    ensures FirstMemory(a, |a|, id) >= 0 ==> a[FirstMemory(a, |a|, id)] == b[FirstMemory(b, |b|, id)]
  {
    assert forall i | 0 <= i < |a| :: a[i] in Elements(a);
    assert forall i | 0 <= i < |b| :: b[i] in Elements(b);
    if i :| 0 <= i < |a| && a[i].id == id {
      var j :| 0 <= j < |b| && b[j] == a[i];
      MemoryLookupFinds(a, |a|, id, i);
      MemoryLookupFinds(b, |b|, id, j);
    } else {
      MemoryLookupMisses(a, |a|, id);
      MemoryLookupMisses(b, |b|, id);
    }
  }

  lemma {:induction false} BestIsBest(pool: seq<Result>, n: nat)
    requires n <= |pool|
    ensures Best(pool, n) >= 0.0 && forall i | 0 <= i < n :: pool[i].score <= Best(pool, n)
    ensures Best(pool, n) == 0.0 || exists i :: 0 <= i < n && pool[i].score == Best(pool, n)
  {
    if n > 0 {
      BestIsBest(pool, n - 1);
      assert Best(pool, n) == pool[n - 1].score || Best(pool, n) == Best(pool, n - 1);
    }
  }

  lemma {:induction false} RangeIsTight(pool: seq<Result>, n: nat)
    requires 0 < n <= |pool|
    ensures forall i | 0 <= i < n :: Lowest(pool, n) <= pool[i].score <= Highest(pool, n)
    ensures exists i :: 0 <= i < n && pool[i].score == Lowest(pool, n)
    ensures exists i :: 0 <= i < n && pool[i].score == Highest(pool, n)
  {
    assert pool[n - 1].score == Lowest(pool, n) || (n > 1 && Lowest(pool, n) == Lowest(pool, n - 1));
    assert pool[n - 1].score == Highest(pool, n) || (n > 1 && Highest(pool, n) == Highest(pool, n - 1));
    if n > 1 {
      RangeIsTight(pool, n - 1);
      var i :| 0 <= i < n - 1 && pool[i].score == Lowest(pool, n - 1);
      var j :| 0 <= j < n - 1 && pool[j].score == Highest(pool, n - 1);
    }
  }

  lemma SameBest(a: seq<Result>, b: seq<Result>)
    requires Elements(a) == Elements(b)
    ensures Best(a, |a|) == Best(b, |b|)
  {
    BestIsBest(a, |a|);
    BestIsBest(b, |b|);
    BestCovers(a, b);
    BestCovers(b, a);
  }

  lemma BestCovers(a: seq<Result>, b: seq<Result>)
    requires Elements(a) == Elements(b)
    ensures Best(a, |a|) <= Best(b, |b|)
  {
    BestIsBest(a, |a|);
    BestIsBest(b, |b|);
    if i :| 0 <= i < |a| && a[i].score == Best(a, |a|) {
      assert a[i] in Elements(b);
    }
  }

  lemma SameRange(a: seq<Result>, b: seq<Result>)
    requires Elements(a) == Elements(b) && a != []
    ensures b != [] && Lowest(a, |a|) == Lowest(b, |b|) && Highest(a, |a|) == Highest(b, |b|)
  {
    assert a[0] in Elements(b);
    RangeCovers(a, b);
    RangeCovers(b, a);
  }

  lemma RangeCovers(a: seq<Result>, b: seq<Result>)
    requires Elements(a) == Elements(b) && a != [] && b != []
    ensures Lowest(b, |b|) <= Lowest(a, |a|) && Highest(a, |a|) <= Highest(b, |b|)
  {
    RangeIsTight(a, |a|);
    RangeIsTight(b, |b|);
    var i :| 0 <= i < |a| && a[i].score == Lowest(a, |a|);
    var j :| 0 <= j < |a| && a[j].score == Highest(a, |a|);
    assert a[i] in Elements(b) && a[j] in Elements(b);
  }

  /** The two pools agree on which retrievers found a memory, and on its record and cosine. */
  ghost predicate LooksAlike(p: Pools, q: Pools, id: Id) {
    && (InGraph(p, id) >= 0 <==> InGraph(q, id) >= 0)
    && (InVector(p, id) >= 0 <==> InVector(q, id) >= 0)
    && (InEntity(p, id) >= 0 <==> InEntity(q, id) >= 0)
    && (InGraph(p, id) >= 0 ==> p.graph[InGraph(p, id)] == q.graph[InGraph(q, id)])
    && Record(p, |p.graph|, |p.vector|, |p.entity|, id) == Record(q, |q.graph|, |q.vector|, |q.entity|, id)
    && Cosine(p, id) == Cosine(q, id)
  }

  lemma RearrangedLooksAlike(p: Pools, q: Pools, id: Id)
    requires Rearranged(p, q)
    ensures LooksAlike(p, q, id)
  {
    SameLookup(p.graph, q.graph, id);
    SameLookup(p.vector, q.vector, id);
    SameMemoryLookup(p.entity, q.entity, id);
  }

  lemma RearrangedScalesAlike(p: Pools, q: Pools)
    requires Rearranged(p, q)
    ensures KeywordScale(p) == KeywordScale(q)
    ensures Lowest(p.vector, |p.vector|) == Lowest(q.vector, |q.vector|)
    ensures Highest(p.vector, |p.vector|) == Highest(q.vector, |q.vector|)
  {
    SameBest(p.graph, q.graph);
    assert forall i | 0 <= i < |q.vector| :: q.vector[i] in Elements(p.vector);
    if p.vector != [] {
      SameRange(p.vector, q.vector);
    }
  }

  lemma RearrangedFusesAlike(p: Pools, q: Pools, id: Id)
    requires Rearranged(p, q) && !p.config.mode.ReciprocalRank?
    ensures Admitted(p, id) <==> Admitted(q, id)
    ensures Admitted(p, id) ==> Fused(p, id) == Fused(q, id)
  {
    RearrangedLooksAlike(p, q, id);
    RearrangedScalesAlike(p, q);
    assert KeywordGrade(p, id) == KeywordGrade(q, id);
    assert SemanticGrade(p, id) == SemanticGrade(q, id);
  }

  /** Neither map order nor the order of the pools reaches the merged list. */
  lemma MergeForgetsPoolOrder(p: Pools, q: Pools, a: seq<Result>, b: seq<Result>)
    requires Rearranged(p, q) && !p.config.mode.ReciprocalRank?
    requires Merged(p, a) && Merged(q, b)
    ensures a == b
  {
    forall id ensures Admitted(p, id) <==> Admitted(q, id) {
      RearrangedFusesAlike(p, q, id);
    }
    forall r | r in b ensures Admitted(p, r.memory.id) && r == Fused(p, r.memory.id) {
      RearrangedFusesAlike(p, q, r.memory.id);
    }
    forall id | Admitted(p, id) ensures Fused(p, id) in b {
      RearrangedFusesAlike(p, q, id);
      assert Fused(q, id) in b;
    }
    MergedIsUnique(p, a, b);
  }

  /** The page a query returns is a function of the candidates, and page k starts every longer page. */
  lemma PageIsDetermined(p: Pools, q: Pools, a: seq<Result>, b: seq<Result>, k: int, k': int, now: real, curves: Curves)
    requires Rearranged(p, q) && !p.config.mode.ReciprocalRank?
    requires Merged(p, a) && Merged(q, b) && 0 < k && (k <= k' || k' <= 0)
    ensures Ranked(a, k, now, curves) <= Ranked(b, k', now, curves)
    ensures Ranked(a, k', now, curves) == Ranked(b, k', now, curves)
  {
    MergeForgetsPoolOrder(p, q, a, b);
    PagesArePrefixes(a, k, k', now, curves);
  }

  // ---- Scale

  function Mapped(s: seq<Result>, f: real -> real): (r: seq<Result>)
    ensures |r| == |s|
    ensures forall i | 0 <= i < |s| :: r[i] == s[i].(score := f(s[i].score))
  {
    seq(|s|, i requires 0 <= i < |s| => s[i].(score := f(s[i].score)))
  }

  /** The pools another embedder and another keyword index would have given: cosines f(x), keyword scores g(x). */
  function Rescaled(p: Pools, f: real -> real, g: real -> real): Pools {
    p.(vector := Mapped(p.vector, f), graph := Mapped(p.graph, g), fullMatch := g(p.fullMatch))
  }

  ghost predicate KeepsOrder(f: real -> real, x: real, y: real) {
    x < y ==> f(x) < f(y)
  }

  ghost predicate Increasing(f: real -> real) {
    forall x, y :: KeepsOrder(f, x, y)
  }

  ghost predicate KeepsGrade(f: real -> real, v: real, lo: real, hi: real) {
    MinMax(f(v), f(lo), f(hi)) == MinMax(v, lo, hi)
  }

  /** Order and min-max grades are kept: what an affine map with positive slope does. */
  ghost predicate KeepsGrades(f: real -> real) {
    Increasing(f) && forall v, lo, hi :: KeepsGrade(f, v, lo, hi)
  }

  ghost predicate KeepsQuotient(g: real -> real, x: real, y: real) {
    y > 0.0 ==> g(y) > 0.0 && g(x) / g(y) == x / y
  }

  ghost predicate KeepsBlend(g: real -> real, pow: (real, real) -> real, x: real, y: real, c: real) {
    x > 0.0 && y > 0.0 ==> Blend(pow, g(x), g(y), c) == g(Blend(pow, x, y, c))
  }

  /** Signs, quotients and blends are kept: what multiplying by a positive number does. */
  ghost predicate KeepsQuotients(g: real -> real, pow: (real, real) -> real) {
    && Increasing(g) && g(0.0) == 0.0
    && (forall x, y :: KeepsQuotient(g, x, y))
    && (forall x, y, c :: KeepsBlend(g, pow, x, y, c))
  }

  lemma {:induction false} MapKeepsPlaces(pool: seq<Result>, f: real -> real, n: nat, id: Id)
    requires n <= |pool|
    ensures Last(Mapped(pool, f), n, id) == Last(pool, n, id)
    ensures First(Mapped(pool, f), n, id) == First(pool, n, id)
  {
    if n > 0 {
      MapKeepsPlaces(pool, f, n - 1, id);
    }
  }

  lemma {:induction false} MappedBest(pool: seq<Result>, g: real -> real, n: nat)
    requires Increasing(g) && g(0.0) == 0.0 && n <= |pool|
    ensures Best(Mapped(pool, g), n) == g(Best(pool, n))
  {
    if n > 0 {
      MappedBest(pool, g, n - 1);
      var x, y := Best(pool, n - 1), pool[n - 1].score;
      assert KeepsOrder(g, x, y) && KeepsOrder(g, y, x);
    }
  }

  lemma {:induction false} MappedRange(pool: seq<Result>, f: real -> real, n: nat)
    requires Increasing(f) && 0 < n <= |pool|
    ensures Lowest(Mapped(pool, f), n) == f(Lowest(pool, n))
    ensures Highest(Mapped(pool, f), n) == f(Highest(pool, n))
  {
    if n > 1 {
      MappedRange(pool, f, n - 1);
      var x := pool[n - 1].score;
      assert KeepsOrder(f, Lowest(pool, n - 1), x) && KeepsOrder(f, x, Lowest(pool, n - 1));
      assert KeepsOrder(f, Highest(pool, n - 1), x) && KeepsOrder(f, x, Highest(pool, n - 1));
    }
  }

  lemma ScaleScales(p: Pools, f: real -> real, g: real -> real)
    requires KeepsQuotients(g, p.pow)
    ensures KeywordScale(Rescaled(p, f, g)) == g(KeywordScale(p))
  {
    var best := Best(p.graph, |p.graph|);
    MappedBest(p.graph, g, |p.graph|);
    assert KeepsBlend(g, p.pow, best, p.fullMatch, p.config.coverage);
    assert KeepsOrder(g, best, 0.0) && KeepsOrder(g, 0.0, best);
    assert KeepsOrder(g, p.fullMatch, 0.0) && KeepsOrder(g, 0.0, p.fullMatch);
  }

  lemma RescaledKeywordGrade(p: Pools, f: real -> real, g: real -> real, id: Id)
    requires KeepsQuotients(g, p.pow)
    ensures KeywordGrade(Rescaled(p, f, g), id) == KeywordGrade(p, id)
  {
    MapKeepsPlaces(p.graph, g, |p.graph|, id);
    ScaleScales(p, f, g);
    assert KeepsOrder(g, KeywordScale(p), 0.0);
    if InGraph(p, id) >= 0 {
      assert KeepsQuotient(g, p.graph[InGraph(p, id)].score, KeywordScale(p));
    }
  }

  lemma RescaledSemanticGrade(p: Pools, f: real -> real, g: real -> real, id: Id)
    requires KeepsGrades(f)
    ensures SemanticGrade(Rescaled(p, f, g), id) == SemanticGrade(p, id)
  {
    MapKeepsPlaces(p.vector, f, |p.vector|, id);
    if InVector(p, id) >= 0 {
      MappedRange(p.vector, f, |p.vector|);
      assert KeepsGrade(f, Cosine(p, id), Lowest(p.vector, |p.vector|), Highest(p.vector, |p.vector|));
    }
  }

  /** The gate compares raw cosines, so it alone can tell the scales apart. */
  ghost predicate SameGate(p: Pools, q: Pools) {
    forall id :: Admitted(p, id) <==> Admitted(q, id)
  }

  lemma RescaledPlaces(p: Pools, f: real -> real, g: real -> real, id: Id)
    ensures var q := Rescaled(p, f, g);
      && InGraph(q, id) == InGraph(p, id) && InVector(q, id) == InVector(p, id) && InEntity(q, id) == InEntity(p, id)
      && First(q.vector, |q.vector|, id) == First(p.vector, |p.vector|, id)
  {
    MapKeepsPlaces(p.graph, g, |p.graph|, id);
    MapKeepsPlaces(p.vector, f, |p.vector|, id);
  }

  lemma RescaledBase(p: Pools, f: real -> real, g: real -> real, id: Id)
    requires Candidate(p, id)
    ensures var q := Rescaled(p, f, g); Candidate(q, id) && Base(q, id) == Base(p, id).(score := Base(q, id).score)
  {
    RescaledPlaces(p, f, g, id);
  }

  lemma RescaledFuses(p: Pools, f: real -> real, g: real -> real, id: Id)
    requires KeepsGrades(f) && KeepsQuotients(g, p.pow) && p.config.mode.MinMaxed? && Candidate(p, id)
    ensures var q := Rescaled(p, f, g); Candidate(q, id) && Fused(q, id) == Fused(p, id).(score := Fused(q, id).score)
  {
    RescaledBase(p, f, g, id);
    RescaledKeywordGrade(p, f, g, id);
    RescaledSemanticGrade(p, f, g, id);
  }

  /** `a` and `b` are the same results but for the scores they came with. */
  ghost predicate SameButScore(a: seq<Result>, b: seq<Result>) {
    forall x | x in a :: exists y :: y in b && y == x.(score := y.score)
  }

  lemma ScoreIgnoresScore(x: Result, y: Result, now: real, curves: Curves)
    requires y == x.(score := y.score)
    ensures x.(score := Score(x, now, curves)) == y.(score := Score(y, now, curves))
  {
  }

  lemma ScoredCovers(a: seq<Result>, b: seq<Result>, now: real, curves: Curves)
    requires SameButScore(a, b)
    ensures Elements(Scored(a, now, curves)) <= Elements(Scored(b, now, curves))
  {
    var sa, sb := Scored(a, now, curves), Scored(b, now, curves);
    forall r | r in sa ensures r in sb {
      var i :| 0 <= i < |sa| && sa[i] == r;
      assert a[i] in a;
      var y :| y in b && y == a[i].(score := y.score);
      var j :| 0 <= j < |b| && b[j] == y;
      ScoreIgnoresScore(a[i], y, now, curves);
      assert sb[j] == r;
    }
  }

  lemma RescaledMembers(p: Pools, f: real -> real, g: real -> real, x: seq<Result>, y: seq<Result>)
    requires KeepsGrades(f) && KeepsQuotients(g, p.pow) && p.config.mode.MinMaxed? && SameGate(p, Rescaled(p, f, g))
    requires Merged(p, x) && Merged(Rescaled(p, f, g), y)
    ensures SameButScore(x, y) && SameButScore(y, x)
  {
    var q := Rescaled(p, f, g);
    forall r | r in x ensures exists t :: t in y && t == r.(score := t.score) {
      RescaledFuses(p, f, g, r.memory.id);
      assert Fused(q, r.memory.id) in y;
    }
    forall r | r in y ensures exists t :: t in x && t == r.(score := t.score) {
      assert Admitted(p, r.memory.id);
      RescaledFuses(p, f, g, r.memory.id);
      assert Fused(p, r.memory.id) in x;
    }
  }

  lemma PageForgetsScale(p: Pools, f: real -> real, g: real -> real, x: seq<Result>, y: seq<Result>,
                         k: int, now: real, curves: Curves)
    requires KeepsGrades(f) && KeepsQuotients(g, p.pow) && p.config.mode.MinMaxed? && SameGate(p, Rescaled(p, f, g))
    requires Merged(p, x) && Merged(Rescaled(p, f, g), y)
    ensures Ranked(x, k, now, curves) == Ranked(y, k, now, curves)
  {
    MergedIsDistinct(p, x);
    MergedIsDistinct(Rescaled(p, f, g), y);
    RescaledMembers(p, f, g, x, y);
    ScoredCovers(x, y, now, curves);
    ScoredCovers(y, x, now, curves);
    PageFollowsScored(x, y, k, now, curves);
  }

  // The two families of maps the engine meets: cosines move affinely, keyword scores proportionally.

  function Affine(a: real, b: real): real -> real { x => a * x + b }

  lemma AffineIncreases(a: real, b: real, x: real, y: real)
    requires a > 0.0 && x < y
    ensures a * x + b < a * y + b
  {
    assert a * (y - x) > 0.0;
  }

  lemma CancelFactor(s: real, x: real, y: real)
    requires s > 0.0 && y > 0.0
    ensures s * y > 0.0 && (s * x) / (s * y) == x / y
  {
    var q := x / y;
    assert q * y == x;
    assert q * (s * y) == s * x;
  }

  lemma ShareCancels(s: real, x: real, y: real)
    requires s > 0.0 && y > 0.0
    ensures s * y > 0.0 && Share(s * x, s * y) == Share(x, y)
  {
    CancelFactor(s, x, y);
  }

  lemma AffineDifference(a: real, b: real, x: real, y: real)
    ensures a * x + b - (a * y + b) == a * (x - y)
  {
  }

  /** Here n, d are the two differences, and n', d' the same stretched. */
  lemma ProportionalGrades(s: real, v: real, lo: real, hi: real, v': real, lo': real, hi': real,
                           n: real, d: real, n': real, d': real)
    requires s > 0.0 && n == v - lo && d == hi - lo && n' == v' - lo' && d' == hi' - lo' && n' == s * n && d' == s * d
    requires d > 0.0
    ensures MinMax(v', lo', hi') == MinMax(v, lo, hi)
  {
    ShareCancels(s, n, d);
  }

  lemma AffineGrade(a: real, b: real, v: real, lo: real, hi: real)
    requires a > 0.0
    ensures MinMax(a * v + b, a * lo + b, a * hi + b) == MinMax(v, lo, hi)
  {
    if lo < hi {
      AffineDifference(a, b, v, lo);
      AffineDifference(a, b, hi, lo);
      ProportionalGrades(a, v, lo, hi, a * v + b, a * lo + b, a * hi + b, v - lo, hi - lo, a * (v - lo), a * (hi - lo));
    } else if hi < lo {
      AffineIncreases(a, b, hi, lo);
    }
  }

  lemma AffineAt(a: real, b: real, x: real)
    ensures Affine(a, b)(x) == a * x + b
  {
  }

  lemma AffineKeepsOrder(a: real, b: real, x: real, y: real)
    requires a > 0.0
    ensures KeepsOrder(Affine(a, b), x, y)
  {
    AffineAt(a, b, x);
    AffineAt(a, b, y);
    if x < y {
      AffineIncreases(a, b, x, y);
    }
  }

  lemma AffineKeepsGrade(a: real, b: real, v: real, lo: real, hi: real)
    requires a > 0.0
    ensures KeepsGrade(Affine(a, b), v, lo, hi)
  {
    AffineAt(a, b, v);
    AffineAt(a, b, lo);
    AffineAt(a, b, hi);
    AffineGrade(a, b, v, lo, hi);
  }

  lemma AffineKeepsGrades(a: real, b: real)
    requires a > 0.0
    ensures KeepsGrades(Affine(a, b))
  {
    forall x, y ensures KeepsOrder(Affine(a, b), x, y) {
      AffineKeepsOrder(a, b, x, y);
    }
    forall v, lo, hi ensures KeepsGrade(Affine(a, b), v, lo, hi) {
      AffineKeepsGrade(a, b, v, lo, hi);
    }
  }

  lemma Interchange(w: real, x: real, y: real, z: real)
    ensures (w * x) * (y * z) == (w * y) * (x * z)
  {
  }

  lemma BlendScales(pow: (real, real) -> real, s: real, x: real, y: real, c: real)
    requires SoundPower(pow) && s > 0.0 && x > 0.0 && y > 0.0
    ensures Blend(pow, s * x, s * y, c) == s * Blend(pow, x, y, c)
  {
    assert PowerOfProduct(pow, s, x, 1.0 - c) && PowerOfProduct(pow, s, y, c) && PowersJoin(pow, s, c);
    Interchange(pow(s, 1.0 - c), pow(x, 1.0 - c), pow(s, c), pow(y, c));
  }

  lemma ScalingKeepsQuotient(s: real, x: real, y: real)
    requires s > 0.0
    ensures KeepsQuotient(Affine(s, 0.0), x, y)
  {
    AffineAt(s, 0.0, x);
    AffineAt(s, 0.0, y);
    if y > 0.0 {
      CancelFactor(s, x, y);
    }
  }

  lemma ScalingKeepsBlend(s: real, pow: (real, real) -> real, x: real, y: real, c: real)
    requires SoundPower(pow) && s > 0.0
    ensures KeepsBlend(Affine(s, 0.0), pow, x, y, c)
  {
    AffineAt(s, 0.0, x);
    AffineAt(s, 0.0, y);
    AffineAt(s, 0.0, Blend(pow, x, y, c));
    if x > 0.0 && y > 0.0 {
      BlendScales(pow, s, x, y, c);
    }
  }

  lemma ScalingKeepsQuotients(s: real, pow: (real, real) -> real)
    requires SoundPower(pow) && s > 0.0
    ensures KeepsQuotients(Affine(s, 0.0), pow)
  {
    forall x, y ensures KeepsOrder(Affine(s, 0.0), x, y) && KeepsQuotient(Affine(s, 0.0), x, y) {
      AffineKeepsOrder(s, 0.0, x, y);
      ScalingKeepsQuotient(s, x, y);
    }
    forall x, y, c ensures KeepsBlend(Affine(s, 0.0), pow, x, y, c) {
      ScalingKeepsBlend(s, pow, x, y, c);
    }
  }

  /** Rescaling every cosine and every keyword score leaves the page as it was, once the gate agrees. */
  lemma MinMaxForgetsScale(p: Pools, a: real, b: real, s: real, x: seq<Result>, y: seq<Result>,
                           k: int, now: real, curves: Curves)
    requires SoundPower(p.pow) && a > 0.0 && s > 0.0 && p.config.mode.MinMaxed?
    requires SameGate(p, Rescaled(p, Affine(a, b), Affine(s, 0.0)))
    requires Merged(p, x) && Merged(Rescaled(p, Affine(a, b), Affine(s, 0.0)), y)
    ensures Ranked(x, k, now, curves) == Ranked(y, k, now, curves)
  {
    AffineKeepsGrades(a, b);
    ScalingKeepsQuotients(s, p.pow);
    PageForgetsScale(p, Affine(a, b), Affine(s, 0.0), x, y, k, now, curves);
  }

  // ---- Dominance

  /** The keyword evidence the mode reads: the normalised score under linear fusion, the raw one otherwise. */
  function KeywordSignal(p: Pools, id: Id): real
    requires InGraph(p, id) >= 0
  {
    var hit := p.graph[InGraph(p, id)];
    if p.config.mode.Linear? then hit.relevance else hit.score
  }

  /** Keyword, cosine and entity evidence for `x` are each at least those for `y`; missing counts least. */
  predicate AtLeastAsGood(p: Pools, x: Id, y: Id) {
    && (InGraph(p, y) >= 0 ==> InGraph(p, x) >= 0 && KeywordSignal(p, x) >= KeywordSignal(p, y))
    && (InVector(p, y) >= 0 ==> InVector(p, x) >= 0 && Cosine(p, x) >= Cosine(p, y))
    && Overlap(p, x) >= Overlap(p, y)
  }

  lemma ScaledUp(w: real, x: real, y: real)
    requires w >= 0.0 && x >= y
    ensures w * x >= w * y
  {
    assert w * (x - y) >= 0.0;
    assert w * (x - y) == w * x - w * y;
  }

  lemma DividedUp(x: real, y: real, d: real)
    requires x >= y && d > 0.0
    ensures x / d >= y / d
  {
    assert x / d * d == x && y / d * d == y;
  }

  lemma DotUp(u: real, v: real, w: real, x: real, y: real, z: real, x': real, y': real, z': real)
    requires u >= 0.0 && v >= 0.0 && w >= 0.0 && x >= x' && y >= y' && z >= z'
    ensures u * x + v * y + w * z >= u * x' + v * y' + w * z'
  {
    ScaledUp(u, x, x');
    ScaledUp(v, y, y');
    ScaledUp(w, z, z');
  }

  lemma WeighsMore(c: Config, k: real, s: real, e: real, k': real, s': real, e': real)
    requires c.Accepted() && Clamp01(k) >= Clamp01(k') && Clamp01(s) >= Clamp01(s') && Clamp01(e) >= Clamp01(e')
    ensures Weigh(k, s, e, c.wk, c.ws, c.we) >= Weigh(k', s', e', c.wk, c.ws, c.we)
  {
    DotUp(c.wk, c.ws, c.we, Clamp01(k), Clamp01(s), Clamp01(e), Clamp01(k'), Clamp01(s'), Clamp01(e'));
  }

  lemma LargerShare(n: real, n': real, t: real)
    requires n >= n' && t > 0.0
    ensures Share(n, t) >= Share(n', t)
  {
    DividedUp(n, n', t);
  }

  lemma FuseRespects(c: Config, k: real, s: real, e: real, k': real, s': real, e': real)
    requires c.Accepted() && Clamp01(k) >= Clamp01(k') && Clamp01(s) >= Clamp01(s') && Clamp01(e) >= Clamp01(e')
    ensures WeightedRelevance(c, k, s, e) >= WeightedRelevance(c, k', s', e')
  {
    WeighsMore(c, k, s, e, k', s', e');
    LargerShare(Weigh(k, s, e, c.wk, c.ws, c.we), Weigh(k', s', e', c.wk, c.ws, c.we), c.wk + c.ws + c.we);
  }

  lemma MinMaxRespects(v: real, w: real, lo: real, hi: real)
    requires v >= w
    ensures MinMax(v, lo, hi) >= MinMax(w, lo, hi) >= 0.0
  {
    if lo < hi {
      LargerShare(v - lo, w - lo, hi - lo);
    }
  }

  lemma GradesRespect(p: Pools, x: Id, y: Id)
    requires p.config.mode.MinMaxed? && AtLeastAsGood(p, x, y)
    ensures Clamp01(KeywordGrade(p, x)) >= Clamp01(KeywordGrade(p, y))
    ensures Clamp01(SemanticGrade(p, x)) >= Clamp01(SemanticGrade(p, y))
  {
    if InGraph(p, y) >= 0 && KeywordScale(p) > 0.0 {
      DividedUp(p.graph[InGraph(p, x)].score, p.graph[InGraph(p, y)].score, KeywordScale(p));
    }
    if InVector(p, y) >= 0 {
      MinMaxRespects(Cosine(p, x), Cosine(p, y), Lowest(p.vector, |p.vector|), Highest(p.vector, |p.vector|));
    }
  }

  /** Under the weighted modes, evidence at least as good on every signal never earns less. */
  lemma DominanceIsRespected(p: Pools, x: Id, y: Id)
    requires p.config.Accepted() && !p.config.mode.ReciprocalRank?
    requires Candidate(p, x) && Candidate(p, y) && AtLeastAsGood(p, x, y)
    ensures Relevance(p, x) >= Relevance(p, y)
  {
    if p.config.mode.MinMaxed? {
      GradesRespect(p, x, y);
      FuseRespects(p.config, KeywordGrade(p, x), SemanticGrade(p, x), Overlap(p, x),
                   KeywordGrade(p, y), SemanticGrade(p, y), Overlap(p, y));
    } else {
      assert InGraph(p, x) < 0 ==> InGraph(p, y) < 0 && Base(p, y).relevance == 0.0;
      FuseRespects(p.config, Base(p, x).relevance, Cosine(p, x), Overlap(p, x),
                   Base(p, y).relevance, Cosine(p, y), Overlap(p, y));
    }
  }
}
