/**
 * What a merged memory owes to each retriever. In every mode its relevance is a weighted mean of
 * one share per retriever; under reciprocal rank a share falls with the rank.
 */
module FusionSources {
  import opened Ordering
  import opened Uuid
  import opened Ranking
  import opened Fusion
  import opened FusionLaws

  /** A first place counts one, a place at `rank` what remains of it; rank zero is no place. */
  function PlaceShare(k: real, rank: int): real
    requires k > 0.0
  {
    if rank <= 0 then 0.0 else (k + 1.0) / (k + rank as real)
  }

  function KeywordShare(p: Pools, id: Id): real
    requires p.config.Accepted()
  {
    if InGraph(p, id) < 0 then 0.0
    else
      var hit := p.graph[InGraph(p, id)];
      match p.config.mode
      case Linear => Clamp01(hit.relevance)
      case MinMaxed => if KeywordScale(p) > 0.0 then Clamp01(hit.score / KeywordScale(p)) else 0.0
      case ReciprocalRank => PlaceShare(p.config.rrfK, InGraph(p, id) + 1)
  }

  function SemanticShare(p: Pools, id: Id): real
    requires p.config.Accepted()
  {
    if InVector(p, id) < 0 then 0.0
    else
      var cosine := p.vector[InVector(p, id)].score;
      var lo, hi := Lowest(p.vector, |p.vector|), Highest(p.vector, |p.vector|);
      match p.config.mode
      case Linear => Clamp01(cosine)
      case MinMaxed => if lo < hi then (cosine - lo) / (hi - lo) else 1.0
      case ReciprocalRank => PlaceShare(p.config.rrfK, InVector(p, id) + 1)
  }

  function EntityShare(p: Pools, id: Id): real {
    var overlap := if id in p.overlap then p.overlap[id] else 0.0;
    if p.config.mode.ReciprocalRank? then overlap else Clamp01(overlap)
  }

  // ---- The weighted mean

  function Total(c: Config): real {
    c.wk + c.ws + c.we
  }

  function Weighted(c: Config, keyword: real, semantic: real, entity: real): real {
    c.wk * keyword + c.ws * semantic + c.we * entity
  }

  function Mean(c: Config, keyword: real, semantic: real, entity: real): real
    requires c.Accepted()
  {
    Weighted(c, keyword, semantic, entity) / Total(c)
  }

  lemma ShareWithin(n: real, total: real)
    requires 0.0 <= n <= total && total > 0.0
    ensures Share(n, total) == n / total
  {
    DividedUp(n, 0.0, total);
    DividedUp(total, n, total);
    WholeQuotient(total);
  }

  lemma WeightedWithin(c: Config, k: real, s: real, e: real)
    requires c.Accepted() && 0.0 <= k <= 1.0 && 0.0 <= s <= 1.0 && 0.0 <= e <= 1.0
    ensures 0.0 <= Weighted(c, k, s, e) <= Total(c)
  {
    DotUp(c.wk, c.ws, c.we, k, s, e, 0.0, 0.0, 0.0);
    DotUp(c.wk, c.ws, c.we, 1.0, 1.0, 1.0, k, s, e);
  }

  lemma WeighIsWeighted(c: Config, k: real, s: real, e: real)
    ensures Weigh(k, s, e, c.wk, c.ws, c.we) == Weighted(c, Clamp01(k), Clamp01(s), Clamp01(e))
  {
  }

  lemma FusedIsMean(c: Config, k: real, s: real, e: real)
    requires c.Accepted()
    ensures WeightedRelevance(c, k, s, e) == Mean(c, Clamp01(k), Clamp01(s), Clamp01(e))
  {
    var n := Weighted(c, Clamp01(k), Clamp01(s), Clamp01(e));
    WeightedWithin(c, Clamp01(k), Clamp01(s), Clamp01(e));
    WeighIsWeighted(c, k, s, e);
    ShareWithin(n, Total(c));
  }

  lemma PlaceCounts(k: real, rank: int, weight: real)
    requires k > 0.0
    ensures Rrf(rank, k, weight) * (k + 1.0) == weight * PlaceShare(k, rank)
  {
    if rank > 0 {
      QuotientsSwap(weight, k + 1.0, k + rank as real);
    }
  }

  lemma QuotientsSwap(a: real, b: real, d: real)
    requires d > 0.0
    ensures a / d * b == a * (b / d)
  {
  }

  lemma FirstPlace(k: real)
    requires k > 0.0
    ensures PlaceShare(k, 1) == 1.0
  {
    WholeQuotient(k + 1.0);
  }

  lemma WholeQuotient(d: real)
    requires d > 0.0
    ensures d / d == 1.0
  {
  }

  lemma Positive(x: real, u: real)
    requires u > 0.0 && x * u > 0.0
    ensures x > 0.0
  {
    SignOf(x, u);
  }

  lemma Distribute(x: real, y: real, z: real, overlap: real, u: real)
    ensures (x + y + z * overlap) * u == x * u + y * u + z * u * overlap
  {
  }

  lemma QuotientOfSums(sum: real, t: real, u: real)
    requires u > 0.0 && t > 0.0
    ensures t / u > 0.0 && sum / (t / u) == sum * u / t
  {
    var best := t / u;
    assert best * u == t;
    Positive(best, u);
    SameQuotient(sum, best, u, t);
  }

  lemma SameQuotient(sum: real, best: real, u: real, t: real)
    requires best > 0.0 && u > 0.0 && t > 0.0 && best * u == t
    ensures sum / best == sum * u / t
  {
    var r := sum / best;
    assert r * best == sum;
    assert sum * u == (r * best) * u == r * (best * u) == r * t;
    DividesBack(r, t);
  }

  lemma DividesBack(r: real, t: real)
    requires t > 0.0
    ensures r * t / t == r
  {
  }

  function Places(c: Config, k: int, v: int, overlap: real): real {
    Rrf(k, c.rrfK, c.wk) + Rrf(v, c.rrfK, c.ws) + Rrf(1, c.rrfK, c.we) * overlap
  }

  lemma FirstPlaceCounts(k: real, weight: real)
    requires k > 0.0
    ensures Rrf(1, k, weight) * (k + 1.0) == weight
  {
    PlaceCounts(k, 1, weight);
    FirstPlace(k);
  }

  /** In scalars: here `u` is `k` + 1. */
  lemma CreditsAdd(x: real, y: real, z: real, overlap: real, u: real, wx: real, wy: real, wz: real)
    requires x * u == wx && y * u == wy && z * u == wz
    ensures (x + y + z * overlap) * u == wx + wy + wz * overlap
  {
    Distribute(x, y, z, overlap, u);
  }

  lemma PlacesCount(c: Config, k: int, v: int, overlap: real)
    requires c.Accepted() && c.mode.ReciprocalRank?
    ensures Places(c, k, v, overlap) * (c.rrfK + 1.0) ==
            Weighted(c, PlaceShare(c.rrfK, k), PlaceShare(c.rrfK, v), overlap)
  {
    PlaceCounts(c.rrfK, k, c.wk);
    PlaceCounts(c.rrfK, v, c.ws);
    FirstPlaceCounts(c.rrfK, c.we);
    CreditsAdd(Rrf(k, c.rrfK, c.wk), Rrf(v, c.rrfK, c.ws), Rrf(1, c.rrfK, c.we), overlap, c.rrfK + 1.0,
               c.wk * PlaceShare(c.rrfK, k), c.ws * PlaceShare(c.rrfK, v), c.we);
  }

  lemma RankQuotient(c: Config, k: int, v: int, overlap: real, sum: real, best: real)
    requires c.Accepted() && c.mode.ReciprocalRank?
    requires sum == Places(c, k, v, overlap) && best == Total(c) / (c.rrfK + 1.0) && best > 0.0
    ensures RankRelevance(c, k, v, overlap) == sum / best
  {
  }

  lemma RanksAreMeanOf(c: Config, k: int, v: int, overlap: real, sum: real, credits: real)
    requires c.Accepted() && c.mode.ReciprocalRank?
    requires sum == Places(c, k, v, overlap) && sum * (c.rrfK + 1.0) == credits
    ensures RankRelevance(c, k, v, overlap) == credits / Total(c)
  {
    QuotientOfSums(sum, Total(c), c.rrfK + 1.0);
    RankQuotient(c, k, v, overlap, sum, Total(c) / (c.rrfK + 1.0));
  }

  lemma RanksAreMean(c: Config, k: int, v: int, overlap: real)
    requires c.Accepted() && c.mode.ReciprocalRank?
    ensures RankRelevance(c, k, v, overlap) == Mean(c, PlaceShare(c.rrfK, k), PlaceShare(c.rrfK, v), overlap)
  {
    PlacesCount(c, k, v, overlap);
    RanksAreMeanOf(c, k, v, overlap, Places(c, k, v, overlap),
                   Weighted(c, PlaceShare(c.rrfK, k), PlaceShare(c.rrfK, v), overlap));
  }

  lemma LinearShares(p: Pools, id: Id)
    requires p.config.Accepted() && Candidate(p, id) && p.config.mode.Linear?
    ensures KeywordShare(p, id) == Clamp01(Base(p, id).relevance) && SemanticShare(p, id) == Clamp01(Cosine(p, id))
  {
  }

  lemma MinMaxShares(p: Pools, id: Id)
    requires p.config.Accepted() && p.config.mode.MinMaxed?
    ensures KeywordShare(p, id) == Clamp01(KeywordGrade(p, id)) && SemanticShare(p, id) == Clamp01(SemanticGrade(p, id))
  {
    if InVector(p, id) >= 0 {
      var cosine, lo, hi := Cosine(p, id), Lowest(p.vector, |p.vector|), Highest(p.vector, |p.vector|);
      RangeIsTight(p.vector, |p.vector|);
      if lo < hi {
        DividedUp(cosine - lo, 0.0, hi - lo);
        DividedUp(hi - lo, cosine - lo, hi - lo);
        WholeQuotient(hi - lo);
      }
    }
  }

  /** In every mode a candidate's relevance is the mean of its three shares, each under its own weight. */
  lemma RelevanceIsWeightedMean(p: Pools, id: Id)
    requires p.config.Accepted() && Candidate(p, id)
    ensures Relevance(p, id) == Mean(p.config, KeywordShare(p, id), SemanticShare(p, id), EntityShare(p, id))
  {
    match p.config.mode
    case Linear =>
      LinearShares(p, id);
      FusedIsMean(p.config, Base(p, id).relevance, Cosine(p, id), Overlap(p, id));
    case MinMaxed =>
      MinMaxShares(p, id);
      FusedIsMean(p.config, KeywordGrade(p, id), SemanticGrade(p, id), Overlap(p, id));
    case ReciprocalRank =>
      RanksAreMean(p.config, InGraph(p, id) + 1, InVector(p, id) + 1, Overlap(p, id));
  }

  // ---- Ranks

  lemma LaterPlaceCountsLess(k: real, a: int, b: int)
    requires k > 0.0 && 0 < a && (a < b || b <= 0)
    ensures PlaceShare(k, a) > PlaceShare(k, b) >= 0.0
  {
    var x, y := k + a as real, k + b as real;
    Quotient(k + 1.0, x);
    if b > 0 {
      Quotient(k + 1.0, y);
      CrossQuotients(k + 1.0, y, k + 1.0, x);
    }
  }

  lemma Quotient(n: real, d: real)
    requires n > 0.0 && d > 0.0
    ensures n / d > 0.0
  {
    var q := n / d;
    assert q * d == n;
    Positive(q, d);
  }

  /** No later on a list, or not on it. */
  predicate NoLater(a: int, b: int) {
    b >= 0 ==> 0 <= a <= b
  }

  /** At least as early in both lists, and as much overlap. */
  predicate AtLeastAsEarly(p: Pools, x: Id, y: Id) {
    NoLater(InGraph(p, x), InGraph(p, y)) && NoLater(InVector(p, x), InVector(p, y)) && Overlap(p, x) >= Overlap(p, y)
  }

  lemma EarlierShares(p: Pools, x: Id, y: Id)
    requires p.config.Accepted() && p.config.mode.ReciprocalRank? && AtLeastAsEarly(p, x, y)
    ensures KeywordShare(p, x) >= KeywordShare(p, y) && SemanticShare(p, x) >= SemanticShare(p, y)
    ensures KeywordShare(p, x) == KeywordShare(p, y) <==> InGraph(p, x) == InGraph(p, y)
    ensures SemanticShare(p, x) == SemanticShare(p, y) <==> InVector(p, x) == InVector(p, y)
  {
    if InGraph(p, x) != InGraph(p, y) {
      LaterPlaceCountsLess(p.config.rrfK, InGraph(p, x) + 1, InGraph(p, y) + 1);
    }
    if InVector(p, x) != InVector(p, y) {
      LaterPlaceCountsLess(p.config.rrfK, InVector(p, x) + 1, InVector(p, y) + 1);
    }
  }

  predicate Counts(weight: real, a: real, b: real) {
    weight > 0.0 && a != b
  }

  lemma ScaledGap(u: real, x: real, x': real, d: real)
    requires d == x - x'
    ensures u * d == u * x - u * x'
  {
  }

  lemma Product(u: real, d: real) returns (p: real)
    requires u >= 0.0 && d >= 0.0
    ensures p == u * d && p >= 0.0 && (p > 0.0 <==> u > 0.0 && d > 0.0)
  {
    p := u * d;
    if u == 0.0 {
      assert p == 0.0;
    } else if d == 0.0 {
      assert p == 0.0;
    } else {
      assert p > 0.0;
    }
  }

  lemma TermRises(u: real, x: real, x': real) returns (a: real, a': real)
    requires u >= 0.0 && x >= x'
    ensures a == u * x && a' == u * x' && a >= a' && (a > a' <==> Counts(u, x, x'))
  {
    a, a' := u * x, u * x';
    var d := x - x';
    var p := Product(u, d);
    ScaledGap(u, x, x', d);
    assert p == a - a';
  }

  lemma WeightedIs(c: Config, k: real, s: real, e: real, x: real, y: real, z: real) returns (sum: real)
    requires x == c.wk * k && y == c.ws * s && z == c.we * e
    ensures sum == Weighted(c, k, s, e) == x + y + z
  {
    sum := x + y + z;
  }

  lemma WeightedRises(c: Config, k: real, s: real, e: real, k': real, s': real, e': real)
    returns (sum: real, sum': real)
    requires c.Accepted() && k >= k' && s >= s' && e >= e'
    ensures sum == Weighted(c, k, s, e) && sum' == Weighted(c, k', s', e') && sum >= sum'
    ensures sum > sum' <==> Counts(c.wk, k, k') || Counts(c.ws, s, s') || Counts(c.we, e, e')
  {
    var x, x' := TermRises(c.wk, k, k');
    var y, y' := TermRises(c.ws, s, s');
    var z, z' := TermRises(c.we, e, e');
    SumsRise(x, y, z, x', y', z');
    sum := WeightedIs(c, k, s, e, x, y, z);
    sum' := WeightedIs(c, k', s', e', x', y', z');
  }

  lemma SumsRise(x: real, y: real, z: real, x': real, y': real, z': real)
    requires x >= x' && y >= y' && z >= z'
    ensures x + y + z >= x' + y' + z'
    ensures x + y + z > x' + y' + z' <==> x > x' || y > y' || z > z'
  {
  }

  lemma MeanRises(t: real, a: real, b: real)
    requires t > 0.0
    ensures a / t > b / t <==> a > b
  {
    var q, r := a / t, b / t;
    assert q * t == a && r * t == b;
    SignOf(q - r, t);
    assert (q - r) * t == q * t - r * t;
  }

  /**
   * Under reciprocal rank a memory at least as early in both lists never earns less, and earns more
   * exactly when it is earlier in a list, or overlaps more, where the weight counts for something.
   */
  lemma EarlierEarnsMore(p: Pools, x: Id, y: Id)
    requires p.config.Accepted() && p.config.mode.ReciprocalRank?
    requires Candidate(p, x) && Candidate(p, y) && AtLeastAsEarly(p, x, y)
    ensures Relevance(p, x) >= Relevance(p, y)
    ensures Relevance(p, x) > Relevance(p, y) <==>
            || (p.config.wk > 0.0 && InGraph(p, x) != InGraph(p, y))
            || (p.config.ws > 0.0 && InVector(p, x) != InVector(p, y))
            || (p.config.we > 0.0 && Overlap(p, x) > Overlap(p, y))
  {
    var c := p.config;
    RelevanceIsWeightedMean(p, x);
    RelevanceIsWeightedMean(p, y);
    EarlierShares(p, x, y);
    var a, b := WeightedRises(c, KeywordShare(p, x), SemanticShare(p, x), EntityShare(p, x),
                              KeywordShare(p, y), SemanticShare(p, y), EntityShare(p, y));
    MeanRises(Total(c), a, b);
    MeanRises(Total(c), b, a);
  }

  // ---- What is merged, and as which record

  /** Only a memory found by vector search alone, at a cosine under 0.15, is dropped. */
  lemma OnlyFaintCosinesAreDropped(p: Pools, out: seq<Result>, id: Id)
    requires Merged(p, out)
    ensures (exists r :: r in out && r.memory.id == id) <==>
            InGraph(p, id) >= 0 || InEntity(p, id) >= 0 ||
            (InVector(p, id) >= 0 && p.vector[InVector(p, id)].score >= 0.15)
  {
    if Admitted(p, id) {
      assert Fused(p, id) in out;
    }
  }

  lemma {:induction false} LastIs(pool: seq<Result>, n: nat, id: Id, i: nat)
    requires i < n <= |pool| && pool[i].memory.id == id && forall j | i < j < n :: pool[j].memory.id != id
    ensures Last(pool, n, id) == i
  {
    if i < n - 1 {
      LastIs(pool, n - 1, id, i);
    }
  }

  lemma {:induction false} FirstIs(pool: seq<Result>, n: nat, id: Id, i: nat)
    requires i < n <= |pool| && pool[i].memory.id == id && forall j | 0 <= j < i :: pool[j].memory.id != id
    ensures First(pool, n, id) == i
  {
    if i < n - 1 {
      FirstIs(pool, n - 1, id, i);
    } else {
      LookupMisses(pool, n - 1, id);
    }
  }

  lemma {:induction false} FirstMemoryIs(pool: seq<Memory>, n: nat, id: Id, i: nat)
    requires i < n <= |pool| && pool[i].id == id && forall j | 0 <= j < i :: pool[j].id != id
    ensures FirstMemory(pool, n, id) == i
  {
    if i < n - 1 {
      FirstMemoryIs(pool, n - 1, id, i);
    } else {
      MemoryLookupMisses(pool, n - 1, id);
    }
  }

  /** A keyword hit is listed with its own record; where a pool repeats it the last counts. */
  lemma KeywordRecord(p: Pools, id: Id, i: nat)
    requires i < |p.graph| && p.graph[i].memory.id == id && forall j | i < j < |p.graph| :: p.graph[j].memory.id != id
    ensures Candidate(p, id) && InGraph(p, id) == i && Base(p, id) == p.graph[i]
  {
    LastIs(p.graph, |p.graph|, id, i);
  }

  /** Other vector hits with the record of the first, and no keyword relevance; the cosine is the last one's. */
  lemma VectorRecord(p: Pools, id: Id, first: nat, last: nat)
    requires first < |p.vector| && last < |p.vector|
    requires p.vector[first].memory.id == id == p.vector[last].memory.id
    requires forall j | 0 <= j < first || last < j < |p.vector| :: p.vector[j].memory.id != id
    ensures Candidate(p, id) && InVector(p, id) == last && Cosine(p, id) == p.vector[last].score
    ensures (forall j | 0 <= j < |p.graph| :: p.graph[j].memory.id != id) ==>
              Base(p, id) == p.vector[first].(relevance := 0.0)
  {
    LastIs(p.vector, |p.vector|, id, last);
    FirstIs(p.vector, |p.vector|, id, first);
    if forall j | 0 <= j < |p.graph| :: p.graph[j].memory.id != id {
      LookupMisses(p.graph, |p.graph|, id);
    }
  }

  /** And memories that only share an entity with the query as they are, with no signal of their own. */
  lemma EntityRecord(p: Pools, id: Id, i: nat)
    requires i < |p.entity| && p.entity[i].id == id && forall j | 0 <= j < i :: p.entity[j].id != id
    requires forall j | 0 <= j < |p.graph| :: p.graph[j].memory.id != id
    requires forall j | 0 <= j < |p.vector| :: p.vector[j].memory.id != id
    ensures Candidate(p, id) && Base(p, id) == Result(p.entity[i], 0.0, 0.0, false)
  {
    LookupMisses(p.graph, |p.graph|, id);
    LookupMisses(p.vector, |p.vector|, id);
    FirstMemoryIs(p.entity, |p.entity|, id, i);
  }

  /** The merged list is in the order of the identifiers' texts. */
  lemma MergedByText(p: Pools, out: seq<Result>, i: nat, j: nat)
    requires Merged(p, out) && i < j < |out|
    ensures LexLess(Text(out[i].memory.id), Text(out[j].memory.id))
  {
    TextOrderIsByteOrder(out[i].memory.id, out[j].memory.id);
  }
}
