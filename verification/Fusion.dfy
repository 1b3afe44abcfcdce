/**
 * Merging what the keyword, vector and entity retrievers found into one relevance per memory.
 * `pow` is a parameter; SoundPower lists the two laws used of it.
 */
module Fusion {
  import opened Wrappers
  import opened Ordering
  import opened Uuid
  import opened Ranking

  const SEMANTIC_GATE := 0.15

  datatype Mode = Linear | MinMaxed | ReciprocalRank

  datatype Config = Config(mode: Mode, wk: real, ws: real, we: real, rrfK: real, coverage: real) {
    /** What SetFusion accepts. */
    predicate Accepted() {
      && wk >= 0.0 && ws >= 0.0 && we >= 0.0 && wk + ws + we > 0.0
      && (mode.ReciprocalRank? ==> rrfK > 0.0)
      && 0.0 <= coverage <= 1.0
    }
  }

  const DEFAULT := Config(MinMaxed, 0.45, 0.40, 0.15, 60.0, 0.25)

  datatype Pools = Pools(graph: seq<Result>, vector: seq<Result>, entity: seq<Memory>, overlap: map<Id, real>,
                         fullMatch: real, config: Config, pow: (real, real) -> real)

  ghost predicate PowerOfProduct(pow: (real, real) -> real, x: real, y: real, e: real) {
    pow(x * y, e) == pow(x, e) * pow(y, e)
  }

  ghost predicate PowersJoin(pow: (real, real) -> real, x: real, c: real) {
    pow(x, 1.0 - c) * pow(x, c) == x
  }

  ghost predicate SoundPower(pow: (real, real) -> real) {
    && (forall x, y, e | x > 0.0 && y > 0.0 :: PowerOfProduct(pow, x, y, e))
    && (forall x, c | x > 0.0 :: PowersJoin(pow, x, c))
  }

  // ---- One relevance from three signals

  function Share(n: real, total: real): (r: real)
    requires total > 0.0
    ensures 0.0 <= r <= 1.0
  {
    Clamp01(n / total)
  }

  function Weigh(keyword: real, semantic: real, entity: real, wk: real, ws: real, we: real): real {
    wk * Clamp01(keyword) + ws * Clamp01(semantic) + we * Clamp01(entity)
  }

  function FuseWeighted(keyword: real, semantic: real, entity: real, wk: real, ws: real, we: real): real {
    var total := wk + ws + we;
    if total <= 0.0 then 0.0 else Share(Weigh(keyword, semantic, entity, wk, ws, we), total)
  }

  function MinMax(v: real, lo: real, hi: real): real {
    if hi <= lo then 1.0 else Share(v - lo, hi - lo)
  }

  function Rrf(rank: int, k: real, weight: real): real {
    if rank <= 0 || k + rank as real == 0.0 then 0.0 else weight / (k + rank as real)
  }

  predicate PassesSemanticGate(cosine: real, hasCosine: bool, hasOtherEvidence: bool) {
    !hasCosine || hasOtherEvidence || cosine >= SEMANTIC_GATE
  }

  /** The relevance of a candidate from its keyword score, cosine and entity overlap. */
  function WeightedRelevance(c: Config, keyword: real, semantic: real, overlap: real): real {
    FuseWeighted(keyword, semantic, overlap, c.wk, c.ws, c.we)
  }

  function RankRelevance(c: Config, keywordRank: int, vectorRank: int, overlap: real): real {
    var sum := Rrf(keywordRank, c.rrfK, c.wk) + Rrf(vectorRank, c.rrfK, c.ws) + Rrf(1, c.rrfK, c.we) * overlap;
    var best := Rrf(1, c.rrfK, c.wk + c.ws + c.we);
    if best == 0.0 then 0.0 else sum / best
  }

  // ---- Lookups in the pools. A position is -1 when the memory is not there.

  function Last(pool: seq<Result>, n: nat, id: Id): (p: int)
    requires n <= |pool|
    ensures -1 <= p < n
    ensures p >= 0 ==> pool[p].memory.id == id
  {
    if n == 0 then -1 else if pool[n - 1].memory.id == id then n - 1 else Last(pool, n - 1, id)
  }

  function First(pool: seq<Result>, n: nat, id: Id): (p: int)
    requires n <= |pool|
    ensures -1 <= p < n
    ensures p >= 0 ==> pool[p].memory.id == id
    ensures p < 0 <==> Last(pool, n, id) < 0
  {
    if n == 0 then -1
    else if First(pool, n - 1, id) >= 0 then First(pool, n - 1, id)
    else if pool[n - 1].memory.id == id then n - 1
    else -1
  }

  function FirstMemory(pool: seq<Memory>, n: nat, id: Id): (p: int)
    requires n <= |pool|
    ensures -1 <= p < n
    ensures p >= 0 ==> pool[p].id == id
  {
    if n == 0 then -1
    else if FirstMemory(pool, n - 1, id) >= 0 then FirstMemory(pool, n - 1, id)
    else if pool[n - 1].id == id then n - 1
    else -1
  }

  function Best(pool: seq<Result>, n: nat): real
    requires n <= |pool|
  {
    if n == 0 then 0.0
    else if pool[n - 1].score > Best(pool, n - 1) then pool[n - 1].score
    else Best(pool, n - 1)
  }

  function Lowest(pool: seq<Result>, n: nat): real
    requires n <= |pool|
  {
    if n == 0 then 0.0
    else if n == 1 || pool[n - 1].score < Lowest(pool, n - 1) then pool[n - 1].score
    else Lowest(pool, n - 1)
  }

  function Highest(pool: seq<Result>, n: nat): real
    requires n <= |pool|
  {
    if n == 0 then 0.0
    else if n == 1 || pool[n - 1].score > Highest(pool, n - 1) then pool[n - 1].score
    else Highest(pool, n - 1)
  }

  function InGraph(p: Pools, id: Id): int { Last(p.graph, |p.graph|, id) }
  function InVector(p: Pools, id: Id): int { Last(p.vector, |p.vector|, id) }
  function InEntity(p: Pools, id: Id): int { FirstMemory(p.entity, |p.entity|, id) }

  /**
   * The record an id enters with, from prefixes of the pools: the keyword hit, else the first
   * vector hit, else the entity's.
   */
  function Record(p: Pools, g: nat, v: nat, e: nat, id: Id): (r: Option<Result>)
    requires g <= |p.graph| && v <= |p.vector| && e <= |p.entity|
    ensures r.Some? ==> r.value.memory.id == id
  {
    if Last(p.graph, g, id) >= 0 then Some(p.graph[Last(p.graph, g, id)])
    else if First(p.vector, v, id) >= 0 then Some(p.vector[First(p.vector, v, id)].(relevance := 0.0))
    else if FirstMemory(p.entity, e, id) >= 0 then Some(Result(p.entity[FirstMemory(p.entity, e, id)], 0.0, 0.0, false))
    else None
  }

  predicate Candidate(p: Pools, id: Id) {
    InGraph(p, id) >= 0 || InVector(p, id) >= 0 || InEntity(p, id) >= 0
  }

  function Base(p: Pools, id: Id): (r: Result)
    requires Candidate(p, id)
    ensures r.memory.id == id
  {
    Record(p, |p.graph|, |p.vector|, |p.entity|, id).value
  }

  function Cosine(p: Pools, id: Id): real {
    if InVector(p, id) >= 0 then p.vector[InVector(p, id)].score else 0.0
  }

  predicate OtherEvidence(p: Pools, id: Id) {
    InGraph(p, id) >= 0 || InEntity(p, id) >= 0
  }

  predicate Admitted(p: Pools, id: Id) {
    Candidate(p, id) && PassesSemanticGate(Cosine(p, id), InVector(p, id) >= 0, OtherEvidence(p, id))
  }

  function Overlap(p: Pools, id: Id): real {
    if id in p.overlap then p.overlap[id] else 0.0
  }

  /** The pool's best score and a complete match's, blended. */
  function Blend(pow: (real, real) -> real, best: real, fullMatch: real, coverage: real): real {
    pow(best, 1.0 - coverage) * pow(fullMatch, coverage)
  }

  function KeywordScale(p: Pools): real {
    var best := Best(p.graph, |p.graph|);
    if p.fullMatch > 0.0 && best > 0.0 && p.config.coverage > 0.0
    then Blend(p.pow, best, p.fullMatch, p.config.coverage)
    else best
  }

  /** Keyword and semantic grades under min-max. */
  function KeywordGrade(p: Pools, id: Id): real {
    if InGraph(p, id) >= 0 && KeywordScale(p) > 0.0 then p.graph[InGraph(p, id)].score / KeywordScale(p) else 0.0
  }

  function SemanticGrade(p: Pools, id: Id): real {
    if InVector(p, id) >= 0
    then MinMax(Cosine(p, id), Lowest(p.vector, |p.vector|), Highest(p.vector, |p.vector|))
    else 0.0
  }

  function Relevance(p: Pools, id: Id): real
    requires Candidate(p, id)
  {
    match p.config.mode
    case MinMaxed => WeightedRelevance(p.config, KeywordGrade(p, id), SemanticGrade(p, id), Overlap(p, id))
    case ReciprocalRank => RankRelevance(p.config, InGraph(p, id) + 1, InVector(p, id) + 1, Overlap(p, id))
    case Linear => WeightedRelevance(p.config, Base(p, id).relevance, Cosine(p, id), Overlap(p, id))
  }

  function Fused(p: Pools, id: Id): (r: Result)
    requires Candidate(p, id)
    ensures r.memory.id == id
  {
    Base(p, id).(relevance := Relevance(p, id))
  }

  predicate IdBefore(a: Result, b: Result) {
    Before(a.memory.id, b.memory.id)
  }

  /** `out` lists every admitted candidate once, by identifier. */
  ghost predicate Merged(p: Pools, out: seq<Result>) {
    && Ascending(out, IdBefore)
    && (forall r | r in out :: Admitted(p, r.memory.id) && r == Fused(p, r.memory.id))
    && (forall id | Admitted(p, id) :: Fused(p, id) in out)
  }

  // ---- The merge itself

  predicate RankIs(rank: map<Id, int>, pool: seq<Result>, n: nat, id: Id)
    requires n <= |pool|
  {
    if id in rank then rank[id] == Last(pool, n, id) + 1 > 0 else Last(pool, n, id) < 0
  }

  ghost predicate Ranks(rank: map<Id, int>, pool: seq<Result>, n: nat)
    requires n <= |pool|
  {
    forall id :: RankIs(rank, pool, n, id)
  }

  lemma RankStep(rank: map<Id, int>, pool: seq<Result>, n: nat)
    requires n < |pool| && Ranks(rank, pool, n)
    ensures Ranks(rank[pool[n].memory.id := n + 1], pool, n + 1)
  {
    var rank', next := rank[pool[n].memory.id := n + 1], n + 1;
    forall id ensures RankIs(rank', pool, next, id) {
      assert RankIs(rank, pool, n, id);
    }
  }

  method ScanKeyword(graph: seq<Result>) returns (rank: map<Id, int>, best: real)
    ensures best == Best(graph, |graph|)
    ensures Ranks(rank, graph, |graph|)
  {
    rank, best := map[], 0.0;
    for i := 0 to |graph|
      invariant best == Best(graph, i)
      invariant Ranks(rank, graph, i)
    {
      RankStep(rank, graph, i);
      rank := rank[graph[i].memory.id := i + 1];
      if graph[i].score > best {
        best := graph[i].score;
      }
    }
  }

  predicate CosineIs(cosine: map<Id, real>, pool: seq<Result>, n: nat, id: Id)
    requires n <= |pool|
  {
    if id in cosine then Last(pool, n, id) >= 0 && cosine[id] == pool[Last(pool, n, id)].score
    else Last(pool, n, id) < 0
  }

  ghost predicate Cosines(cosine: map<Id, real>, pool: seq<Result>, n: nat)
    requires n <= |pool|
  {
    forall id :: CosineIs(cosine, pool, n, id)
  }

  lemma CosineStep(cosine: map<Id, real>, pool: seq<Result>, n: nat)
    requires n < |pool| && Cosines(cosine, pool, n)
    ensures Cosines(cosine[pool[n].memory.id := pool[n].score], pool, n + 1)
  {
    var cosine', next := cosine[pool[n].memory.id := pool[n].score], n + 1;
    forall id ensures CosineIs(cosine', pool, next, id) {
      assert CosineIs(cosine, pool, n, id);
    }
  }

  method ScanVector(vector: seq<Result>) returns (rank: map<Id, int>, cosine: map<Id, real>, lo: real, hi: real)
    ensures lo == Lowest(vector, |vector|) && hi == Highest(vector, |vector|)
    ensures Ranks(rank, vector, |vector|) && Cosines(cosine, vector, |vector|)
  {
    rank, cosine, lo, hi := map[], map[], 0.0, 0.0;
    for i := 0 to |vector|
      invariant lo == Lowest(vector, i) && hi == Highest(vector, i)
      invariant Ranks(rank, vector, i) && Cosines(cosine, vector, i)
    {
      var r := vector[i];
      RankStep(rank, vector, i);
      CosineStep(cosine, vector, i);
      rank := rank[r.memory.id := i + 1];
      cosine := cosine[r.memory.id := r.score];
      lo := if i == 0 || r.score < lo then r.score else lo;
      hi := if i == 0 || r.score > hi then r.score else hi;
    }
  }

  predicate RecordIs(p: Pools, seen: map<Id, Result>, g: nat, v: nat, e: nat, id: Id)
    requires g <= |p.graph| && v <= |p.vector| && e <= |p.entity|
  {
    Record(p, g, v, e, id) == if id in seen then Some(seen[id]) else None
  }

  /** `seen` holds the records from prefixes of the pools. */
  ghost predicate Seen(p: Pools, seen: map<Id, Result>, g: nat, v: nat, e: nat)
    requires g <= |p.graph| && v <= |p.vector| && e <= |p.entity|
  {
    forall id :: RecordIs(p, seen, g, v, e, id)
  }

  lemma KeywordSeen(p: Pools, seen: map<Id, Result>, g: nat)
    requires g < |p.graph| && Seen(p, seen, g, 0, 0)
    ensures Seen(p, seen[p.graph[g].memory.id := p.graph[g]], g + 1, 0, 0)
  {
    var seen', next := seen[p.graph[g].memory.id := p.graph[g]], g + 1;
    forall id ensures RecordIs(p, seen', next, 0, 0, id) {
      assert RecordIs(p, seen, g, 0, 0, id);
    }
  }

  lemma VectorSeen(p: Pools, seen: map<Id, Result>, seen': map<Id, Result>, v: nat)
    requires v < |p.vector| && Seen(p, seen, |p.graph|, v, 0)
    requires var r := p.vector[v];
      seen' == if r.memory.id in seen then seen else seen[r.memory.id := r.(relevance := 0.0)]
    ensures Seen(p, seen', |p.graph|, v + 1, 0)
  {
    var g, next := |p.graph|, v + 1;
    forall id ensures RecordIs(p, seen', g, next, 0, id) {
      assert RecordIs(p, seen, |p.graph|, v, 0, id);
    }
  }

  lemma EntitySeen(p: Pools, seen: map<Id, Result>, seen': map<Id, Result>, e: nat)
    requires e < |p.entity| && Seen(p, seen, |p.graph|, |p.vector|, e)
    requires var m := p.entity[e]; seen' == if m.id in seen then seen else seen[m.id := Result(m, 0.0, 0.0, false)]
    ensures Seen(p, seen', |p.graph|, |p.vector|, e + 1)
  {
    var g, v, next := |p.graph|, |p.vector|, e + 1;
    forall id ensures RecordIs(p, seen', g, v, next, id) {
      assert RecordIs(p, seen, |p.graph|, |p.vector|, e, id);
    }
  }

  /** Every candidate's record, and which were found by more than vector search. */
  method Gather(p: Pools) returns (seen: map<Id, Result>, other: set<Id>)
    ensures Seen(p, seen, |p.graph|, |p.vector|, |p.entity|)
    ensures forall id :: id in other <==> OtherEvidence(p, id)
  {
    seen, other := map[], {};
    for i := 0 to |p.graph|
      invariant Seen(p, seen, i, 0, 0)
      invariant forall id :: id in other <==> Last(p.graph, i, id) >= 0
    {
      KeywordSeen(p, seen, i);
      seen := seen[p.graph[i].memory.id := p.graph[i]];
      other := other + {p.graph[i].memory.id};
    }
    for i := 0 to |p.vector|
      invariant Seen(p, seen, |p.graph|, i, 0)
    {
      var r := p.vector[i];
      if r.memory.id in seen {
        VectorSeen(p, seen, seen, i);
        continue;
      }
      VectorSeen(p, seen, seen[r.memory.id := r.(relevance := 0.0)], i);
      seen := seen[r.memory.id := r.(relevance := 0.0)];
    }
    for i := 0 to |p.entity|
      invariant Seen(p, seen, |p.graph|, |p.vector|, i)
      invariant forall id :: id in other <==> InGraph(p, id) >= 0 || FirstMemory(p.entity, i, id) >= 0
    {
      var mem := p.entity[i];
      other := other + {mem.id};
      if mem.id in seen {
        EntitySeen(p, seen, seen, i);
        continue;
      }
      EntitySeen(p, seen, seen[mem.id := Result(mem, 0.0, 0.0, false)], i);
      seen := seen[mem.id := Result(mem, 0.0, 0.0, false)];
    }
  }

  /** One candidate's relevance, from the maps the scans built. */
  method Resolve(p: Pools, id: Id, r: Result, keywordRank: map<Id, int>, vectorRank: map<Id, int>, cosine: map<Id,
                 real>,
                 keywordScale: real, lo: real, hi: real)
    returns (relevance: real)
    requires Candidate(p, id) && r == Base(p, id)
    requires RankIs(keywordRank, p.graph, |p.graph|, id) && RankIs(vectorRank, p.vector, |p.vector|, id)
    requires CosineIs(cosine, p.vector, |p.vector|, id)
    requires keywordScale == KeywordScale(p)
    requires lo == Lowest(p.vector, |p.vector|) && hi == Highest(p.vector, |p.vector|)
    ensures relevance == Relevance(p, id)
  {
    var cos := if id in cosine then cosine[id] else 0.0;
    var overlap := if id in p.overlap then p.overlap[id] else 0.0;
    match p.config.mode {
      case MinMaxed =>
        var kw := if id in keywordRank && keywordScale > 0.0 then r.score / keywordScale else 0.0;
        var sem := if id in cosine then MinMax(cos, lo, hi) else 0.0;
        relevance := WeightedRelevance(p.config, kw, sem, overlap);
      case ReciprocalRank =>
        var k := if id in keywordRank then keywordRank[id] else 0;
        var v := if id in vectorRank then vectorRank[id] else 0;
        relevance := RankRelevance(p.config, k, v, overlap);
      case Linear =>
        relevance := WeightedRelevance(p.config, r.relevance, cos, overlap);
    }
  }

  ghost predicate Collected(p: Pools, out: seq<Result>, done: set<Id>) {
    && (forall r | r in out :: r.memory.id in done && Admitted(p, r.memory.id) && r == Fused(p, r.memory.id))
    && (forall id | id in done && Admitted(p, id) :: Fused(p, id) in out)
    && DistinctIds(out)
  }

  lemma CollectAdmitted(p: Pools, out: seq<Result>, done: set<Id>, id: Id, r: Result)
    requires Collected(p, out, done) && id !in done && Admitted(p, id) && r == Fused(p, id)
    ensures Collected(p, out + [r], done + {id})
  {
    var out' := out + [r];
    assert forall i | 0 <= i < |out| :: out[i] in out;
    assert out'[|out|] == r;
    assert forall x | x in out' :: x in out || x == r;
    assert forall x | x in out :: x in out';
  }

  lemma CollectOne(p: Pools, out: seq<Result>, done: set<Id>, id: Id)
    requires Collected(p, out, done) && id !in done && Candidate(p, id)
    ensures Collected(p, if Admitted(p, id) then out + [Fused(p, id)] else out, done + {id})
  {
    if Admitted(p, id) {
      CollectAdmitted(p, out, done, id, Fused(p, id));
    }
  }

  lemma CollectedIsMerged(p: Pools, found: seq<Result>, done: set<Id>)
    requires Collected(p, found, done) && forall id | Candidate(p, id) :: id in done
    ensures Merged(p, Sort(found, IdBefore))
  {
    var out := Sort(found, IdBefore);
    IdOrder(found);
    SortAscends(found, IdBefore);
    SortMembers(found, IdBefore);
    forall r ensures r in out <==> r in found {
      assert r in Elements(out) <==> r in Elements(found);
    }
  }

  /** The candidates are visited in whatever order the map yields them. */
  method FuseAll(p: Pools, seen: map<Id, Result>, other: set<Id>, keywordRank: map<Id, int>, vectorRank: map<Id, int>,
                 cosine: map<Id, real>, keywordScale: real, lo: real, hi: real)
    returns (out: seq<Result>)
    requires Seen(p, seen, |p.graph|, |p.vector|, |p.entity|) && forall id :: id in other <==> OtherEvidence(p, id)
    requires Ranks(keywordRank, p.graph, |p.graph|) && Ranks(vectorRank, p.vector, |p.vector|)
    requires Cosines(cosine, p.vector, |p.vector|) && keywordScale == KeywordScale(p)
    requires lo == Lowest(p.vector, |p.vector|) && hi == Highest(p.vector, |p.vector|)
    ensures Collected(p, out, seen.Keys)
  {
    out := [];
    var todo := seen.Keys;
    while todo != {}
      invariant todo <= seen.Keys
      invariant Collected(p, out, seen.Keys - todo)
      decreases todo
    {
      var id :| id in todo;
      assert seen.Keys - (todo - {id}) == seen.Keys - todo + {id};
      assert RecordIs(p, seen, |p.graph|, |p.vector|, |p.entity|, id);
      assert Candidate(p, id) && seen[id] == Base(p, id);
      assert RankIs(keywordRank, p.graph, |p.graph|, id) && RankIs(vectorRank, p.vector, |p.vector|, id);
      assert CosineIs(cosine, p.vector, |p.vector|, id);
      CollectOne(p, out, seen.Keys - todo, id);
      todo := todo - {id};
      var cos := if id in cosine then cosine[id] else 0.0;
      if !PassesSemanticGate(cos, id in cosine, id in other) {
        continue;
      }
      var relevance := Resolve(p, id, seen[id], keywordRank, vectorRank, cosine, keywordScale, lo, hi);
      out := out + [seen[id].(relevance := relevance)];
    }
    assert seen.Keys - todo == seen.Keys;
  }

  method MergeResults(p: Pools) returns (out: seq<Result>)
    ensures Merged(p, out)
  {
    var keywordRank, maxKeyword := ScanKeyword(p.graph);
    var keywordScale := maxKeyword;
    if p.fullMatch > 0.0 && maxKeyword > 0.0 && p.config.coverage > 0.0 {
      keywordScale := Blend(p.pow, maxKeyword, p.fullMatch, p.config.coverage);
    }
    var vectorRank, cosine, lo, hi := ScanVector(p.vector);
    var seen, other := Gather(p);
    var found := FuseAll(p, seen, other, keywordRank, vectorRank, cosine, keywordScale, lo, hi);
    forall id | Candidate(p, id) ensures id in seen {
      assert RecordIs(p, seen, |p.graph|, |p.vector|, |p.entity|, id);
    }
    CollectedIsMerged(p, found, seen.Keys);
    out := Sort(found, IdBefore);
  }

  lemma IdOrder(s: seq<Result>)
    requires DistinctIds(s)
    ensures Orders(IdBefore, Elements(s)) && Distinct(s)
  {
    var ids := set r | r in s :: r.memory.id;
    ByteOrderIsTotal(ids);
    forall x, y | x in s && y in s && x != y ensures x.memory.id in ids && x.memory.id != y.memory.id {
      var i :| 0 <= i < |s| && s[i] == x;
      var j :| 0 <= j < |s| && s[j] == y;
    }
  }

  /** Map order never shows: the inputs determine the merged list. */
  lemma MergedIsUnique(p: Pools, a: seq<Result>, b: seq<Result>)
    requires Merged(p, a) && Merged(p, b)
    ensures a == b
  {
    MergedIsDistinct(p, a);
    IdOrder(a);
    assert Elements(a) == Elements(b);
    AscendingUnique(a, b, IdBefore);
  }

  lemma MergedIsDistinct(p: Pools, out: seq<Result>)
    requires Merged(p, out)
    ensures DistinctIds(out)
  {
    forall i, j | 0 <= i < j < |out| ensures out[i].memory.id != out[j].memory.id {
      assert IdBefore(out[i], out[j]);
      LexTotal(out[i].memory.id, out[i].memory.id);
    }
  }
}
