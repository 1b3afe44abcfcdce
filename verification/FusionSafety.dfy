/**
 * When the best keyword hit cannot be outranked by a memory sharing no term of the query, under
 * min-max fusion: what the weights must be, given how far the hit falls short of a complete match.
 */
module FusionSafety {
  import opened Uuid
  import opened Ranking
  import opened Fusion
  import opened FusionLaws

  predicate Unit(x: real) { 0.0 <= x <= 1.0 }

  ghost predicate PositivePower(pow: (real, real) -> real) {
    SoundPower(pow) && forall x, e | x > 0.0 :: pow(x, e) > 0.0
  }

  /** `x` was found by keywords and `y` was not; both pass the gate. */
  predicate Rivals(p: Pools, x: Id, y: Id) {
    && p.config.mode.MinMaxed? && p.config.Accepted()
    && Admitted(p, x) && Admitted(p, y) && InGraph(p, x) >= 0 && InGraph(p, y) < 0
    && Unit(Overlap(p, x)) && Unit(Overlap(p, y))
  }

  predicate BestHit(p: Pools, x: Id) {
    InGraph(p, x) >= 0 && p.graph[InGraph(p, x)].score == Best(p.graph, |p.graph|) > 0.0
  }

  /** By what a best hit's grade falls short of one, a complete match scoring `q` times as much. */
  function Shortfall(c: Config, pow: (real, real) -> real, q: real): (r: real)
    ensures r >= 1.0
  {
    if c.coverage <= 0.0 || q <= 0.0 || pow(q, c.coverage) < 1.0 then 1.0 else pow(q, c.coverage)
  }

  // ---- Arithmetic of one pair

  lemma Outweighs(c: Config, g: real, sx: real, sy: real, ex: real, ey: real, room: real)
    requires c.Accepted() && Unit(g) && Unit(sx) && Unit(sy) && Unit(ex) && Unit(ey)
    requires c.we * (ey - ex) <= room && c.wk * g >= c.ws + room
    ensures WeightedRelevance(c, g, sx, ex) >= WeightedRelevance(c, 0.0, sy, ey)
  {
    ScaledUp(c.ws, sx, 0.0);
    ScaledUp(c.ws, 1.0, sy);
    assert c.we * (ey - ex) == c.we * ey - c.we * ex;
    LargerShare(Weigh(g, sx, ex, c.wk, c.ws, c.we), Weigh(0.0, sy, ey, c.wk, c.ws, c.we), c.wk + c.ws + c.we);
  }

  lemma UnclampedShare(c: Config, g: real, s: real, e: real)
    requires c.Accepted() && Unit(g) && Unit(s) && Unit(e)
    ensures var n, t := c.wk * g + c.ws * s + c.we * e, c.wk + c.ws + c.we;
      t > 0.0 && n <= t && WeightedRelevance(c, g, s, e) * t == n
  {
    DotUp(c.wk, c.ws, c.we, 1.0, 1.0, 1.0, g, s, e);
    DotUp(c.wk, c.ws, c.we, g, s, e, 0.0, 0.0, 0.0);
    WholeShare(c.wk * g + c.ws * s + c.we * e, c.wk + c.ws + c.we);
  }

  lemma WholeShare(n: real, t: real)
    requires 0.0 <= n <= t && t > 0.0
    ensures Share(n, t) * t == n
  {
    var q := n / t;
    assert q * t == n;
    assert 0.0 <= q <= 1.0;
  }

  lemma Undivided(a: real, b: real, t: real, n: real, n': real)
    requires t > 0.0 && a * t == n && b * t == n' && a >= b
    ensures n >= n'
  {
    ScaledUp(t, a, b);
  }

  lemma SameSign(w: real, g: real)
    requires w > 0.0
    ensures w * g > 0.0 <==> g > 0.0
  {
    if g <= 0.0 {
      ScaledUp(w, 0.0, g);
    }
  }

  lemma Inverse(g: real, w: real)
    requires w > 0.0 && g * w == 1.0
    ensures g > 0.0
    ensures Clamp01(g) * (if w < 1.0 then 1.0 else w) == 1.0
  {
    SameSign(w, g);
    if w < 1.0 {
      SameSign(1.0 - w, g);
      assert (1.0 - w) * g == g - g * w;
    } else {
      ScaledUp(g, w, 1.0);
    }
  }

  lemma Quotient(b: real, w: real)
    requires b > 0.0 && w > 0.0
    ensures b * w > 0.0 && b / (b * w) * w == 1.0
  {
    var g := b / (b * w);
    var h := g * w;
    assert b == g * (b * w) == h * b;
    assert (h - 1.0) * b == 0.0;
  }

  lemma Whole(b: real)
    requires b > 0.0
    ensures b / b == 1.0
  {
  }

  lemma SplitPower(pow: (real, real) -> real, best: real, full: real, q: real, c: real)
    requires PositivePower(pow) && best > 0.0 && q > 0.0 && full == best * q
    ensures full > 0.0 && Blend(pow, best, full, c) == best * pow(q, c)
  {
    SameSign(best, q);
    assert PowerOfProduct(pow, best, q, c) && PowersJoin(pow, best, c);
    var u, v, w := pow(best, 1.0 - c), pow(best, c), pow(q, c);
    assert u * (v * w) == (u * v) * w;
  }

  /** The grade of a best hit is the inverse of its shortfall. */
  lemma BestHitGrade(p: Pools, x: Id, q: real)
    requires PositivePower(p.pow) && p.config.Accepted() && BestHit(p, x) && p.fullMatch == Best(p.graph, |p.graph|) * q
    ensures Clamp01(KeywordGrade(p, x)) * Shortfall(p.config, p.pow, q) == 1.0
  {
    var best, w, g := Best(p.graph, |p.graph|), p.pow(q, p.config.coverage), KeywordGrade(p, x);
    SameSign(best, q);
    if q > 0.0 && p.config.coverage > 0.0 {
      SplitPower(p.pow, best, p.fullMatch, q, p.config.coverage);
      Quotient(best, w);
      assert KeywordScale(p) == best * w;
      assert g == best / (best * w);
      Inverse(g, w);
    } else {
      assert KeywordScale(p) == best;
      Whole(best);
    }
  }

  // ---- In the pools

  /** A hit whose weighted grade carries the semantic weight, and `room` for entities, is not outranked. */
  lemma HitIsSafe(p: Pools, x: Id, y: Id, room: real)
    requires Rivals(p, x, y) && p.config.we * (Overlap(p, y) - Overlap(p, x)) <= room
    requires p.config.wk * Clamp01(KeywordGrade(p, x)) >= p.config.ws + room
    ensures Relevance(p, x) >= Relevance(p, y)
  {
    Outweighs(p.config, Clamp01(KeywordGrade(p, x)), SemanticGrade(p, x), SemanticGrade(p, y), Overlap(p, x),
              Overlap(p, y), room);
  }

  ghost predicate HoldsUp(p: Pools, x: Id, y: Id) {
    Candidate(p, x) && Candidate(p, y) && Relevance(p, x) >= Relevance(p, y)
  }

  /** `x` is a best hit, a complete match scores `q` times as much, and unless `anyEntities` both name the same. */
  ghost predicate Contest(c: Config, pow: (real, real) -> real, q: real, anyEntities: bool, p: Pools, x: Id, y: Id) {
    && p.config == c && p.pow == pow && p.fullMatch == Best(p.graph, |p.graph|) * q
    && Rivals(p, x, y) && BestHit(p, x) && (anyEntities || Overlap(p, x) == Overlap(p, y))
  }

  ghost predicate NeverOutranked(c: Config, pow: (real, real) -> real, q: real, anyEntities: bool) {
    forall p, x, y | Contest(c, pow, q, anyEntities, p, x, y) :: HoldsUp(p, x, y)
  }

  lemma Cleared(wk: real, g: real, s: real, w: real)
    requires g >= 0.0 && s > 0.0 && g * s == 1.0
    ensures wk * g >= w <==> wk >= w * s
  {
    if wk * g >= w {
      ScaledUp(s, wk * g, w);
      assert s * (wk * g) == wk * (g * s);
    }
    if wk >= w * s {
      ScaledUp(g, wk, w * s);
      assert g * (w * s) == w * (g * s);
    }
  }

  function EntityRoom(c: Config, anyEntities: bool): real {
    if anyEntities then c.we else 0.0
  }

  /** The keyword weight carries the others over the shortfall. */
  predicate Carries(c: Config, pow: (real, real) -> real, q: real, anyEntities: bool) {
    c.wk >= (c.ws + EntityRoom(c, anyEntities)) * Shortfall(c, pow, q)
  }

  lemma GradeClears(c: Config, pow: (real, real) -> real, q: real, p: Pools, x: Id, w: real)
    requires PositivePower(pow) && c.Accepted() && p.config == c && p.pow == pow && BestHit(p, x)
    requires p.fullMatch == Best(p.graph, |p.graph|) * q
    ensures c.wk * Clamp01(KeywordGrade(p, x)) >= w <==> c.wk >= w * Shortfall(c, pow, q)
  {
    BestHitGrade(p, x, q);
    Cleared(c.wk, Clamp01(KeywordGrade(p, x)), Shortfall(c, pow, q), w);
  }

  lemma EntitiesFit(c: Config, anyEntities: bool, ex: real, ey: real)
    requires c.Accepted() && Unit(ex) && Unit(ey) && (anyEntities || ex == ey)
    ensures c.we * (ey - ex) <= EntityRoom(c, anyEntities)
  {
    ScaledUp(c.we, 1.0, ey - ex);
  }

  lemma WeightsSuffice(c: Config, pow: (real, real) -> real, q: real, anyEntities: bool, p: Pools, x: Id, y: Id)
    requires PositivePower(pow) && Contest(c, pow, q, anyEntities, p, x, y) && Carries(c, pow, q, anyEntities)
    ensures HoldsUp(p, x, y)
  {
    var room := EntityRoom(c, anyEntities);
    GradeClears(c, pow, q, p, x, c.ws + room);
    EntitiesFit(c, anyEntities, Overlap(p, x), Overlap(p, y));
    HitIsSafe(p, x, y, room);
  }

  function Found(id: Id, score: real): Result {
    Result(Memory(id, "semantic", 0.0, 0), 0.0, score, false)
  }

  /** The only keyword hit, nearly the furthest from the query, and a memory sharing no term, the nearest. */
  function Duel(c: Config, pow: (real, real) -> real, q: real, anyEntities: bool, x: Id, y: Id): Pools {
    Pools([Found(x, 1.0)], [Found(y, 0.9), Found(x, 0.2)], [], if anyEntities then map[y := 1.0] else map[], q, c, pow)
  }

  lemma DuelPlaces(c: Config, pow: (real, real) -> real, q: real, anyEntities: bool, x: Id, y: Id)
    requires x != y
    ensures var p := Duel(c, pow, q, anyEntities, x, y);
      && InGraph(p, x) == 0 && InGraph(p, y) == -1 && InVector(p, x) == 1 && InVector(p, y) == 0
      && Best(p.graph, |p.graph|) == 1.0 && Lowest(p.vector, |p.vector|) == 0.2 && Highest(p.vector, |p.vector|) == 0.9
  {
    var p := Duel(c, pow, q, anyEntities, x, y);
    assert Last(p.graph, 1, x) == 0 && Last(p.graph, 0, y) == -1 && Last(p.graph, 1, y) == -1;
    assert Last(p.vector, 1, y) == 0 && Last(p.vector, 2, x) == 1 && Last(p.vector, 2, y) == 0;
    assert Best(p.graph, 0) == 0.0 && Best(p.graph, 1) == 1.0;
    assert Lowest(p.vector, 1) == 0.9 && Lowest(p.vector, 2) == 0.2;
    assert Highest(p.vector, 1) == 0.9 && Highest(p.vector, 2) == 0.9;
  }

  /** The nearest memory against the furthest, entities against none of them. */
  predicate Extreme(p: Pools, x: Id, y: Id, anyEntities: bool) {
    && KeywordGrade(p, y) == 0.0 && SemanticGrade(p, x) == 0.0 && SemanticGrade(p, y) == 1.0
    && Overlap(p, x) == 0.0 && Overlap(p, y) == if anyEntities then 1.0 else 0.0
  }

  lemma Duelling(c: Config, pow: (real, real) -> real, q: real, anyEntities: bool, x: Id, y: Id) returns (p: Pools)
    requires c.Accepted() && c.mode.MinMaxed? && x != y
    ensures Contest(c, pow, q, anyEntities, p, x, y) && Extreme(p, x, y, anyEntities)
  {
    p := Duel(c, pow, q, anyEntities, x, y);
    DuelPlaces(c, pow, q, anyEntities, x, y);
    assert Cosine(p, x) == 0.2 && Cosine(p, y) == 0.9;
    assert MinMax(0.2, 0.2, 0.9) == 0.0 && MinMax(0.9, 0.2, 0.9) == 1.0;
    assert Overlap(p, x) == 0.0 && KeywordGrade(p, y) == 0.0;
    assert p.fullMatch == 1.0 * q;
  }

  lemma ClampedRelevance(c: Config, k: real, s: real, e: real)
    ensures WeightedRelevance(c, k, s, e) == WeightedRelevance(c, Clamp01(k), s, e)
  {
    assert Clamp01(Clamp01(k)) == Clamp01(k);
    assert Weigh(k, s, e, c.wk, c.ws, c.we) == Weigh(Clamp01(k), s, e, c.wk, c.ws, c.we);
  }

  lemma KeywordShare(c: Config, g: real)
    requires c.Accepted() && Unit(g)
    ensures WeightedRelevance(c, g, 0.0, 0.0) * (c.wk + c.ws + c.we) == c.wk * g
  {
    UnclampedShare(c, g, 0.0, 0.0);
  }

  lemma RivalShare(c: Config, anyEntities: bool)
    requires c.Accepted()
    ensures WeightedRelevance(c, 0.0, 1.0, if anyEntities then 1.0 else 0.0) * (c.wk + c.ws + c.we) ==
            c.ws + EntityRoom(c, anyEntities)
  {
    UnclampedShare(c, 0.0, 1.0, if anyEntities then 1.0 else 0.0);
  }

  lemma Decided(c: Config, k: real, anyEntities: bool)
    requires c.Accepted() &&
             WeightedRelevance(c, k, 0.0, 0.0) >= WeightedRelevance(c, 0.0, 1.0, if anyEntities then 1.0 else 0.0)
    ensures c.wk * Clamp01(k) >= c.ws + EntityRoom(c, anyEntities)
  {
    var g, e, t := Clamp01(k), if anyEntities then 1.0 else 0.0, c.wk + c.ws + c.we;
    ClampedRelevance(c, k, 0.0, 0.0);
    var a, b := WeightedRelevance(c, g, 0.0, 0.0), WeightedRelevance(c, 0.0, 1.0, e);
    KeywordShare(c, g);
    RivalShare(c, anyEntities);
    Undivided(a, b, t, c.wk * g, c.ws + EntityRoom(c, anyEntities));
  }

  lemma ExtremesDecide(c: Config, pow: (real, real) -> real, q: real, anyEntities: bool, p: Pools, x: Id, y: Id)
    requires Contest(c, pow, q, anyEntities, p, x, y) && Extreme(p, x, y, anyEntities) && HoldsUp(p, x, y)
    ensures c.wk * Clamp01(KeywordGrade(p, x)) >= c.ws + EntityRoom(c, anyEntities)
  {
    Decided(c, KeywordGrade(p, x), anyEntities);
  }

  lemma GradeNeeds(c: Config, pow: (real, real) -> real, q: real, anyEntities: bool, p: Pools, x: Id, y: Id)
    requires PositivePower(pow) && Contest(c, pow, q, anyEntities, p, x, y)
    requires c.wk * Clamp01(KeywordGrade(p, x)) >= c.ws + EntityRoom(c, anyEntities)
    ensures Carries(c, pow, q, anyEntities)
  {
    GradeClears(c, pow, q, p, x, c.ws + EntityRoom(c, anyEntities));
  }

  lemma CarriesIsNeeded(c: Config, pow: (real, real) -> real, q: real, anyEntities: bool, x: Id, y: Id)
    requires PositivePower(pow) && c.Accepted() && c.mode.MinMaxed? && x != y && NeverOutranked(c, pow, q, anyEntities)
    ensures Carries(c, pow, q, anyEntities)
  {
    var p := Duelling(c, pow, q, anyEntities, x, y);
    assert HoldsUp(p, x, y);
    ExtremesDecide(c, pow, q, anyEntities, p, x, y);
    GradeNeeds(c, pow, q, anyEntities, p, x, y);
  }

  lemma CarriesIsEnough(c: Config, pow: (real, real) -> real, q: real, anyEntities: bool)
    requires PositivePower(pow) && Carries(c, pow, q, anyEntities)
    ensures NeverOutranked(c, pow, q, anyEntities)
  {
    forall p, x, y | Contest(c, pow, q, anyEntities, p, x, y) ensures HoldsUp(p, x, y) {
      WeightsSuffice(c, pow, q, anyEntities, p, x, y);
    }
  }

  /**
   * A best keyword hit is never outranked by a memory without one exactly when the keyword weight
   * is at least the semantic weight, and the entity weight unless entities are even, times the
   * hit's shortfall: (complete match / best hit) to the power of the coverage.
   */
  lemma NeverOutrankedIff(c: Config, pow: (real, real) -> real, q: real, anyEntities: bool, x: Id, y: Id)
    requires PositivePower(pow) && c.Accepted() && c.mode.MinMaxed? && x != y
    ensures NeverOutranked(c, pow, q, anyEntities) <==> Carries(c, pow, q, anyEntities)
  {
    if NeverOutranked(c, pow, q, anyEntities) {
      CarriesIsNeeded(c, pow, q, anyEntities, x, y);
    }
    if Carries(c, pow, q, anyEntities) {
      CarriesIsEnough(c, pow, q, anyEntities);
    }
  }

  /**
   * As shipped: a hit is safe from vectors as long as its shortfall is at most 9/8, and no hit is
   * safe from a memory that also names the entities.
   */
  lemma ShippedLexicalSafety(pow: (real, real) -> real, q: real, x: Id, y: Id)
    requires PositivePower(pow) && x != y
    ensures NeverOutranked(DEFAULT, pow, q, false) <==> 8.0 * Shortfall(DEFAULT, pow, q) <= 9.0
    ensures !NeverOutranked(DEFAULT, pow, q, true)
  {
    NeverOutrankedIff(DEFAULT, pow, q, false, x, y);
    NeverOutrankedIff(DEFAULT, pow, q, true, x, y);
  }

  /** Whenever the weights fall short there are such pools: the only keyword hit, below a memory sharing no term. */
  lemma BestLexicalMatchCanBeOutranked(c: Config, pow: (real, real) -> real, q: real, anyEntities: bool, x: Id, y: Id)
    returns (p: Pools)
    requires PositivePower(pow) && c.Accepted() && c.mode.MinMaxed? && x != y && !Carries(c, pow, q, anyEntities)
    ensures Contest(c, pow, q, anyEntities, p, x, y) && Relevance(p, x) < Relevance(p, y)
  {
    p := Duelling(c, pow, q, anyEntities, x, y);
    if Relevance(p, x) >= Relevance(p, y) {
      ExtremesDecide(c, pow, q, anyEntities, p, x, y);
      GradeNeeds(c, pow, q, anyEntities, p, x, y);
    }
  }
}
