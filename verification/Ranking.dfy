/**
 * Scoring and ordering of retrieved memories. Times are hours; `exp` and `log1p` are parameters,
 * of which only the bounds in Curves.Sound are used.
 */
module Ranking {
  import opened Ordering
  import opened Uuid

  const RELEVANCE_WEIGHT := 0.75
  const RECENCY_WEIGHT := 0.10
  const FREQUENCY_WEIGHT := 0.10
  const TYPE_WEIGHT := 0.05
  const SUPERSEDED_DEMOTION := 0.6
  const FREQUENCY_SATURATION := 10.0
  const HALF_LIFE_HOURS := 2160.0

  datatype Memory = Memory(id: Id, kind: string, created: real, accesses: int)
  datatype Result = Result(memory: Memory, relevance: real, score: real, superseded: bool)

  datatype Curves = Curves(exp: real -> real, log1p: real -> real) {
    ghost predicate Sound() {
      && (forall x | x <= 0.0 :: 0.0 < exp(x) <= 1.0)
      && (forall x, y | 0.0 < x < y :: 0.0 < log1p(x) < log1p(y))
    }
  }

  // Further laws of the curves, named where a theorem uses them.

  ghost predicate RisingExp(curves: Curves) {
    forall x, y | x < y <= 0.0 :: curves.exp(x) < curves.exp(y)
  }

  ghost predicate RisingUse(curves: Curves, x: int, y: int) {
    0 < x < y ==> curves.log1p(x as real) * curves.log1p(y as real + 10.0) <
                  curves.log1p(y as real) * curves.log1p(x as real + 10.0)
  }

  /** log(1 + x) / log(11 + x) rises with x. */
  ghost predicate RisingLog(curves: Curves) {
    forall x, y :: RisingUse(curves, x, y)
  }

  ghost predicate SumsToProduct(exp: real -> real, x: real, y: real) {
    exp(x + y) == exp(x) * exp(y)
  }

  function Clamp01(v: real): (r: real)
    ensures 0.0 <= r <= 1.0
  {
    if v < 0.0 then 0.0 else if v > 1.0 then 1.0 else v
  }

  function TypePriority(kind: string): real {
    if kind == "semantic" then 1.0
    else if kind == "procedural" then 0.95
    else if kind == "episodic" then 0.90
    else 0.0
  }

  predicate KnownType(kind: string) {
    kind == "semantic" || kind == "procedural" || kind == "episodic"
  }

  function Recency(created: real, now: real, curves: Curves): real {
    var hours := if now - created < 0.0 then 0.0 else now - created;
    curves.exp(-0.693 * hours / HALF_LIFE_HOURS)
  }

  /** The divisor is positive for every sound curve. */
  function Frequency(accesses: int, curves: Curves): real {
    if accesses <= 0 then 0.0
    else
      var top := curves.log1p(accesses as real + FREQUENCY_SATURATION);
      if top == 0.0 then 0.0 else curves.log1p(accesses as real) / top
  }

  function Undemoted(r: Result, now: real, curves: Curves): real {
    RELEVANCE_WEIGHT * Clamp01(r.relevance) + RECENCY_WEIGHT * Recency(r.memory.created, now, curves) +
    FREQUENCY_WEIGHT * Frequency(r.memory.accesses, curves) + TYPE_WEIGHT * TypePriority(r.memory.kind)
  }

  function Score(r: Result, now: real, curves: Curves): real {
    if r.superseded then Undemoted(r, now, curves) * SUPERSEDED_DEMOTION else Undemoted(r, now, curves)
  }

  lemma FactorsAreUnit(m: Memory, now: real, curves: Curves)
    requires curves.Sound()
    ensures 0.0 < Recency(m.created, now, curves) <= 1.0
    ensures 0.0 <= Frequency(m.accesses, curves) < 1.0
  {
    var hours := if now - m.created < 0.0 then 0.0 else now - m.created;
    assert -0.693 * hours / HALF_LIFE_HOURS <= 0.0;
    if m.accesses > 0 {
      var low, top := curves.log1p(m.accesses as real), curves.log1p(m.accesses as real + FREQUENCY_SATURATION);
      assert 0.0 < low < top;
      ProperFraction(low, top);
    }
  }

  lemma ProperFraction(a: real, b: real)
    requires 0.0 < a < b
    ensures 0.0 < a / b < 1.0
  {
    var q := a / b;
    assert q * b == a;
    assert q <= 1.0;
    assert q != 1.0;
  }

  /** The composite is itself in [0, 1]. */
  lemma ScoreIsUnit(r: Result, now: real, curves: Curves)
    requires curves.Sound()
    ensures 0.0 <= Score(r, now, curves) <= 1.0
  {
    FactorsAreUnit(r.memory, now, curves);
  }

  /** How much relevance the other signals can overturn together: less than 0.205 / 0.75 of it. */
  lemma RelevanceGapDecides(a: Result, b: Result, now: real, curves: Curves)
    requires curves.Sound() && KnownType(a.memory.kind) && KnownType(b.memory.kind) && a.superseded == b.superseded
    requires 0.75 * (Clamp01(a.relevance) - Clamp01(b.relevance)) >= 0.205
    ensures Score(a, now, curves) > Score(b, now, curves)
  {
    FactorsAreUnit(a.memory, now, curves);
    FactorsAreUnit(b.memory, now, curves);
    assert Undemoted(a, now, curves) > Undemoted(b, now, curves);
  }

  /** With equal age and use, the type prior reorders only relevance gaps within 0.005 / 0.75. */
  lemma TypeBreaksOnlyTies(a: Result, b: Result, now: real, curves: Curves)
    requires KnownType(a.memory.kind) && KnownType(b.memory.kind) && a.superseded == b.superseded
    requires a.memory.created == b.memory.created && a.memory.accesses == b.memory.accesses
    requires 0.75 * (Clamp01(a.relevance) - Clamp01(b.relevance)) > 0.005
    ensures Score(a, now, curves) > Score(b, now, curves)
  {
    assert Undemoted(a, now, curves) > Undemoted(b, now, curves);
  }

  /** A superseded memory is below its replacement on even, or worse, evidence. */
  lemma SupersededIsBelowItsReplacement(stale: Result, live: Result, now: real, curves: Curves)
    requires curves.Sound() && stale.superseded && !live.superseded
    requires Undemoted(stale, now, curves) <= Undemoted(live, now, curves)
    ensures Score(stale, now, curves) < Score(live, now, curves)
  {
    FactorsAreUnit(stale.memory, now, curves);
    assert Undemoted(stale, now, curves) > 0.0;
  }

  // ---- One signal at a time

  function Age(m: Memory, now: real): real {
    if m.created > now then 0.0 else now - m.created
  }

  lemma NewerIsMoreRecent(a: Memory, b: Memory, now: real, curves: Curves)
    requires RisingExp(curves) && Age(a, now) <= Age(b, now)
    ensures Recency(a.created, now, curves) >= Recency(b.created, now, curves)
    ensures Age(a, now) < Age(b, now) ==> Recency(a.created, now, curves) > Recency(b.created, now, curves)
  {
    var x, y := -0.693 * Age(b, now) / HALF_LIFE_HOURS, -0.693 * Age(a, now) / HALF_LIFE_HOURS;
    assert Age(a, now) < Age(b, now) ==> x < y <= 0.0;
  }

  /** Every ninety days of age cost the same factor, exp(-0.693), one half but for rounding. */
  lemma RecencyHalves(created: real, now: real, curves: Curves)
    requires created <= now && forall x, y :: SumsToProduct(curves.exp, x, y)
    ensures Recency(created - 2160.0, now, curves) == Recency(created, now, curves) * curves.exp(-0.693)
  {
    var x := -0.693 * (now - created) / 2160.0;
    assert SumsToProduct(curves.exp, x, -0.693);
    assert -0.693 * (now - (created - 2160.0)) / 2160.0 == x + -0.693;
  }

  lemma CrossQuotients(a: real, b: real, c: real, d: real)
    requires b > 0.0 && d > 0.0 && a * d < c * b
    ensures a / b < c / d
  {
    var q, r := a / b, c / d;
    assert q * b == a && r * d == c;
    assert (r - q) * (b * d) == c * b - a * d;
    SignOf(r - q, b * d);
  }

  lemma SignOf(x: real, d: real)
    requires d > 0.0
    ensures x > 0.0 <==> x * d > 0.0
  {
    if x <= 0.0 {
      assert x * d <= 0.0;
    }
  }

  lemma MoreUsedIsMoreFrequent(x: int, y: int, curves: Curves)
    requires curves.Sound() && RisingLog(curves) && x >= y
    ensures Frequency(x, curves) >= Frequency(y, curves)
    ensures x > y && x > 0 ==> Frequency(x, curves) > Frequency(y, curves)
  {
    if x > y && x > 0 {
      var top := curves.log1p(x as real + 10.0);
      assert 0.0 < curves.log1p(x as real) < top;
      ProperFraction(curves.log1p(x as real), top);
      if y > 0 {
        var low := curves.log1p(y as real + 10.0);
        assert 0.0 < curves.log1p(y as real) < low;
        assert RisingUse(curves, y, x);
        CrossQuotients(curves.log1p(y as real), low, curves.log1p(x as real), top);
      }
    }
  }

  function TypeRank(kind: string): nat {
    if kind == "semantic" then 3 else if kind == "procedural" then 2 else if kind == "episodic" then 1 else 0
  }

  /** As relevant, as recent, as much used and of as high a type. */
  predicate AtLeast(a: Result, b: Result, now: real) {
    && Clamp01(a.relevance) >= Clamp01(b.relevance) && Age(a.memory, now) <= Age(b.memory, now)
    && a.memory.accesses >= b.memory.accesses && TypeRank(a.memory.kind) >= TypeRank(b.memory.kind)
  }

  /** More relevant, more recent, more used or of a higher type. */
  predicate Ahead(a: Result, b: Result, now: real) {
    || Clamp01(a.relevance) > Clamp01(b.relevance) || Age(a.memory, now) < Age(b.memory, now)
    || (a.memory.accesses > b.memory.accesses && a.memory.accesses > 0)
    || TypeRank(a.memory.kind) > TypeRank(b.memory.kind)
  }

  lemma AheadScoresMore(a: Result, b: Result, now: real, curves: Curves)
    requires curves.Sound() && RisingExp(curves) && RisingLog(curves)
    requires a.superseded == b.superseded && AtLeast(a, b, now) && Ahead(a, b, now)
    ensures Score(a, now, curves) > Score(b, now, curves)
  {
    NewerIsMoreRecent(a.memory, b.memory, now, curves);
    MoreUsedIsMoreFrequent(a.memory.accesses, b.memory.accesses, curves);
    assert TypeRank(a.memory.kind) > TypeRank(b.memory.kind) ==>
           TypePriority(a.memory.kind) > TypePriority(b.memory.kind);
    assert Undemoted(a, now, curves) > Undemoted(b, now, curves);
  }

  /** How the four signals are exchanged for one another, and what being superseded costs. */
  lemma SignalsTrade(a: Result, b: Result, now: real, curves: Curves)
    requires curves.Sound() && KnownType(a.memory.kind) && KnownType(b.memory.kind)
    ensures a.superseded == b.superseded ==>
              (Score(a, now, curves) > Score(b, now, curves) <==>
               1500.0 * (Clamp01(a.relevance) - Clamp01(b.relevance)) +
               200.0 * (Recency(a.memory.created, now, curves) - Recency(b.memory.created, now, curves)) +
               200.0 * (Frequency(a.memory.accesses, curves) - Frequency(b.memory.accesses, curves)) +
               5.0 * (TypeRank(a.memory.kind) as real - TypeRank(b.memory.kind) as real) > 0.0)
    ensures a.superseded && !b.superseded ==>
              (Score(a, now, curves) > Score(b, now, curves) <==>
               3.0 * Undemoted(a, now, curves) > 5.0 * Undemoted(b, now, curves))
  {
  }

  // ---- Order

  /** Higher score first; equal scores in byte order of the identifiers. */
  predicate Better(a: Result, b: Result) {
    a.score > b.score || (a.score == b.score && Before(a.memory.id, b.memory.id))
  }

  predicate DistinctIds(s: seq<Result>) {
    forall i, j | 0 <= i < j < |s| :: s[i].memory.id != s[j].memory.id
  }

  function Scored(s: seq<Result>, now: real, curves: Curves): (r: seq<Result>)
    ensures |r| == |s|
    ensures forall i | 0 <= i < |s| :: r[i] == s[i].(score := Score(s[i], now, curves))
  {
    seq(|s|, i requires 0 <= i < |s| => s[i].(score := Score(s[i], now, curves)))
  }

  function Page(s: seq<Result>, topK: int): seq<Result> {
    if topK > 0 && |s| > topK then s[..topK] else s
  }

  function Ranked(s: seq<Result>, topK: int, now: real, curves: Curves): seq<Result> {
    Page(Sort(Scored(s, now, curves), Better), topK)
  }

  /** Scores and sorts the slice in place, and returns its leading part. */
  method RankResultsAt(results: array<Result>, topK: int, now: real, curves: Curves) returns (page: seq<Result>)
    modifies results
    ensures results[..] == Sort(Scored(old(results[..]), now, curves), Better)
    ensures page == Ranked(old(results[..]), topK, now, curves)
  {
    ghost var was := results[..];
    for i := 0 to results.Length
      invariant forall k | 0 <= k < i :: results[k] == was[k].(score := Score(was[k], now, curves))
      invariant forall k | i <= k < results.Length :: results[k] == was[k]
    {
      results[i] := results[i].(score := Score(results[i], now, curves));
    }
    assert results[..] == Scored(was, now, curves);
    var sorted := Sort(results[..], Better);
    SortMembers(results[..], Better);
    forall i | 0 <= i < results.Length {
      results[i] := sorted[i];
    }
    assert results[..] == sorted;
    page := if topK > 0 && results.Length > topK then results[..topK] else results[..];
  }

  lemma BetterOrders(s: seq<Result>)
    requires DistinctIds(s)
    ensures Orders(Better, Elements(s)) && Distinct(s)
  {
    var ids := set r | r in s :: r.memory.id;
    ByteOrderIsTotal(ids);
    forall x, y | x in s && y in s && x != y ensures x.memory.id in ids && x.memory.id != y.memory.id {
      var i :| 0 <= i < |s| && s[i] == x;
      var j :| 0 <= j < |s| && s[j] == y;
    }
  }

  lemma ScoredMembers(a: seq<Result>, b: seq<Result>, now: real, curves: Curves)
    requires Elements(a) <= Elements(b)
    ensures Elements(Scored(a, now, curves)) <= Elements(Scored(b, now, curves))
  {
    var sa, sb := Scored(a, now, curves), Scored(b, now, curves);
    forall x | x in sa ensures x in sb {
      var i :| 0 <= i < |sa| && sa[i] == x;
      assert a[i] in Elements(a);
      var j :| 0 <= j < |b| && b[j] == a[i];
      assert sb[j] == x;
    }
  }

  lemma PageFollowsScored(a: seq<Result>, b: seq<Result>, topK: int, now: real, curves: Curves)
    requires DistinctIds(a) && DistinctIds(b) && Elements(Scored(a, now, curves)) == Elements(Scored(b, now, curves))
    ensures Ranked(a, topK, now, curves) == Ranked(b, topK, now, curves)
  {
    var sa, sb := Scored(a, now, curves), Scored(b, now, curves);
    assert DistinctIds(sa) && DistinctIds(sb);
    BetterOrders(sa);
    BetterOrders(sb);
    DistinctArrangements(sa, sb);
    SortCanonical(sa, sb, Better);
    SortMembers(sa, Better);
    SortMembers(sb, Better);
  }

  /** The ranked page depends on which results came in, not on the order they came in. */
  lemma RankingForgetsOrder(a: seq<Result>, b: seq<Result>, topK: int, now: real, curves: Curves)
    requires DistinctIds(a) && DistinctIds(b) && Elements(a) == Elements(b)
    ensures Ranked(a, topK, now, curves) == Ranked(b, topK, now, curves)
  {
    ScoredMembers(a, b, now, curves);
    ScoredMembers(b, a, now, curves);
    PageFollowsScored(a, b, topK, now, curves);
  }

  /** A shorter page is the beginning of a longer one; no limit is the longest. */
  lemma PagesArePrefixes(s: seq<Result>, k: int, k': int, now: real, curves: Curves)
    requires 0 < k && (k <= k' || k' <= 0)
    ensures Ranked(s, k, now, curves) <= Ranked(s, k', now, curves)
  {
  }

  /** The page is strictly best-first and holds the best: nothing left out beats anything on it. */
  lemma PageHoldsTheBest(s: seq<Result>, topK: int, now: real, curves: Curves)
    requires DistinctIds(s)
    ensures var page := Ranked(s, topK, now, curves);
      && Ascending(page, Better)
      && (forall r | r in page :: r in Scored(s, now, curves))
      && (forall r, left | r in page && left in Scored(s, now, curves) && left !in page :: Better(r, left))
      && |page| == (if 0 < topK < |s| then topK else |s|)
  {
    var scored := Scored(s, now, curves);
    assert DistinctIds(scored);
    BetterOrders(scored);
    SortAscends(scored, Better);
    SortMembers(scored, Better);
    var all, page := Sort(scored, Better), Ranked(s, topK, now, curves);
    forall r ensures r in all <==> r in scored {
      assert r in Elements(all) <==> r in Elements(scored);
    }
    forall r, left | r in page && left in scored && left !in page ensures Better(r, left) {
      var i :| 0 <= i < |page| && page[i] == r;
      var j :| 0 <= j < |all| && all[j] == left;
      assert j >= |page|;
    }
  }

  // ---- Who comes first on a page

  predicate Precedes(page: seq<Result>, a: Result, b: Result) {
    b in page ==> exists i, j | 0 <= i < j < |page| :: page[i] == a && page[j] == b
  }

  lemma BetterIsOneWay(a: Result, b: Result)
    requires Better(a, b)
    ensures !Better(b, a)
  {
    ByteOrderIsTotal({a.memory.id, b.memory.id});
  }

  /** Of two results, the better is on every page the other is on, and before it. */
  lemma BetterPrecedes(s: seq<Result>, topK: int, now: real, curves: Curves, a: Result, b: Result)
    requires DistinctIds(s) && a in Scored(s, now, curves) && b in Scored(s, now, curves) && Better(a, b)
    ensures Precedes(Ranked(s, topK, now, curves), a, b)
  {
    var page := Ranked(s, topK, now, curves);
    PageHoldsTheBest(s, topK, now, curves);
    BetterIsOneWay(a, b);
    if b in page {
      assert a in page;
      var i :| 0 <= i < |page| && page[i] == a;
      var j :| 0 <= j < |page| && page[j] == b;
      assert a != b;
    }
  }

  function WithScore(r: Result, now: real, curves: Curves): Result {
    r.(score := Score(r, now, curves))
  }

  lemma ScoredHas(s: seq<Result>, now: real, curves: Curves, r: Result)
    requires r in s
    ensures WithScore(r, now, curves) in Scored(s, now, curves)
  {
    var i :| 0 <= i < |s| && s[i] == r;
    assert Scored(s, now, curves)[i] == WithScore(r, now, curves);
  }

  lemma HigherPrecedes(s: seq<Result>, topK: int, now: real, curves: Curves, a: Result, b: Result)
    requires DistinctIds(s) && a in s && b in s && Score(a, now, curves) > Score(b, now, curves)
    ensures Precedes(Ranked(s, topK, now, curves), WithScore(a, now, curves), WithScore(b, now, curves))
  {
    ScoredHas(s, now, curves, a);
    ScoredHas(s, now, curves, b);
    BetterPrecedes(s, topK, now, curves, WithScore(a, now, curves), WithScore(b, now, curves));
  }

  /** A superseded memory is on no page without its replacement before it, unless its own evidence is better. */
  lemma ReplacementPrecedes(s: seq<Result>, topK: int, now: real, curves: Curves, stale: Result, live: Result)
    requires curves.Sound() && DistinctIds(s) && stale in s && live in s && stale.superseded && !live.superseded
    requires Undemoted(stale, now, curves) <= Undemoted(live, now, curves)
    ensures Precedes(Ranked(s, topK, now, curves), WithScore(live, now, curves), WithScore(stale, now, curves))
  {
    SupersededIsBelowItsReplacement(stale, live, now, curves);
    HigherPrecedes(s, topK, now, curves, live, stale);
  }

  /** At equal age and use a memory more relevant by 0.005 / 0.75 precedes, whatever the types. */
  lemma TypeNeverReorders(s: seq<Result>, topK: int, now: real, curves: Curves, a: Result, b: Result)
    requires DistinctIds(s) && a in s && b in s && KnownType(a.memory.kind) && KnownType(b.memory.kind)
    requires a.superseded == b.superseded && a.memory.created == b.memory.created &&
             a.memory.accesses == b.memory.accesses
    requires 0.75 * (Clamp01(a.relevance) - Clamp01(b.relevance)) > 0.005
    ensures Precedes(Ranked(s, topK, now, curves), WithScore(a, now, curves), WithScore(b, now, curves))
  {
    TypeBreaksOnlyTies(a, b, now, curves);
    HigherPrecedes(s, topK, now, curves, a, b);
  }

  /** A relevance gap worth 0.205 of score decides the order on every page. */
  lemma RelevanceGapPrecedes(s: seq<Result>, topK: int, now: real, curves: Curves, a: Result, b: Result)
    requires curves.Sound() && DistinctIds(s) && a in s && b in s && KnownType(a.memory.kind) &&
             KnownType(b.memory.kind)
    requires a.superseded == b.superseded && 0.75 * (Clamp01(a.relevance) - Clamp01(b.relevance)) >= 0.205
    ensures Precedes(Ranked(s, topK, now, curves), WithScore(a, now, curves), WithScore(b, now, curves))
  {
    RelevanceGapDecides(a, b, now, curves);
    HigherPrecedes(s, topK, now, curves, a, b);
  }

  /** A memory at least as good on every signal and better on one is before the other, wherever that is. */
  lemma AheadPrecedes(s: seq<Result>, topK: int, now: real, curves: Curves, a: Result, b: Result)
    requires curves.Sound() && RisingExp(curves) && RisingLog(curves) && DistinctIds(s) && a in s && b in s
    requires a.superseded == b.superseded && AtLeast(a, b, now) && Ahead(a, b, now)
    ensures Precedes(Ranked(s, topK, now, curves), WithScore(a, now, curves), WithScore(b, now, curves))
  {
    AheadScoresMore(a, b, now, curves);
    HigherPrecedes(s, topK, now, curves, a, b);
  }

  /** Of two memories with one score, that of the smaller text is before the other. */
  lemma TiesByText(s: seq<Result>, topK: int, now: real, curves: Curves, a: Result, b: Result)
    requires DistinctIds(s) && a in s && b in s && Score(a, now, curves) == Score(b, now, curves)
    requires LexLess(Text(a.memory.id), Text(b.memory.id))
    ensures Precedes(Ranked(s, topK, now, curves), WithScore(a, now, curves), WithScore(b, now, curves))
  {
    TextOrderIsByteOrder(a.memory.id, b.memory.id);
    ScoredHas(s, now, curves, a);
    ScoredHas(s, now, curves, b);
    BetterPrecedes(s, topK, now, curves, WithScore(a, now, curves), WithScore(b, now, curves));
  }
}
