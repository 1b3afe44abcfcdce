/**
 * Which memories a new one is linked to: shared tags and stand-out neighbours, the strongest five.
 * Arithmetic is exact and the square root is a parameter, of which only s * s == x matters.
 */
module AutoLink {
  import opened Ordering
  import opened Uuid

  const MAX_RELATES_PER_STORE := 5
  const MIN_RELATED_CANDIDATES := 3
  const RELATED_STD_DEVS := 1.0
  const RELATES_TAG_WEIGHT := 0.5

  datatype Memory = Memory(id: Id, tags: seq<string>)
  datatype Neighbour = Neighbour(id: Id, score: real)
  datatype Candidate = Candidate(id: Id, weight: real)

  /** The inputs of one linking pass. `recent` is empty when the query for recent memories fails. */
  datatype Inputs = Inputs(mem: Memory, connected: set<Id>, recent: seq<Memory>, neighbours: seq<Neighbour>,
                           lower: string -> string, sqrt: real -> real)
  {
    predicate Skip(id: Id) { id == mem.id || id in connected }
  }

  ghost predicate SquareRoot(sqrt: real -> real) {
    forall x | x >= 0.0 :: sqrt(x) >= 0.0 && sqrt(x) * sqrt(x) == x
  }

  // ---- Shared tags

  ghost predicate ShareTag(lower: string -> string, a: seq<string>, b: seq<string>) {
    exists i, j | 0 <= i < |a| && 0 <= j < |b| :: lower(a[i]) == lower(b[j])
  }

  method HasOverlappingTags(lower: string -> string, a: seq<string>, b: seq<string>) returns (r: bool)
    ensures r <==> ShareTag(lower, a, b)
  {
    var lowered: set<string> := {};
    for i := 0 to |a|
      invariant forall t :: t in lowered <==> exists k | 0 <= k < i :: lower(a[k]) == t
    {
      lowered := lowered + {lower(a[i])};
    }
    for j := 0 to |b|
      invariant forall i, k | 0 <= i < |a| && 0 <= k < j :: lower(a[i]) != lower(b[k])
    {
      if lower(b[j]) in lowered {
        return true;
      }
    }
    return false;
  }

  // ---- The dispersion cut

  function Sum(s: seq<real>): real {
    if s == [] then 0.0 else Sum(s[..|s| - 1]) + s[|s| - 1]
  }

  function Mean(s: seq<real>): real
    requires s != []
  {
    Sum(s) / |s| as real
  }

  function Square(x: real): real { x * x }

  function Deviations(s: seq<real>, mean: real): real {
    if s == [] then 0.0 else Deviations(s[..|s| - 1], mean) + Square(s[|s| - 1] - mean)
  }

  function Floor(s: seq<real>, sqrt: real -> real): real
    requires s != []
  {
    if |s| < MIN_RELATED_CANDIDATES then Mean(s)
    else Mean(s) + RELATED_STD_DEVS * sqrt(Deviations(s, Mean(s)) / |s| as real)
  }

  lemma SumsNext(s: seq<real>, mean: real, i: nat)
    requires i < |s|
    ensures Sum(s[..i + 1]) == Sum(s[..i]) + s[i]
    ensures Deviations(s[..i + 1], mean) == Deviations(s[..i], mean) + Square(s[i] - mean)
  {
    assert s[..i + 1][..i] == s[..i];
  }

  method ComputeFloor(s: seq<real>, sqrt: real -> real) returns (floor: real)
    requires s != []
    ensures floor == Floor(s, sqrt)
  {
    var sum := 0.0;
    for i := 0 to |s|
      invariant sum == Sum(s[..i])
    {
      SumsNext(s, 0.0, i);
      sum := sum + s[i];
    }
    assert s[..|s|] == s;
    var mean := sum / |s| as real;
    floor := mean;
    if |s| >= MIN_RELATED_CANDIDATES {
      var variance := 0.0;
      for i := 0 to |s|
        invariant variance == Deviations(s[..i], mean)
      {
        SumsNext(s, mean, i);
        variance := variance + Square(s[i] - mean);
      }
      floor := mean + RELATED_STD_DEVS * sqrt(variance / |s| as real);
    }
  }

  function Clearing(s: seq<real>, floor: real): (k: nat)
    ensures k <= |s|
  {
    if s == [] then 0 else Clearing(s[..|s| - 1], floor) + if s[|s| - 1] >= floor then 1 else 0
  }

  predicate AllEqual(s: seq<real>) {
    forall i, j | 0 <= i < j < |s| :: s[i] == s[j]
  }

  /** Sum of (s - mean + sigma)^2. */
  function Shifted(s: seq<real>, mean: real, sigma: real): real {
    if s == [] then 0.0 else Shifted(s[..|s| - 1], mean, sigma) + Square(s[|s| - 1] - mean + sigma)
  }

  function Drift(s: seq<real>, mean: real): real {
    if s == [] then 0.0 else Drift(s[..|s| - 1], mean) + (s[|s| - 1] - mean)
  }

  function Repeated(n: nat, q: real): real {
    if n == 0 then 0.0 else Repeated(n - 1, q) + q
  }

  lemma {:induction false} RepeatedIsProduct(n: nat, q: real)
    ensures Repeated(n, q) == n as real * q
  {
    if n > 0 {
      RepeatedIsProduct(n - 1, q);
      var m := (n - 1) as real;
      assert (m + 1.0) * q == m * q + q;
    }
  }

  lemma {:induction false} DriftIsSumLess(s: seq<real>, mean: real)
    ensures Drift(s, mean) == Sum(s) - Repeated(|s|, mean)
  {
    if s != [] {
      DriftIsSumLess(s[..|s| - 1], mean);
    }
  }

  lemma NoDriftFromMean(s: seq<real>)
    requires s != []
    ensures Drift(s, Mean(s)) == 0.0
  {
    DriftIsSumLess(s, Mean(s));
    RepeatedIsProduct(|s|, Mean(s));
  }

  /** Sum of sigma * (s - mean). */
  function Crossed(s: seq<real>, mean: real, sigma: real): real {
    if s == [] then 0.0 else Crossed(s[..|s| - 1], mean, sigma) + sigma * (s[|s| - 1] - mean)
  }

  lemma Distributes(sigma: real, a: real, b: real)
    ensures sigma * (a + b) == sigma * a + sigma * b
  {
  }

  lemma {:induction false} CrossedIsDrift(s: seq<real>, mean: real, sigma: real)
    ensures Crossed(s, mean, sigma) == sigma * Drift(s, mean)
  {
    if s != [] {
      CrossedIsDrift(s[..|s| - 1], mean, sigma);
      Distributes(sigma, Drift(s[..|s| - 1], mean), s[|s| - 1] - mean);
    }
  }

  lemma SquareOfSum(d: real, sigma: real)
    ensures Square(d + sigma) == Square(d) + 2.0 * (sigma * d) + Square(sigma)
  {
  }

  lemma {:induction false} ShiftedExpands(s: seq<real>, mean: real, sigma: real)
    ensures Shifted(s, mean, sigma) ==
            Deviations(s, mean) + 2.0 * Crossed(s, mean, sigma) + Repeated(|s|, Square(sigma))
  {
    if s != [] {
      ShiftedExpands(s[..|s| - 1], mean, sigma);
      SquareOfSum(s[|s| - 1] - mean, sigma);
    }
  }

  lemma BigSquare(d: real, sigma: real)
    requires d >= sigma >= 0.0
    ensures Square(d + sigma) >= 4.0 * Square(sigma)
  {
    var e := d - sigma;
    SquareOfSum(e, 2.0 * sigma);
    assert sigma * e >= 0.0 && Square(e) >= 0.0;
    assert Square(2.0 * sigma) == 4.0 * Square(sigma);
    assert e + 2.0 * sigma == d + sigma;
  }

  lemma {:induction false} ClearingIsPaidFor(s: seq<real>, mean: real, sigma: real)
    requires sigma >= 0.0
    ensures Shifted(s, mean, sigma) >= Repeated(Clearing(s, mean + sigma), 4.0 * Square(sigma))
  {
    if s != [] {
      var x := s[|s| - 1];
      ClearingIsPaidFor(s[..|s| - 1], mean, sigma);
      assert Square(x - mean + sigma) >= 0.0;
      if x >= mean + sigma {
        BigSquare(x - mean, sigma);
      }
    }
  }

  lemma {:induction false} SpreadScores(s: seq<real>, mean: real)
    ensures Deviations(s, mean) >= 0.0
    ensures Deviations(s, mean) == 0.0 <==> forall i | 0 <= i < |s| :: s[i] == mean
  {
    if s != [] {
      var x := s[|s| - 1];
      SpreadScores(s[..|s| - 1], mean);
      assert Square(x - mean) >= 0.0;
      assert Square(x - mean) == 0.0 <==> x == mean by { NoZeroSquare(x - mean); }
      var front := s[..|s| - 1];
      assert s == front + [x];
      assert (forall i | 0 <= i < |s| :: s[i] == mean) <==>
             (forall i | 0 <= i < |front| :: front[i] == mean) && x == mean;
    }
  }

  lemma NoZeroSquare(d: real)
    ensures d != 0.0 ==> Square(d) != 0.0
  {
    if d != 0.0 {
      var y := Square(d);
      assert y / d == d;
    }
  }

  lemma {:induction false} EqualScoresSum(s: seq<real>, x: real)
    requires forall i | 0 <= i < |s| :: s[i] == x
    ensures Sum(s) == Repeated(|s|, x)
  {
    if s != [] {
      EqualScoresSum(s[..|s| - 1], x);
    }
  }

  lemma EqualScoresAreTheMean(s: seq<real>)
    requires s != []
    ensures AllEqual(s) <==> forall i | 0 <= i < |s| :: s[i] == Mean(s)
  {
    if AllEqual(s) {
      assert forall i | 0 < i < |s| :: s[0] == s[i];
      EqualScoresSum(s, s[0]);
      RepeatedIsProduct(|s|, s[0]);
      assert |s| as real * s[0] / |s| as real == s[0];
    }
  }

  lemma {:induction false} AllClear(s: seq<real>, floor: real)
    requires forall i | 0 <= i < |s| :: s[i] >= floor
    ensures Clearing(s, floor) == |s|
  {
    if s != [] {
      AllClear(s[..|s| - 1], floor);
    }
  }

  /** Two differing scores: their mean admits one. */
  lemma OneOfTwoClears(s: seq<real>)
    requires |s| == 2 && s[0] != s[1]
    ensures Clearing(s, Mean(s)) == 1
  {
    var front := s[..1];
    assert s[..|s| - 1] == front && front[..|front| - 1] == [];
    assert Sum(front) == s[0] && Sum(s) == s[0] + s[1];
    assert Clearing(front, Mean(s)) == if s[0] >= Mean(s) then 1 else 0;
  }

  lemma NothingCrossedAtMean(s: seq<real>, sigma: real)
    requires s != []
    ensures Crossed(s, Mean(s), sigma) == 0.0
  {
    CrossedIsDrift(s, Mean(s), sigma);
    NoDriftFromMean(s);
  }

  lemma ClearingIsBounded(s: seq<real>, sigma: real)
    requires sigma >= 0.0 && s != []
    ensures Repeated(Clearing(s, Mean(s) + sigma), 4.0 * Square(sigma)) <= Deviations(s, Mean(s)) +
            Repeated(|s|, Square(sigma))
  {
    ClearingIsPaidFor(s, Mean(s), sigma);
    ShiftedExpands(s, Mean(s), sigma);
    NothingCrossedAtMean(s, sigma);
  }

  lemma MoreThanHalfCostsMore(k: nat, n: nat, v: real)
    requires v > 0.0
    ensures 2 * k > n ==> Repeated(k, 4.0 * v) > Repeated(n, v) + Repeated(n, v)
  {
    RepeatedIsProduct(k, 4.0 * v);
    RepeatedIsProduct(n, v);
    var a, b := k as real, n as real;
    if 2 * k > n {
      assert 4.0 * a - 2.0 * b > 0.0;
      assert (4.0 * a - 2.0 * b) * v > 0.0;
      assert (4.0 * a - 2.0 * b) * v == a * (4.0 * v) - b * v - b * v;
    }
  }

  lemma VarianceOf(total: real, n: nat, sqrt: real -> real)
    requires SquareRoot(sqrt) && total > 0.0 && n > 0
    ensures total / n as real > 0.0 && sqrt(total / n as real) >= 0.0
    ensures Square(sqrt(total / n as real)) == total / n as real
    ensures Repeated(n, total / n as real) == total
  {
    var v := total / n as real;
    assert v * n as real == total;
    RepeatedIsProduct(n, v);
  }

  /** Cantelli at one standard deviation: 4 * sigma^2 * k <= 2 * n * sigma^2. */
  lemma AtMostHalfClear(s: seq<real>, sqrt: real -> real)
    requires SquareRoot(sqrt) && |s| >= MIN_RELATED_CANDIDATES && !AllEqual(s)
    ensures 2 * Clearing(s, Floor(s, sqrt)) <= |s|
  {
    EqualScoresAreTheMean(s);
    SpreadScores(s, Mean(s));
    var total := Deviations(s, Mean(s));
    VarianceOf(total, |s|, sqrt);
    var sigma := sqrt(total / |s| as real);
    ClearingIsBounded(s, sigma);
    MoreThanHalfCostsMore(Clearing(s, Mean(s) + sigma), |s|, Square(sigma));
  }

  /** However many neighbours there are, at most half stand out, unless they are all alike, when all do. */
  lemma HalfStandOutIffNotAlike(s: seq<real>, sqrt: real -> real)
    requires SquareRoot(sqrt) && s != []
    ensures 2 * Clearing(s, Floor(s, sqrt)) <= |s| <==> !AllEqual(s)
    ensures AllEqual(s) ==> Clearing(s, Floor(s, sqrt)) == |s|
  {
    EqualScoresAreTheMean(s);
    if AllEqual(s) {
      SpreadScores(s, Mean(s));
      assert 0.0 / |s| as real == 0.0;
      assert sqrt(0.0) == 0.0 by { NoZeroSquare(sqrt(0.0)); assert Square(sqrt(0.0)) == 0.0; }
      AllClear(s, Floor(s, sqrt));
    } else if |s| >= MIN_RELATED_CANDIDATES {
      AtMostHalfClear(s, sqrt);
    } else {
      OneOfTwoClears(s);
    }
  }

  /** One or two scores are too few for a deviation: their mean is the bar. */
  lemma FewScoresTakeTheMean(s: seq<real>, sqrt: real -> real)
    requires 1 <= |s| <= 2
    ensures |s| == 1 ==> Floor(s, sqrt) == s[0]
    ensures |s| == 2 ==> Floor(s, sqrt) == (s[0] + s[1]) / 2.0
  {
    var front := s[..|s| - 1];
    assert Sum(front) == if |s| == 1 then 0.0 else s[0] by {
      if |s| == 2 { assert front[..0] == []; }
    }
  }

  // ---- What each memory is worth

  /** Scores of the neighbours that may be linked at all, in order. */
  function Scores(inp: Inputs, n: nat): seq<real>
    requires n <= |inp.neighbours|
  {
    if n == 0 then []
    else if inp.Skip(inp.neighbours[n - 1].id) then Scores(inp, n - 1)
    else Scores(inp, n - 1) + [inp.neighbours[n - 1].score]
  }

  /** The scores the bar is taken over: those of the neighbours that may be linked, and no other's. */
  lemma {:induction false} ScoresAre(inp: Inputs, n: nat) returns (at: seq<nat>)
    requires n <= |inp.neighbours|
    ensures |at| == |Scores(inp, n)| && (forall i, j | 0 <= i < j < |at| :: at[i] < at[j])
    ensures forall i | 0 <= i < |at| :: at[i] < n && Scores(inp, n)[i] == inp.neighbours[at[i]].score
    ensures forall k | 0 <= k < n ::
              k in at <==> inp.neighbours[k].id != inp.mem.id && inp.neighbours[k].id !in inp.connected
  {
    if n == 0 {
      at := [];
    } else {
      at := ScoresAre(inp, n - 1);
      if !inp.Skip(inp.neighbours[n - 1].id) {
        at := at + [n - 1];
      }
    }
  }

  function Bar(inp: Inputs): real {
    var scores := Scores(inp, |inp.neighbours|);
    if scores == [] then 0.0 else Floor(scores, inp.sqrt)
  }

  ghost predicate TagOffers(inp: Inputs, id: Id, a: nat)
    requires a <= |inp.recent|
  {
    exists k | 0 <= k < a :: inp.recent[k].id == id && ShareTag(inp.lower, inp.mem.tags, inp.recent[k].tags)
  }

  ghost predicate NeighbourOffers(inp: Inputs, id: Id, w: real, b: nat)
    requires b <= |inp.neighbours|
  {
    w >= Bar(inp) && exists k | 0 <= k < b :: inp.neighbours[k] == Neighbour(id, w)
  }

  /** Weight `w` is earned by memory `id` in the first `a` recent memories or the first `b` neighbours. */
  ghost predicate Offers(inp: Inputs, id: Id, w: real, a: nat, b: nat)
    requires a <= |inp.recent| && b <= |inp.neighbours|
  {
    !inp.Skip(id) && ((w == RELATES_TAG_WEIGHT && TagOffers(inp, id, a)) || NeighbourOffers(inp, id, w, b))
  }

  ghost predicate BestFor(inp: Inputs, seen: map<Id, real>, id: Id, a: nat, b: nat)
    requires a <= |inp.recent| && b <= |inp.neighbours|
  {
    && (id !in seen ==> forall w :: !Offers(inp, id, w, a, b))
    && (id in seen ==> Offers(inp, id, seen[id], a, b) && forall w | Offers(inp, id, w, a, b) :: w <= seen[id])
  }

  /** `seen` gives every memory that earned a weight its largest one. */
  ghost predicate BestOffers(inp: Inputs, seen: map<Id, real>, a: nat, b: nat)
    requires a <= |inp.recent| && b <= |inp.neighbours|
  {
    forall id :: BestFor(inp, seen, id, a, b)
  }

  lemma BestOffersAreUnique(inp: Inputs, s: map<Id, real>, t: map<Id, real>, a: nat, b: nat)
    requires a <= |inp.recent| && b <= |inp.neighbours| && BestOffers(inp, s, a, b) && BestOffers(inp, t, a, b)
    ensures s == t
  {
    forall id ensures (id in s <==> id in t) && (id in s ==> s[id] == t[id]) {
      assert BestFor(inp, s, id, a, b) && BestFor(inp, t, id, a, b);
    }
  }

  lemma TagStepFor(inp: Inputs, seen: map<Id, real>, seen': map<Id, real>, a: nat, shared: bool, id: Id)
    requires a < |inp.recent| && BestFor(inp, seen, id, a, 0)
    requires shared == (!inp.Skip(inp.recent[a].id) && ShareTag(inp.lower, inp.mem.tags, inp.recent[a].tags))
    requires seen' == if shared then seen[inp.recent[a].id := RELATES_TAG_WEIGHT] else seen
    ensures BestFor(inp, seen', id, a + 1, 0)
  {
    assert forall w :: !NeighbourOffers(inp, id, w, 0);
    var e := inp.recent[a];
    assert TagOffers(inp, id, a + 1) <==>
           TagOffers(inp, id, a) || (e.id == id && ShareTag(inp.lower, inp.mem.tags, e.tags));
    assert Offers(inp, id, RELATES_TAG_WEIGHT, a, 0) <==> !inp.Skip(id) && TagOffers(inp, id, a);
    assert Offers(inp, id, RELATES_TAG_WEIGHT, a + 1, 0) <==> !inp.Skip(id) && TagOffers(inp, id, a + 1);
  }

  lemma TagStep(inp: Inputs, seen: map<Id, real>, seen': map<Id, real>, a: nat, shared: bool)
    requires a < |inp.recent| && BestOffers(inp, seen, a, 0)
    requires shared == (!inp.Skip(inp.recent[a].id) && ShareTag(inp.lower, inp.mem.tags, inp.recent[a].tags))
    requires seen' == if shared then seen[inp.recent[a].id := RELATES_TAG_WEIGHT] else seen
    ensures BestOffers(inp, seen', a + 1, 0)
  {
    var next := a + 1;
    forall id ensures BestFor(inp, seen', id, next, 0) {
      assert BestFor(inp, seen, id, a, 0);
      TagStepFor(inp, seen, seen', a, shared, id);
    }
  }

  method MatchTags(inp: Inputs) returns (seen: map<Id, real>)
    ensures BestOffers(inp, seen, |inp.recent|, 0)
  {
    seen := map[];
    for i := 0 to |inp.recent|
      invariant BestOffers(inp, seen, i, 0)
    {
      var e := inp.recent[i];
      if inp.Skip(e.id) {
        TagStep(inp, seen, seen, i, false);
        continue;
      }
      var shared := HasOverlappingTags(inp.lower, inp.mem.tags, e.tags);
      ghost var before := seen;
      if shared {
        seen := seen[e.id := RELATES_TAG_WEIGHT];
      }
      TagStep(inp, before, seen, i, shared);
    }
  }

  lemma OneMoreNeighbour(inp: Inputs, id: Id, w: real, b: nat)
    requires b < |inp.neighbours|
    ensures Offers(inp, id, w, |inp.recent|, b + 1) <==>
            Offers(inp, id, w, |inp.recent|, b) ||
            (!inp.Skip(id) && inp.neighbours[b] == Neighbour(id, w) && w >= Bar(inp))
  {
    assert NeighbourOffers(inp, id, w, b + 1) <==>
           NeighbourOffers(inp, id, w, b) || (inp.neighbours[b] == Neighbour(id, w) && w >= Bar(inp));
  }

  predicate Passes(inp: Inputs, seen: map<Id, real>, n: Neighbour) {
    !inp.Skip(n.id) && n.score >= Bar(inp) && !(n.id in seen && seen[n.id] >= n.score)
  }

  lemma NeighbourStepFor(inp: Inputs, seen: map<Id, real>, seen': map<Id, real>, b: nat, id: Id)
    requires b < |inp.neighbours| && BestFor(inp, seen, id, |inp.recent|, b)
    requires var n := inp.neighbours[b]; seen' == if Passes(inp, seen, n) then seen[n.id := n.score] else seen
    ensures BestFor(inp, seen', id, |inp.recent|, b + 1)
  {
    forall w ensures Offers(inp, id, w, |inp.recent|, b + 1) <==>
                     Offers(inp, id, w, |inp.recent|, b) ||
                     (!inp.Skip(id) && inp.neighbours[b] == Neighbour(id, w) && w >= Bar(inp))
    {
      OneMoreNeighbour(inp, id, w, b);
    }
    var n := inp.neighbours[b];
    if id == n.id {
      OneMoreNeighbour(inp, id, n.score, b);
      if id in seen' {
        OneMoreNeighbour(inp, id, seen'[id], b);
      }
    }
  }

  lemma NeighbourStep(inp: Inputs, seen: map<Id, real>, seen': map<Id, real>, b: nat)
    requires b < |inp.neighbours| && BestOffers(inp, seen, |inp.recent|, b)
    requires var n := inp.neighbours[b]; seen' == if Passes(inp, seen, n) then seen[n.id := n.score] else seen
    ensures BestOffers(inp, seen', |inp.recent|, b + 1)
  {
    var recent, next := |inp.recent|, b + 1;
    forall id ensures BestFor(inp, seen', id, recent, next) {
      assert BestFor(inp, seen, id, |inp.recent|, b);
      NeighbourStepFor(inp, seen, seen', b, id);
    }
  }

  lemma SkippedNeighboursOfferNothing(inp: Inputs, seen: map<Id, real>)
    requires BestOffers(inp, seen, |inp.recent|, 0) && Scores(inp, |inp.neighbours|) == []
    ensures BestOffers(inp, seen, |inp.recent|, |inp.neighbours|)
  {
    NoScoresAllSkipped(inp, |inp.neighbours|);
    forall id ensures BestFor(inp, seen, id, |inp.recent|, |inp.neighbours|) {
      assert BestFor(inp, seen, id, |inp.recent|, 0);
      assert forall w :: Offers(inp, id, w, |inp.recent|, |inp.neighbours|) <==> Offers(inp, id, w, |inp.recent|, 0);
    }
  }

  lemma {:induction false} NoScoresAllSkipped(inp: Inputs, n: nat)
    requires n <= |inp.neighbours| && Scores(inp, n) == []
    ensures forall k | 0 <= k < n :: inp.Skip(inp.neighbours[k].id)
  {
    if n > 0 {
      NoScoresAllSkipped(inp, n - 1);
    }
  }

  method MatchNeighbours(inp: Inputs, tagged: map<Id, real>) returns (seen: map<Id, real>)
    requires BestOffers(inp, tagged, |inp.recent|, 0)
    ensures BestOffers(inp, seen, |inp.recent|, |inp.neighbours|)
  {
    seen := tagged;
    var scores: seq<real> := [];
    for i := 0 to |inp.neighbours|
      invariant scores == Scores(inp, i)
    {
      if !inp.Skip(inp.neighbours[i].id) {
        scores := scores + [inp.neighbours[i].score];
      }
    }
    if scores == [] {
      SkippedNeighboursOfferNothing(inp, seen);
      return;
    }
    var floor := ComputeFloor(scores, inp.sqrt);
    for i := 0 to |inp.neighbours|
      invariant BestOffers(inp, seen, |inp.recent|, i)
    {
      var n := inp.neighbours[i];
      if inp.Skip(n.id) || n.score < floor {
        NeighbourStep(inp, seen, seen, i);
        continue;
      }
      if n.id in seen && seen[n.id] >= n.score {
        NeighbourStep(inp, seen, seen, i);
        continue;
      }
      NeighbourStep(inp, seen, seen[n.id := n.score], i);
      seen := seen[n.id := n.score];
    }
  }

  // ---- Which are linked

  /** Strongest first; equal weights in the text order of the identifiers. */
  predicate Stronger(a: Candidate, b: Candidate) {
    a.weight > b.weight || (a.weight == b.weight && LexLess(Text(a.id), Text(b.id)))
  }

  lemma StrongerOrders(s: set<Candidate>)
    ensures Orders(Stronger, s)
  {
    forall x, y, z | x in s && y in s && z in s && Stronger(x, y) && Stronger(y, z) ensures Stronger(x, z) {
      if x.weight == y.weight == z.weight {
        LexTransitive(Text(x.id), Text(y.id), Text(z.id));
      }
    }
    forall x, y | x in s && y in s ensures !Stronger(x, x) && (x != y ==> Stronger(x, y) || Stronger(y, x)) {
      LexTotal(Text(x.id), Text(x.id));
      TextOrderIsByteOrder(x.id, y.id);
      TextOrderIsByteOrder(y.id, x.id);
      LexTotal(x.id, y.id);
    }
  }

  ghost function Candidates(seen: map<Id, real>): set<Candidate> {
    set id | id in seen :: Candidate(id, seen[id])
  }

  /** `all` is the one ranking of the candidates. */
  ghost predicate Ranking(all: seq<Candidate>, seen: map<Id, real>) {
    Ascending(all, Stronger) && Elements(all) == Candidates(seen)
  }

  lemma RankingIsUnique(a: seq<Candidate>, b: seq<Candidate>, seen: map<Id, real>)
    requires Ranking(a, seen) && Ranking(b, seen)
    ensures a == b
  {
    StrongerOrders(Candidates(seen));
    AscendingUnique(a, b, Stronger);
  }

  method Collect(seen: map<Id, real>) returns (all: seq<Candidate>)
    ensures Ranking(all, seen)
  {
    var found: seq<Candidate> := [];
    var todo := seen.Keys;
    while todo != {}
      invariant todo <= seen.Keys
      invariant forall c :: c in found <==> c.id in seen.Keys - todo && c.weight == seen[c.id]
      invariant Distinct(found)
      decreases todo
    {
      var id :| id in todo;
      assert Candidate(id, seen[id]) !in found;
      todo := todo - {id};
      found := found + [Candidate(id, seen[id])];
    }
    all := Sort(found, Stronger);
    SortMembers(found, Stronger);
    assert Elements(found) == Candidates(seen);
    StrongerOrders(Candidates(seen));
    SortAscends(found, Stronger);
  }

  function Capped(all: seq<Candidate>): seq<Candidate> {
    if |all| > MAX_RELATES_PER_STORE then all[..MAX_RELATES_PER_STORE] else all
  }

  /** Heaviest first, and of equal weights the smaller text first. */
  ghost predicate ByWeight(edges: seq<Candidate>) {
    forall i, j | 0 <= i < j < |edges| ::
      && edges[i].weight >= edges[j].weight
      && (edges[i].weight == edges[j].weight ==> LexLess(Text(edges[i].id), Text(edges[j].id)))
  }

  /** Nothing left out weighs more than a link, nor as much with a smaller text. */
  ghost predicate NothingHeavierLeft(edges: seq<Candidate>, seen: map<Id, real>) {
    forall c, id | c in edges && id in seen && Candidate(id, seen[id]) !in edges ::
      seen[id] <= c.weight && (seen[id] == c.weight ==> LexLess(Text(c.id), Text(id)))
  }

  lemma CappedByWeight(seen: map<Id, real>, all: seq<Candidate>)
    requires Ranking(all, seen)
    ensures ByWeight(Capped(all)) && NothingHeavierLeft(Capped(all), seen)
    ensures |Capped(all)| <= 5 && forall id | id in seen :: |Capped(all)| == 5 || Candidate(id, seen[id]) in Capped(all)
  {
    var edges := Capped(all);
    forall i, j | 0 <= i < j < |all|
      ensures all[i].weight > all[j].weight ||
              (all[i].weight == all[j].weight && LexLess(Text(all[i].id), Text(all[j].id)))
    {
      assert Stronger(all[i], all[j]);
    }
    forall id | id in seen ensures Candidate(id, seen[id]) in all {
      assert Candidate(id, seen[id]) in Elements(all);
    }
    forall c, id | c in edges && id in seen && Candidate(id, seen[id]) !in edges
      ensures seen[id] <= c.weight && (seen[id] == c.weight ==> LexLess(Text(c.id), Text(id)))
    {
      var i :| 0 <= i < |edges| && edges[i] == c;
      var j :| 0 <= j < |all| && all[j] == Candidate(id, seen[id]);
      assert j >= |edges|;
    }
  }

  /** The links of a new memory; `seen` and `all` are what they were chosen from. */
  method AutoLinkByTags(inp: Inputs, writeFails: bool)
    returns (edges: seq<Candidate>, written: nat, ghost seen: map<Id, real>, ghost all: seq<Candidate>)
    ensures BestOffers(inp, seen, |inp.recent|, |inp.neighbours|) && Ranking(all, seen)
    ensures edges == Capped(all) && ByWeight(edges) && NothingHeavierLeft(edges, seen)
    ensures |edges| <= 5 && forall id | id in seen :: |edges| == 5 || Candidate(id, seen[id]) in edges
    ensures written == if writeFails then 0 else |edges|
  {
    var tagged := MatchTags(inp);
    var weights := MatchNeighbours(inp, tagged);
    var ranked := Collect(weights);
    edges := ranked;
    if |edges| > MAX_RELATES_PER_STORE {
      edges := edges[..MAX_RELATES_PER_STORE];
    }
    seen, all := weights, ranked;
    CappedByWeight(seen, all);
    written := if writeFails then 0 else |edges|;
  }

  /** The chosen links do not depend on map order: any two runs on the same inputs agree. */
  lemma LinksAreDetermined(inp: Inputs, s: map<Id, real>, a: seq<Candidate>, t: map<Id, real>, b: seq<Candidate>)
    requires BestOffers(inp, s, |inp.recent|, |inp.neighbours|) && Ranking(a, s)
    requires BestOffers(inp, t, |inp.recent|, |inp.neighbours|) && Ranking(b, t)
    ensures Capped(a) == Capped(b)
  {
    BestOffersAreUnique(inp, s, t, |inp.recent|, |inp.neighbours|);
    RankingIsUnique(a, b, s);
  }

  /** What a link's weight stands for: half for a shared tag, or the score of a neighbour that stands out. */
  ghost predicate Deserved(inp: Inputs, c: Candidate) {
    || (c.weight == 0.5 && TagOffers(inp, c.id, |inp.recent|))
    || (c.weight >= Bar(inp) && exists k | 0 <= k < |inp.neighbours| :: inp.neighbours[k] == Neighbour(c.id, c.weight))
  }

  /**
   * At most five links, each to another, unconnected memory, each with the largest weight that
   * memory deserves; listed by weight, and nothing heavier left out.
   */
  lemma LinksAreTheTop(inp: Inputs, seen: map<Id, real>, all: seq<Candidate>)
    requires BestOffers(inp, seen, |inp.recent|, |inp.neighbours|) && Ranking(all, seen)
    ensures var edges := Capped(all);
      && |edges| <= 5 && ByWeight(edges) && NothingHeavierLeft(edges, seen)
      && (forall c | c in edges ::
             && c.id != inp.mem.id && c.id !in inp.connected && c.id in seen && c.weight == seen[c.id]
             && Deserved(inp, c) && forall w | Deserved(inp, Candidate(c.id, w)) :: w <= c.weight)
      && (forall i, j | 0 <= i < j < |edges| :: edges[i].id != edges[j].id)
      && (forall id | id in seen :: |edges| == 5 || Candidate(id, seen[id]) in edges)
      && (forall id, w | !inp.Skip(id) && Deserved(inp, Candidate(id, w)) :: id in seen && w <= seen[id])
  {
    var edges := Capped(all);
    CappedByWeight(seen, all);
    forall id, w | !inp.Skip(id) && Deserved(inp, Candidate(id, w)) ensures id in seen && w <= seen[id] {
      assert BestFor(inp, seen, id, |inp.recent|, |inp.neighbours|);
      assert Offers(inp, id, w, |inp.recent|, |inp.neighbours|);
    }
    forall c | c in edges ensures c in Candidates(seen) && !inp.Skip(c.id) && Deserved(inp, c) {
      assert c in all && c in Elements(all);
      assert BestFor(inp, seen, c.id, |inp.recent|, |inp.neighbours|);
    }
    forall i, j | 0 <= i < j < |edges| ensures edges[i].id != edges[j].id {
      LexTotal(Text(edges[i].id), Text(edges[i].id));
      assert edges[i] in edges && edges[j] in edges;
    }
  }
}
