/**
 * Retrieval metrics: where a question's evidence landed, and the means reported over questions.
 * `gain` stands for rank -> 1 / log2(rank + 1), of which only positivity and strict decrease matter.
 */
module EvalMetrics {
  import opened Ordering

  type Doc = int
  type Sources = map<Doc, seq<string>>

  /** The identifying fields a result copies from its question are left out. */
  datatype QuestionResult = QuestionResult(annotated: nat, evidencePresent: nat, ranks: seq<int>) {
    predicate Scorable() { evidencePresent > 0 }
  }

  // ---- Locating evidence

  function TurnKey(conversation: string, dia: string): string {
    conversation + "/" + dia
  }

  function Truth(conversation: string, evidence: seq<string>, present: set<string>): set<string> {
    set dia | dia in evidence && TurnKey(conversation, dia) in present :: TurnKey(conversation, dia)
  }

  function SourcesOf(sources: Sources, doc: Doc): seq<string> {
    if doc in sources then sources[doc] else []
  }

  /** The 1-based rank of the first of `retrieved[..n]` that covers turn `s`; 0 when none does. */
  function FirstRank(s: string, retrieved: seq<Doc>, n: nat, sources: Sources): (rank: nat)
    requires n <= |retrieved|
    ensures rank <= n
    ensures rank > 0 ==> s in SourcesOf(sources, retrieved[rank - 1])
    ensures forall i | 0 <= i < n && s in SourcesOf(sources, retrieved[i]) :: 0 < rank <= i + 1
  {
    if n == 0 then 0
    else if FirstRank(s, retrieved, n - 1, sources) > 0 then FirstRank(s, retrieved, n - 1, sources)
    else if s in SourcesOf(sources, retrieved[n - 1]) then n
    else 0
  }

  ghost function TurnsAt(r: nat, truth: set<string>, retrieved: seq<Doc>, sources: Sources): set<string> {
    set s | s in truth && FirstRank(s, retrieved, |retrieved|, sources) == r
  }

  predicate Sorted(ranks: seq<int>) {
    forall i, j | 0 <= i < j < |ranks| :: ranks[i] <= ranks[j]
  }

  predicate Strict(ranks: seq<int>) {
    forall i, j | 0 <= i < j < |ranks| :: ranks[i] < ranks[j]
  }

  /** `ranks` lists in order the first rank of every retrieved turn, each turn once. */
  ghost predicate RanksOf(ranks: seq<int>, truth: set<string>, retrieved: seq<Doc>, sources: Sources) {
    && Sorted(ranks)
    && (forall r | r in ranks :: 1 <= r <= |retrieved|)
    && (forall r: nat | r > 0 :: multiset(ranks)[r] == |TurnsAt(r, truth, retrieved, sources)|)
    && |ranks| == |truth - TurnsAt(0, truth, retrieved, sources)|
  }

  predicate Below(a: int, b: int) { a < b }

  lemma InsertAbove(x: int, s: seq<int>, least: int)
    requires least <= x && forall k | 0 <= k < |s| :: least <= s[k]
    ensures forall k | 0 <= k < |Insert(x, s, Below)| :: least <= Insert(x, s, Below)[k]
  {
    var rest := Insert(x, s, Below);
    InsertMembers(x, s, Below);
    forall k | 0 <= k < |rest| ensures least <= rest[k] {
      assert rest[k] in multiset(rest);
      assert rest[k] in [x] + s;
    }
  }

  lemma {:induction false} InsertKeepsSorted(x: int, s: seq<int>)
    requires Sorted(s)
    ensures Sorted(Insert(x, s, Below))
  {
    if s != [] && Below(s[0], x) {
      InsertKeepsSorted(x, s[1..]);
      InsertAbove(x, s[1..], s[0]);
    }
  }

  lemma {:induction false} SortSorts(s: seq<int>)
    ensures Sorted(Sort(s, Below))
  {
    if s != [] {
      SortSorts(s[1..]);
      InsertKeepsSorted(s[0], Sort(s[1..], Below));
    }
  }

  ghost function At(m: map<string, nat>, keys: set<string>, r: nat): set<string> {
    set s | s in keys && s in m && m[s] == r
  }

  ghost predicate Tallied(values: seq<int>, m: map<string, nat>, keys: set<string>) {
    && |values| == |keys|
    && (forall r: nat :: multiset(values)[r] == |At(m, keys, r)|)
    && (forall k | 0 <= k < |values| :: values[k] in m.Values)
  }

  lemma AtOneMore(m: map<string, nat>, keys: set<string>, s: string, r: nat)
    requires s in m && s !in keys
    ensures |At(m, keys + {s}, r)| == |At(m, keys, r)| + if m[s] == r then 1 else 0
  {
    assert At(m, keys + {s}, r) == At(m, keys, r) + if m[s] == r then {s} else {};
  }

  lemma TallyOne(values: seq<int>, m: map<string, nat>, keys: set<string>, s: string)
    requires Tallied(values, m, keys) && s in m && s !in keys
    ensures Tallied(values + [m[s]], m, keys + {s})
  {
    forall r: nat ensures multiset(values + [m[s]])[r] == |At(m, keys + {s}, r)| {
      AtOneMore(m, keys, s, r);
    }
  }

  /** The values of `m` in the order the map yields them. */
  method Values(m: map<string, nat>) returns (values: seq<int>)
    ensures Tallied(values, m, m.Keys)
  {
    values := [];
    var todo := m.Keys;
    assert m.Keys - todo == {};
    assert forall r: nat :: At(m, {}, r) == {};
    while todo != {}
      invariant todo <= m.Keys
      invariant Tallied(values, m, m.Keys - todo)
      decreases todo
    {
      var s :| s in todo;
      TallyOne(values, m, m.Keys - todo, s);
      assert m.Keys - todo + {s} == m.Keys - (todo - {s});
      todo := todo - {s};
      values := values + [m[s]];
    }
    assert m.Keys - todo == m.Keys;
  }

  ghost predicate FoundUpTo(found: map<string, nat>, truth: set<string>, retrieved: seq<Doc>, n: nat, sources: Sources)
    requires n <= |retrieved|
  {
    forall s :: (s in found <==> s in truth && FirstRank(s, retrieved, n, sources) > 0) &&
      (s in found ==> found[s] == FirstRank(s, retrieved, n, sources))
  }

  lemma FoundRanks(found: map<string, nat>, truth: set<string>, retrieved: seq<Doc>, sources: Sources)
    requires FoundUpTo(found, truth, retrieved, |retrieved|, sources)
    ensures |found.Keys| == |truth - TurnsAt(0, truth, retrieved, sources)|
    ensures forall r: nat | r > 0 :: At(found, found.Keys, r) == TurnsAt(r, truth, retrieved, sources)
    ensures forall s | s in found :: 1 <= found[s] <= |retrieved|
  {
    assert found.Keys == truth - TurnsAt(0, truth, retrieved, sources);
  }

  method PresentTurns(conversation: string, evidence: seq<string>, present: set<string>) returns (truth: set<string>)
    ensures truth == Truth(conversation, evidence, present)
  {
    truth := {};
    for i := 0 to |evidence|
      invariant truth == Truth(conversation, evidence[..i], present)
    {
      var key := TurnKey(conversation, evidence[i]);
      assert evidence[..i + 1] == evidence[..i] + [evidence[i]];
      if key in present {
        truth := truth + {key};
      }
    }
    assert evidence[..|evidence|] == evidence;
  }

  lemma FoundNext(before: map<string, nat>, found: map<string, nat>, truth: set<string>, retrieved: seq<Doc>, i: nat,
                  sources: Sources)
    requires i < |retrieved| && FoundUpTo(before, truth, retrieved, i, sources)
    requires forall s :: s in found <==> s in before || (s in truth && s in SourcesOf(sources, retrieved[i]))
    requires forall s | s in found :: found[s] == if s in before then before[s] else i + 1
    ensures FoundUpTo(found, truth, retrieved, i + 1, sources)
  {
  }

  method FindTurns(truth: set<string>, retrieved: seq<Doc>, sources: Sources) returns (found: map<string, nat>)
    ensures FoundUpTo(found, truth, retrieved, |retrieved|, sources)
  {
    found := map[];
    for i := 0 to |retrieved|
      invariant FoundUpTo(found, truth, retrieved, i, sources)
    {
      var covered := SourcesOf(sources, retrieved[i]);
      ghost var before := found;
      for j := 0 to |covered|
        invariant forall s :: s in found <==> s in before || (s in truth && s in covered[..j])
        invariant forall s | s in found :: found[s] == if s in before then before[s] else i + 1
      {
        var s := covered[j];
        if s in truth && s !in found {
          found := found[s := i + 1];
        }
      }
      assert covered[..|covered|] == covered;
      FoundNext(before, found, truth, retrieved, i, sources);
    }
  }

  /** Turn `s` is present, and is one of the question's evidence in its conversation. */
  predicate IsPresent(conversation: string, evidence: seq<string>, present: set<string>, s: string) {
    s in present && exists k | 0 <= k < |evidence| :: s == conversation + "/" + evidence[k]
  }

  lemma TruthIs(conversation: string, evidence: seq<string>, present: set<string>, s: string)
    ensures s in Truth(conversation, evidence, present) <==> IsPresent(conversation, evidence, present, s)
  {
    if k :| 0 <= k < |evidence| && s == conversation + "/" + evidence[k] {
      assert evidence[k] in evidence && TurnKey(conversation, evidence[k]) == s;
    }
  }

  /** Relevance is per evidence turn: the first document covering a turn sets its rank. */
  method Score(conversation: string, evidence: seq<string>, retrieved: seq<Doc>, sources: Sources, present: set<string>)
    returns (res: QuestionResult)
    ensures res.annotated == |evidence|
    ensures res.evidencePresent == |Truth(conversation, evidence, present)|
    ensures forall s :: s in Truth(conversation, evidence, present) <==> IsPresent(conversation, evidence, present, s)
    ensures RanksOf(res.ranks, Truth(conversation, evidence, present), retrieved, sources)
  {
    var truth := PresentTurns(conversation, evidence, present);
    var found := FindTurns(truth, retrieved, sources);
    var values := Values(found);
    var ranks := Sort(values, Below);
    FoundRanks(found, truth, retrieved, sources);
    SortSorts(values);
    SortMembers(values, Below);
    forall r | r in ranks ensures 1 <= r <= |retrieved| {
      assert r in Elements(ranks);
      assert r in values;
    }
    res := QuestionResult(|evidence|, |truth|, ranks);
    forall s {
      TruthIs(conversation, evidence, present, s);
    }
  }

  // ---- nDCG

  ghost predicate Discount(gain: nat -> real) {
    forall r, q | 1 <= r < q :: gain(r) > gain(q) > 0.0
  }

  function Min(a: int, b: int): int { if a < b then a else b }

  predicate Positive(ranks: seq<int>) {
    forall i | 0 <= i < |ranks| :: ranks[i] >= 1
  }

  /** How many of the first `n` ranks are within `k`. */
  function Within(ranks: seq<int>, n: nat, k: int): (m: nat)
    requires n <= |ranks|
    ensures m <= n
  {
    if n == 0 then 0 else Within(ranks, n - 1, k) + if ranks[n - 1] <= k then 1 else 0
  }

  function Dcg(gain: nat -> real, ranks: seq<int>, n: nat, k: int): real
    requires n <= |ranks| && Positive(ranks)
  {
    if n == 0 then 0.0 else Dcg(gain, ranks, n - 1, k) + if ranks[n - 1] <= k then gain(ranks[n - 1]) else 0.0
  }

  function Ideal(gain: nat -> real, n: int): real
    decreases n
  {
    if n <= 0 then 0.0 else Ideal(gain, n - 1) + gain(n)
  }

  function Ndcg(gain: nat -> real, ranks: seq<int>, relevant: nat, k: int): real
    requires Positive(ranks)
  {
    var ideal := Ideal(gain, Min(relevant, k));
    if ideal == 0.0 then 0.0 else Dcg(gain, ranks, |ranks|, k) / ideal
  }

  method ComputeNdcg(gain: nat -> real, ranks: seq<int>, relevant: nat, k: int) returns (r: real)
    requires Positive(ranks)
    ensures r == Ndcg(gain, ranks, relevant, k)
  {
    var dcg := 0.0;
    for i := 0 to |ranks|
      invariant dcg == Dcg(gain, ranks, i, k)
    {
      if ranks[i] <= k {
        dcg := dcg + gain(ranks[i]);
      }
    }
    var ideal := 0.0;
    var i := 1;
    while i <= relevant && i <= k
      invariant 1 <= i
      invariant i > 1 ==> i <= relevant + 1 && i <= k + 1
      invariant ideal == Ideal(gain, i - 1)
    {
      ideal := ideal + gain(i);
      i := i + 1;
    }
    return if ideal == 0.0 then 0.0 else dcg / ideal;
  }
}
