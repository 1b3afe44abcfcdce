/** When nDCG stays within one: exactly for corpora in which no document is evidence for two turns. */
module EvalShared {
  import opened EvalMetrics
  import opened EvalLaws

  // ---- One more document

  function Repeat(x: int, n: nat): seq<int> {
    seq(n, i requires 0 <= i < n => x)
  }

  lemma {:induction false} RepeatCounts(x: int, n: nat, y: int)
    ensures multiset(Repeat(x, n))[y] == if y == x then n else 0
  {
    if n > 0 {
      RepeatCounts(x, n - 1, y);
      assert Repeat(x, n) == Repeat(x, n - 1) + [x];
    }
  }

  lemma {:induction false} FirstRankPrefix(s: string, retrieved: seq<Doc>, doc: Doc, n: nat, sources: Sources)
    requires n <= |retrieved|
    ensures FirstRank(s, retrieved + [doc], n, sources) == FirstRank(s, retrieved, n, sources)
  {
    if n > 0 {
      FirstRankPrefix(s, retrieved, doc, n - 1, sources);
    }
  }

  /** The turns a further document is the first to cover. */
  ghost function NewTurns(truth: set<string>, retrieved: seq<Doc>, sources: Sources, doc: Doc): set<string> {
    set s | s in TurnsAt(0, truth, retrieved, sources) && s in SourcesOf(sources, doc)
  }

  lemma TurnsAppend(truth: set<string>, retrieved: seq<Doc>, sources: Sources, doc: Doc, r: nat)
    ensures var turns, added := TurnsAt(r, truth, retrieved, sources), NewTurns(truth, retrieved, sources, doc);
      TurnsAt(r, truth, retrieved + [doc], sources) ==
      if r == 0 then turns - added else if r == |retrieved| + 1 then added else turns
    ensures r > |retrieved| ==> TurnsAt(r, truth, retrieved, sources) == {}
  {
    forall s | s in truth
      ensures FirstRank(s, retrieved + [doc], |retrieved| + 1, sources) ==
              if s in NewTurns(truth, retrieved, sources, doc) then |retrieved| + 1
              else FirstRank(s, retrieved, |retrieved|, sources)
    {
      FirstRankPrefix(s, retrieved, doc, |retrieved|, sources);
    }
  }

  lemma CountsAppend(ranks: seq<int>, truth: set<string>, retrieved: seq<Doc>, sources: Sources, doc: Doc, r: nat)
    requires RanksOf(ranks, truth, retrieved, sources) && r > 0
    ensures multiset(ranks + Repeat(|retrieved| + 1, |NewTurns(truth, retrieved, sources, doc)|))[r] ==
            |TurnsAt(r, truth, retrieved + [doc], sources)|
  {
    TurnsAppend(truth, retrieved, sources, doc, r);
    RepeatCounts(|retrieved| + 1, |NewTurns(truth, retrieved, sources, doc)|, r);
    assert multiset(ranks)[r] == |TurnsAt(r, truth, retrieved, sources)|;
  }

  lemma SeenAppend(truth: set<string>, retrieved: seq<Doc>, sources: Sources, doc: Doc)
    ensures |truth - TurnsAt(0, truth, retrieved + [doc], sources)| ==
            |truth - TurnsAt(0, truth, retrieved, sources)| + |NewTurns(truth, retrieved, sources, doc)|
  {
    var added, unseen := NewTurns(truth, retrieved, sources, doc), TurnsAt(0, truth, retrieved, sources);
    TurnsAppend(truth, retrieved, sources, doc, 0);
    assert truth - (unseen - added) == (truth - unseen) + added;
  }

  lemma SortedAppend(ranks: seq<int>, last: int, n: nat)
    requires Sorted(ranks) && forall r | r in ranks :: 1 <= r < last
    ensures Sorted(ranks + Repeat(last, n))
    ensures forall r | r in ranks + Repeat(last, n) :: 1 <= r <= last || (n > 0 && r == last)
  {
    assert forall i | 0 <= i < |ranks| :: ranks[i] in ranks;
  }

  lemma AssembleRanks(ranks: seq<int>, truth: set<string>, retrieved: seq<Doc>, sources: Sources)
    requires Sorted(ranks) && |ranks| == |truth - TurnsAt(0, truth, retrieved, sources)|
    requires forall r | r in ranks :: 1 <= r <= |retrieved|
    requires forall r: nat | r > 0 :: multiset(ranks)[r] == |TurnsAt(r, truth, retrieved, sources)|
    ensures RanksOf(ranks, truth, retrieved, sources)
  {
  }

  lemma RanksAppend(ranks: seq<int>, truth: set<string>, retrieved: seq<Doc>, sources: Sources, doc: Doc)
    requires RanksOf(ranks, truth, retrieved, sources)
    ensures RanksOf(ranks + Repeat(|retrieved| + 1, |NewTurns(truth, retrieved, sources, doc)|), truth,
                    retrieved + [doc], sources)
  {
    var n := |NewTurns(truth, retrieved, sources, doc)|;
    var last := |retrieved| + 1;
    var ranks', retrieved' := ranks + Repeat(last, n), retrieved + [doc];
    forall r: nat | r > 0 ensures multiset(ranks')[r] == |TurnsAt(r, truth, retrieved', sources)| {
      CountsAppend(ranks, truth, retrieved, sources, doc, r);
    }
    SeenAppend(truth, retrieved, sources, doc);
    SortedAppend(ranks, last, n);
    AssembleRanks(ranks', truth, retrieved', sources);
  }

  // ---- A ranking that beats the ideal

  /** The top document covers two turns, and every place after it one more. */
  predicate Crowded(ranks: seq<int>, places: nat) {
    0 < places < |ranks| && ranks[0] == 1 && forall i | 1 <= i < |ranks| :: 1 <= ranks[i] <= i
  }

  predicate NoRepeats(retrieved: seq<Doc>) {
    forall i, j | 0 <= i < j < |retrieved| :: retrieved[i] != retrieved[j]
  }

  /** Every turn the corpus is said to hold has a document. */
  ghost predicate Covered(truth: set<string>, sources: Sources) {
    forall s | s in truth :: exists doc :: s in SourcesOf(sources, doc)
  }

  ghost predicate Packed(ranks: seq<int>, truth: set<string>, retrieved: seq<Doc>, sources: Sources) {
    RanksOf(ranks, truth, retrieved, sources) && Crowded(ranks, |retrieved|) && NoRepeats(retrieved)
  }

  lemma CrowdedAppend(ranks: seq<int>, places: nat, n: nat)
    requires Crowded(ranks, places) && n > 0
    ensures Crowded(ranks + Repeat(places + 1, n), places + 1)
  {
  }

  lemma FewerUnseen(truth: set<string>, retrieved: seq<Doc>, sources: Sources, doc: Doc, s: string)
    requires s in TurnsAt(0, truth, retrieved, sources) && s in SourcesOf(sources, doc)
    ensures |NewTurns(truth, retrieved, sources, doc)| > 0
    ensures |TurnsAt(0, truth, retrieved + [doc], sources)| < |TurnsAt(0, truth, retrieved, sources)|
    ensures doc !in retrieved
  {
    var added, unseen := NewTurns(truth, retrieved, sources, doc), TurnsAt(0, truth, retrieved, sources);
    TurnsAppend(truth, retrieved, sources, doc, 0);
    assert s in added && unseen == added + (unseen - added);
  }

  lemma PackOne(ranks: seq<int>, truth: set<string>, retrieved: seq<Doc>, sources: Sources, doc: Doc, s: string)
    returns (ranks': seq<int>, retrieved': seq<Doc>)
    requires Packed(ranks, truth, retrieved, sources) && s in TurnsAt(0, truth, retrieved, sources) &&
             s in SourcesOf(sources, doc)
    ensures Packed(ranks', truth, retrieved', sources)
    ensures |TurnsAt(0, truth, retrieved', sources)| < |TurnsAt(0, truth, retrieved, sources)|
  {
    var n := |NewTurns(truth, retrieved, sources, doc)|;
    ranks', retrieved' := ranks + Repeat(|retrieved| + 1, n), retrieved + [doc];
    FewerUnseen(truth, retrieved, sources, doc, s);
    RanksAppend(ranks, truth, retrieved, sources, doc);
    CrowdedAppend(ranks, |retrieved|, n);
  }

  lemma AllSeen(ranks: seq<int>, truth: set<string>, retrieved: seq<Doc>, sources: Sources)
    requires RanksOf(ranks, truth, retrieved, sources) && TurnsAt(0, truth, retrieved, sources) == {}
    ensures |ranks| == |truth|
  {
    assert truth - {} == truth;
  }

  lemma {:induction false} CrowdOn(ranks: seq<int>, truth: set<string>, retrieved: seq<Doc>, sources: Sources)
    returns (ranks': seq<int>, retrieved': seq<Doc>)
    requires Packed(ranks, truth, retrieved, sources) && Covered(truth, sources)
    ensures Packed(ranks', truth, retrieved', sources) && |ranks'| == |truth|
    decreases |TurnsAt(0, truth, retrieved, sources)|
  {
    var unseen := TurnsAt(0, truth, retrieved, sources);
    ranks', retrieved' := ranks, retrieved;
    if s :| s in unseen {
      var doc :| s in SourcesOf(sources, doc);
      ranks', retrieved' := PackOne(ranks, truth, retrieved, sources, doc, s);
      ranks', retrieved' := CrowdOn(ranks', truth, retrieved', sources);
    } else {
      AllSeen(ranks, truth, retrieved, sources);
    }
  }

  lemma FirstRanks(truth: set<string>, sources: Sources, doc: Doc) returns (ranks: seq<int>)
    ensures ranks == Repeat(1, |NewTurns(truth, [], sources, doc)|) && RanksOf(ranks, truth, [doc], sources)
  {
    NothingRetrieved(truth, sources);
    RanksAppend([], truth, [], sources, doc);
    ranks := Repeat(1, |NewTurns(truth, [], sources, doc)|);
    assert [] + [doc] == [doc] && [] + ranks == ranks;
  }

  lemma FirstDocument(truth: set<string>, sources: Sources, doc: Doc, s: string, t: string) returns (ranks: seq<int>)
    requires s in truth && t in truth && s != t && s in SourcesOf(sources, doc) && t in SourcesOf(sources, doc)
    ensures Packed(ranks, truth, [doc], sources)
  {
    ranks := FirstRanks(truth, sources, doc);
    AtLeastTwo(NewTurns(truth, [], sources, doc), s, t);
  }

  lemma NothingRetrieved(truth: set<string>, sources: Sources)
    ensures RanksOf([], truth, [], sources)
    ensures TurnsAt(0, truth, [], sources) == truth
  {
  }

  lemma {:induction false} CrowdedBeatsIdeal(gain: nat -> real, ranks: seq<int>, n: nat, k: int)
    requires Discount(gain) && Positive(ranks) && n <= |ranks| && n <= k
    requires ranks != [] && ranks[0] == 1 && forall i | 1 <= i < |ranks| :: ranks[i] <= i
    ensures Dcg(gain, ranks, n, k) >= Ideal(gain, n)
    ensures n >= 2 ==> Dcg(gain, ranks, n, k) > Ideal(gain, n)
  {
    if n > 0 {
      CrowdedBeatsIdeal(gain, ranks, n - 1, k);
      var r: nat := ranks[n - 1];
      assert n > 1 ==> gain(r) > gain(n);
    }
  }

  lemma {:induction false} DcgGrows(gain: nat -> real, ranks: seq<int>, m: nat, n: nat, k: int)
    requires Discount(gain) && Positive(ranks) && m <= n <= |ranks|
    ensures Dcg(gain, ranks, m, k) <= Dcg(gain, ranks, n, k)
    decreases n
  {
    if m < n {
      DcgGrows(gain, ranks, m, n - 1, k);
      var r := ranks[n - 1];
      assert gain(r) > gain(r + 1) > 0.0;
    }
  }

  lemma Excess(a: real, b: real)
    requires a > b > 0.0
    ensures a / b > 1.0
  {
    assert a / b * b == a;
  }

  lemma CrowdedNdcg(gain: nat -> real, ranks: seq<int>, places: nat, k: int)
    requires Discount(gain) && Positive(ranks) && Crowded(ranks, places) && k > 0
    ensures Ndcg(gain, ranks, |ranks|, k) > 1.0
  {
    var top := Min(|ranks|, k);
    if k == 1 {
      assert gain(1) > gain(2) > 0.0 && ranks[1] == 1;
      assert Dcg(gain, ranks, 2, 1) == Dcg(gain, ranks, 1, 1) + gain(1);
      DcgGrows(gain, ranks, 2, |ranks|, k);
    } else {
      CrowdedBeatsIdeal(gain, ranks, top, k);
      DcgGrows(gain, ranks, top, |ranks|, k);
    }
    IdealGrows(gain, 0, top);
    Excess(Dcg(gain, ranks, |ranks|, k), Ideal(gain, top));
  }

  // ---- The exact condition

  ghost predicate WithinOne(gain: nat -> real, ranks: seq<int>, relevant: nat, k: int) {
    Positive(ranks) && Ndcg(gain, ranks, relevant, k) <= 1.0
  }

  /** However a question's documents are ranked, its nDCG is at most one. */
  ghost predicate AlwaysWithinOne(gain: nat -> real, truth: set<string>, sources: Sources, k: int) {
    forall retrieved, ranks | NoRepeats(retrieved) && RanksOf(ranks, truth, retrieved, sources) ::
      WithinOne(gain, ranks, |truth|, k)
  }

  predicate SharedBy(sources: Sources, doc: Doc, s: string, t: string) {
    s in SourcesOf(sources, doc) && t in SourcesOf(sources, doc)
  }

  ghost predicate OneTurnEach(truth: set<string>, sources: Sources) {
    forall doc, s, t | s in truth && t in truth && SharedBy(sources, doc, s, t) :: s == t
  }

  lemma SharingBeatsIdeal(gain: nat -> real, truth: set<string>, sources: Sources, k: int, doc: Doc, s: string,
                          t: string)
    returns (retrieved: seq<Doc>, ranks: seq<int>)
    requires Discount(gain) && k > 0 && Covered(truth, sources)
    requires s in truth && t in truth && s != t && s in SourcesOf(sources, doc) && t in SourcesOf(sources, doc)
    ensures NoRepeats(retrieved) && RanksOf(ranks, truth, retrieved, sources) && Positive(ranks)
    ensures Ndcg(gain, ranks, |truth|, k) > 1.0
  {
    ranks := FirstDocument(truth, sources, doc, s, t);
    ranks, retrieved := CrowdOn(ranks, truth, [doc], sources);
    RanksFitPresent(ranks, truth, retrieved, sources);
    CrowdedNdcg(gain, ranks, |retrieved|, k);
  }

  lemma EachIsPerDoc(truth: set<string>, retrieved: seq<Doc>, sources: Sources)
    requires OneTurnEach(truth, sources)
    ensures OneTurnPerDoc(truth, retrieved, sources)
  {
    forall i, s, t | 0 <= i < |retrieved| && s in truth && t in truth && SharedBy(sources, retrieved[i], s, t)
      ensures s == t
    {
    }
  }

  lemma ApartIsWithinOne(gain: nat -> real, truth: set<string>, sources: Sources, k: int)
    requires Discount(gain) && OneTurnEach(truth, sources)
    ensures AlwaysWithinOne(gain, truth, sources, k)
  {
    forall retrieved, ranks | NoRepeats(retrieved) && RanksOf(ranks, truth, retrieved, sources)
      ensures WithinOne(gain, ranks, |truth|, k)
    {
      EachIsPerDoc(truth, retrieved, sources);
      ScoredNdcgIsBounded(gain, ranks, truth, retrieved, sources, k);
    }
  }

  /**
   * Some ranking of a question's documents scores above the ideal exactly when one document is
   * evidence for two of its turns, at any depth.
   */
  lemma NdcgIsBoundedIff(gain: nat -> real, truth: set<string>, sources: Sources, k: int)
    requires Discount(gain) && k > 0 && Covered(truth, sources)
    ensures AlwaysWithinOne(gain, truth, sources, k) <==> OneTurnEach(truth, sources)
  {
    if OneTurnEach(truth, sources) {
      ApartIsWithinOne(gain, truth, sources, k);
    } else {
      var doc, s, t :| s in truth && t in truth && SharedBy(sources, doc, s, t) && s != t;
      var retrieved, ranks := SharingBeatsIdeal(gain, truth, sources, k, doc, s, t);
    }
  }
}
