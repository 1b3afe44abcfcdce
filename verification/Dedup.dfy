/**
 * When two memories say the same thing. One memory is redundant when its content words appear in
 * the other, in order, with matching polarity.
 */
module Dedup {
  import opened Content
  import opened Ordering

  datatype MemoryType = Episodic | Semantic | Procedural

  datatype Extracted = Extracted(content: string, kind: MemoryType, tags: seq<string>, entities: seq<string>)

  datatype Subsumption = Unrelated | Equivalent | NewSubsumesOld | OldSubsumesNew

  const MIN_SUBSUMPTION_TOKENS := 3

  predicate HasPolarityMarker(lex: Lexicon, tokens: seq<string>) {
    exists t :: t in tokens && t in lex.markers
  }

  method ScanPolarity(lex: Lexicon, tokens: seq<string>) returns (found: bool)
    ensures found <==> HasPolarityMarker(lex, tokens)
  {
    for i := 0 to |tokens|
      invariant forall k | 0 <= k < i :: tokens[k] !in lex.markers
    {
      if tokens[i] in lex.markers {
        return true;
      }
    }
    return false;
  }

  // ---- Ordered subsequence

  /** `at` places every token of `inner` in `outer`, at strictly increasing positions. */
  ghost predicate Embeds(inner: seq<string>, outer: seq<string>, at: seq<nat>) {
    && |at| == |inner|
    && (forall i | 0 <= i < |at| :: at[i] < |outer| && outer[at[i]] == inner[i])
    && (forall i, j | 0 <= i < j < |at| :: at[i] < at[j])
  }

  ghost predicate Subsequence(inner: seq<string>, outer: seq<string>) {
    exists at :: Embeds(inner, outer, at)
  }

  /** How many tokens of `inner` one greedy pass over `outer` has matched. */
  function Matched(inner: seq<string>, outer: seq<string>): (n: nat)
    ensures n <= |inner| && n <= |outer|
  {
    if outer == [] then 0
    else
      var n := Matched(inner, outer[..|outer| - 1]);
      if n < |inner| && inner[n] == outer[|outer| - 1] then n + 1 else n
  }

  predicate InOrder(inner: seq<string>, outer: seq<string>) {
    |inner| <= |outer| && Matched(inner, outer) == |inner|
  }

  method IsOrderedSubsequence(inner: seq<string>, outer: seq<string>) returns (b: bool)
    ensures b <==> InOrder(inner, outer)
    ensures b <==> Subsequence(inner, outer)
  {
    GreedyFindsEveryEmbedding(inner, outer);
    if |inner| > |outer| {
      return false;
    }
    var i := 0;
    for k := 0 to |outer|
      invariant i == Matched(inner, outer[..k])
    {
      assert outer[..k + 1][..k] == outer[..k];
      if i < |inner| && inner[i] == outer[k] {
        i := i + 1;
      }
    }
    assert outer[..|outer|] == outer;
    return i == |inner|;
  }

  lemma {:induction false} GreedyIsSound(inner: seq<string>, outer: seq<string>) returns (at: seq<nat>)
    ensures Embeds(inner[..Matched(inner, outer)], outer, at)
  {
    if outer == [] {
      at := [];
    } else {
      var front := outer[..|outer| - 1];
      at := GreedyIsSound(inner, front);
      if Matched(inner, outer) > Matched(inner, front) {
        at := at + [|outer| - 1];
      }
    }
  }

  lemma {:induction false} GreedyIsComplete(inner: seq<string>, outer: seq<string>, at: seq<nat>)
    requires |at| <= |inner| && Embeds(inner[..|at|], outer, at)
    ensures Matched(inner, outer) >= |at|
  {
    if at != [] {
      var m, last := |at|, |outer| - 1;
      if at[m - 1] == last {
        assert inner[..m][m - 1] == inner[m - 1];
        assert inner[..m - 1] == inner[..m][..m - 1];
        GreedyIsComplete(inner, outer[..last], at[..m - 1]);
      } else {
        GreedyIsComplete(inner, outer[..last], at);
      }
    }
  }

  /** The one-pass scan answers exactly whether an embedding exists. */
  lemma GreedyFindsEveryEmbedding(inner: seq<string>, outer: seq<string>)
    ensures InOrder(inner, outer) <==> Subsequence(inner, outer)
  {
    assert inner[..|inner|] == inner;
    if InOrder(inner, outer) {
      var at := GreedyIsSound(inner, outer);
      assert Embeds(inner, outer, at);
    }
    if at :| Embeds(inner, outer, at) {
      GreedyIsComplete(inner, outer, at);
    }
  }

  lemma InOrderReflexive(a: seq<string>)
    ensures InOrder(a, a)
  {
    assert Embeds(a, a, seq(|a|, i => i));
    GreedyFindsEveryEmbedding(a, a);
  }

  lemma InOrderTransitive(a: seq<string>, b: seq<string>, c: seq<string>)
    requires InOrder(a, b) && InOrder(b, c)
    ensures InOrder(a, c)
  {
    GreedyFindsEveryEmbedding(a, b);
    GreedyFindsEveryEmbedding(b, c);
    var f :| Embeds(a, b, f);
    var g :| Embeds(b, c, g);
    assert Embeds(a, c, seq(|f|, i requires 0 <= i < |f| => g[f[i]]));
    GreedyFindsEveryEmbedding(a, c);
  }

  lemma InOrderAntisymmetric(a: seq<string>, b: seq<string>)
    requires InOrder(a, b) && InOrder(b, a)
    ensures a == b
  {
    GreedyFindsEveryEmbedding(a, b);
    var at :| Embeds(a, b, at);
    forall i | 0 <= i < |a| ensures at[i] == i {
      PositionsClimb(at, i, |b|);
    }
  }

  lemma {:induction false} PositionsClimb(at: seq<nat>, i: nat, bound: nat)
    requires i < |at|
    requires forall k | 0 <= k < |at| :: at[k] < bound
    requires forall j, k | 0 <= j < k < |at| :: at[j] < at[k]
    ensures i <= at[i] <= bound - (|at| - i)
  {
    PositionsAtLeast(at, i);
    PositionsAtMost(at, i, bound);
  }

  lemma {:induction false} PositionsAtLeast(at: seq<nat>, i: nat)
    requires i < |at|
    requires forall j, k | 0 <= j < k < |at| :: at[j] < at[k]
    ensures i <= at[i]
  {
    if i > 0 { PositionsAtLeast(at, i - 1); }
  }

  lemma {:induction false} PositionsAtMost(at: seq<nat>, i: nat, bound: nat)
    requires i < |at|
    requires forall k | 0 <= k < |at| :: at[k] < bound
    requires forall j, k | 0 <= j < k < |at| :: at[j] < at[k]
    ensures at[i] <= bound - (|at| - i)
    decreases |at| - i
  {
    if i + 1 < |at| { PositionsAtMost(at, i + 1, bound); }
  }

  // ---- Subsumption

  function CompareTokens(lex: Lexicon, newer: seq<string>, prior: seq<string>): Subsumption {
    if |newer| < MIN_SUBSUMPTION_TOKENS || |prior| < MIN_SUBSUMPTION_TOKENS then Unrelated
    else if HasPolarityMarker(lex, newer) != HasPolarityMarker(lex, prior) then Unrelated
    else if InOrder(prior, newer) && InOrder(newer, prior) then Equivalent
    else if InOrder(prior, newer) then NewSubsumesOld
    else if InOrder(newer, prior) then OldSubsumesNew
    else Unrelated
  }

  function Subsumes(lex: Lexicon, newer: string, prior: string): Subsumption {
    CompareTokens(lex, lex.Tokens(newer), lex.Tokens(prior))
  }

  /** `big` says everything `small` says: its tokens in order, and neither negated against the other. */
  predicate SaysAll(lex: Lexicon, big: string, small: string) {
    && InOrder(lex.Tokens(small), lex.Tokens(big))
    && HasPolarityMarker(lex, lex.Tokens(small)) == HasPolarityMarker(lex, lex.Tokens(big))
  }

  lemma SaysAllReflexive(lex: Lexicon, a: string)
    ensures SaysAll(lex, a, a)
  {
    InOrderReflexive(lex.Tokens(a));
  }

  lemma SaysAllTransitive(lex: Lexicon, a: string, b: string, c: string)
    requires SaysAll(lex, a, b) && SaysAll(lex, b, c)
    ensures SaysAll(lex, a, c)
  {
    InOrderTransitive(lex.Tokens(c), lex.Tokens(b), lex.Tokens(a));
  }

  /** What each verdict is evidence of, both ways, above the content-mass threshold. */
  lemma VerdictMeaning(lex: Lexicon, newer: string, prior: string)
    requires |lex.Tokens(newer)| >= MIN_SUBSUMPTION_TOKENS && |lex.Tokens(prior)| >= MIN_SUBSUMPTION_TOKENS
    ensures SaysAll(lex, newer, prior) <==> Subsumes(lex, newer, prior) in {Equivalent, NewSubsumesOld}
    ensures SaysAll(lex, prior, newer) <==> Subsumes(lex, newer, prior) in {Equivalent, OldSubsumesNew}
    ensures Subsumes(lex, newer, prior) == Equivalent <==> lex.Tokens(newer) == lex.Tokens(prior)
  {
    if SaysAll(lex, newer, prior) && SaysAll(lex, prior, newer) {
      InOrderAntisymmetric(lex.Tokens(newer), lex.Tokens(prior));
    }
    InOrderReflexive(lex.Tokens(newer));
  }

  /** Below three tokens, or with one text negated and the other not, nothing is said; else the embeddings decide. */
  lemma VerdictIff(lex: Lexicon, newer: string, prior: string)
    ensures var a, b := lex.Tokens(newer), lex.Tokens(prior);
      var comparable := |a| >= 3 && |b| >= 3 &&
                        ((exists t :: t in a && t in lex.markers) <==> (exists t :: t in b && t in lex.markers));
      match Subsumes(lex, newer, prior)
      case Equivalent => comparable && a == b
      case NewSubsumesOld => comparable && a != b && Subsequence(b, a)
      case OldSubsumesNew => comparable && a != b && Subsequence(a, b)
      case Unrelated => !comparable || (!Subsequence(a, b) && !Subsequence(b, a))
  {
    var a, b := lex.Tokens(newer), lex.Tokens(prior);
    GreedyFindsEveryEmbedding(a, b);
    GreedyFindsEveryEmbedding(b, a);
    InOrderReflexive(a);
    if InOrder(a, b) && InOrder(b, a) {
      InOrderAntisymmetric(a, b);
    }
  }

  /** The comparison and the fingerprint agree exactly where both are defined. */
  lemma EquivalentIffSameHash(lex: Lexicon, newer: string, prior: string, texts: set<string>)
    requires lex.CollisionFree(texts) && newer in texts && prior in texts
    ensures Subsumes(lex, newer, prior) == Equivalent
       <==> lex.Hash(newer) == lex.Hash(prior) && |lex.Tokens(newer)| >= MIN_SUBSUMPTION_TOKENS
  {
    lex.HashAgreesWithTokens(newer, prior, texts);
    if |lex.Tokens(newer)| >= MIN_SUBSUMPTION_TOKENS && |lex.Tokens(prior)| >= MIN_SUBSUMPTION_TOKENS {
      VerdictMeaning(lex, newer, prior);
    }
  }

  // ---- Tags

  function TrimSpace(s: string): string
    decreases |s|
  {
    if s != "" && IsSpace(s[0]) then TrimSpace(s[1..])
    else if s != "" && IsSpace(s[|s| - 1]) then TrimSpace(s[..|s| - 1])
    else s
  }

  /** Tags compare without case or surrounding space; a blank one has the empty key. */
  function TagKey(lex: Lexicon, tag: string): string {
    lex.Lowered(TrimSpace(tag))
  }

  ghost predicate HasTag(lex: Lexicon, tags: seq<string>, key: string) {
    exists u :: u in tags && TagKey(lex, u) == key
  }

  function Keys(lex: Lexicon, tags: seq<string>): set<string> {
    set t | t in tags :: TagKey(lex, t)
  }

  function KeepFirst(lex: Lexicon, tags: seq<string>): seq<string> {
    if tags == [] then []
    else
      var kept := KeepFirst(lex, tags[..|tags| - 1]);
      var t := tags[|tags| - 1];
      if TagKey(lex, t) == "" || TagKey(lex, t) in Keys(lex, kept) then kept else kept + [t]
  }

  lemma KeepFirstNext(lex: Lexicon, tags: seq<string>, i: nat)
    requires i < |tags|
    ensures var kept, key := KeepFirst(lex, tags[..i]), TagKey(lex, tags[i]);
      && KeepFirst(lex, tags[..i + 1]) == (if key == "" || key in Keys(lex, kept) then kept else kept + [tags[i]])
      && Keys(lex, kept + [tags[i]]) == Keys(lex, kept) + {key}
  {
    assert tags[..i + 1][..i] == tags[..i];
    KeysAppend(lex, KeepFirst(lex, tags[..i]), tags[i]);
  }

  method UnionTags(lex: Lexicon, a: seq<string>, b: seq<string>) returns (out: seq<string>)
    ensures out == KeepFirst(lex, a + b)
    ensures forall key :: HasTag(lex, out, key) <==> key != "" && HasTag(lex, a + b, key)
    ensures forall i, j | 0 <= i < j < |out| :: TagKey(lex, out[i]) != TagKey(lex, out[j])
  {
    var all := a + b;
    var seen: set<string> := {};
    out := [];
    for i := 0 to |all|
      invariant out == KeepFirst(lex, all[..i])
      invariant seen == Keys(lex, out)
    {
      var key := TagKey(lex, all[i]);
      KeepFirstNext(lex, all, i);
      if key != "" && key !in seen {
        seen := seen + {key};
        out := out + [all[i]];
      }
    }
    assert all[..|all|] == all;
    KeepFirstTags(lex, all);
  }

  lemma {:induction false} KeepFirstTags(lex: Lexicon, tags: seq<string>)
    ensures forall key :: HasTag(lex, KeepFirst(lex, tags), key) <==> key != "" && HasTag(lex, tags, key)
    ensures forall i, j | 0 <= i < j < |KeepFirst(lex, tags)| ::
              TagKey(lex, KeepFirst(lex, tags)[i]) != TagKey(lex, KeepFirst(lex, tags)[j])
  {
    if tags != [] {
      var front, t := tags[..|tags| - 1], tags[|tags| - 1];
      KeepFirstTags(lex, front);
      assert tags == front + [t];
      var kept, out := KeepFirst(lex, front), KeepFirst(lex, tags);
      forall key ensures HasTag(lex, tags, key) <==> HasTag(lex, front, key) || key == TagKey(lex, t) {
        AppendedTag(lex, front, t, key);
      }
      forall key ensures HasTag(lex, out, key) <==> key != "" && HasTag(lex, tags, key) {
        AppendedTag(lex, kept, t, key);
      }
    }
  }

  lemma KeysAppend(lex: Lexicon, tags: seq<string>, t: string)
    ensures Keys(lex, tags + [t]) == Keys(lex, tags) + {TagKey(lex, t)}
  {
    assert t in tags + [t];
    assert forall u :: u in tags + [t] <==> u in tags || u == t;
  }

  lemma AppendedTag(lex: Lexicon, tags: seq<string>, t: string, key: string)
    ensures HasTag(lex, tags + [t], key) <==> HasTag(lex, tags, key) || key == TagKey(lex, t)
    ensures HasTag(lex, tags, key) <==> key in Keys(lex, tags)
  {
    assert t in tags + [t];
    if HasTag(lex, tags, key) {
      var u :| u in tags && TagKey(lex, u) == key;
      assert u in tags + [t];
    }
  }

  function TagKeys(lex: Lexicon, tags: seq<string>): seq<string> {
    seq(|tags|, i requires 0 <= i < |tags| => TagKey(lex, tags[i]))
  }

  /** The tags kept are the first with each key, in order and spelled as there. */
  lemma {:induction false} KeepFirstIs(lex: Lexicon, tags: seq<string>)
    ensures var at := Firsts(TagKeys(lex, tags));
      && |KeepFirst(lex, tags)| == |at|
      && forall i | 0 <= i < |at| :: at[i] < |tags| && KeepFirst(lex, tags)[i] == tags[at[i]]
  {
    if tags != [] {
      var n, keys := |tags| - 1, TagKeys(lex, tags);
      var front := tags[..n];
      KeepFirstIs(lex, front);
      assert keys[..n] == TagKeys(lex, front);
      FirstsAre(keys[..n]);
      KeptKeys(lex, front, keys[n]);
    }
  }

  lemma KeptKeys(lex: Lexicon, tags: seq<string>, key: string)
    ensures key != "" ==> (key in Keys(lex, KeepFirst(lex, tags)) <==> key in TagKeys(lex, tags))
  {
    KeepFirstTags(lex, tags);
    assert HasTag(lex, KeepFirst(lex, tags), key) <==> key != "" && HasTag(lex, tags, key);
    if key in TagKeys(lex, tags) {
      var i :| 0 <= i < |tags| && TagKeys(lex, tags)[i] == key;
      assert tags[i] in tags && HasTag(lex, tags, key);
    }
    if HasTag(lex, tags, key) {
      var u :| u in tags && TagKey(lex, u) == key;
      var i :| 0 <= i < |tags| && tags[i] == u;
      assert TagKeys(lex, tags)[i] == key;
    }
  }

  // ---- Folding one extraction

  predicate Hosts(lex: Lexicon, k: Extracted, m: Extracted) {
    k.kind == m.kind && Subsumes(lex, m.content, k.content) != Unrelated
  }

  /** The first position from `from` on whose element satisfies `p`, or |xs|. */
  function FirstWhere<T>(p: T -> bool, xs: seq<T>, from: nat): (i: nat)
    requires from <= |xs|
    ensures from <= i <= |xs|
    ensures i < |xs| ==> p(xs[i])
    ensures forall k | from <= k < i :: !p(xs[k])
    decreases |xs| - from
  {
    if from == |xs| || p(xs[from]) then from else FirstWhere(p, xs, from + 1)
  }

  /** The first kept memory of the same type that is not unrelated to `m`, or |kept|. */
  function FindHost(lex: Lexicon, kept: seq<Extracted>, m: Extracted, from: nat): (i: nat)
    requires from <= |kept|
    ensures from <= i <= |kept|
    ensures i < |kept| ==> Hosts(lex, kept[i], m)
    ensures forall k | from <= k < i :: !Hosts(lex, kept[k], m)
  {
    FirstWhere((k: Extracted) => Hosts(lex, k, m), kept, from)
  }

  function Absorb(lex: Lexicon, kept: seq<Extracted>, m: Extracted): seq<Extracted> {
    var i := FindHost(lex, kept, m, 0);
    if i == |kept| then kept + [m]
    else
      var tags := KeepFirst(lex, kept[i].tags + m.tags);
      if Subsumes(lex, m.content, kept[i].content) == OldSubsumesNew
      then kept[i := kept[i].(tags := tags)]
      else kept[i := kept[i].(content := m.content, tags := tags)]
  }

  function Fold(lex: Lexicon, memories: seq<Extracted>): seq<Extracted> {
    if memories == [] then [] else Absorb(lex, Fold(lex, memories[..|memories| - 1]), memories[|memories| - 1])
  }

  method FoldRedundant(lex: Lexicon, memories: seq<Extracted>) returns (kept: seq<Extracted>)
    ensures kept == Fold(lex, memories)
  {
    kept := [];
    for n := 0 to |memories|
      invariant kept == Fold(lex, memories[..n])
    {
      ghost var before := kept;
      assert memories[..n + 1][..n] == memories[..n];
      var m := memories[n];
      var merged := false;
      var i := 0;
      while i < |kept| && !merged
        invariant i <= |kept|
        invariant !merged ==> kept == before && FindHost(lex, before, m, 0) == FindHost(lex, before, m, i)
        invariant merged ==> kept == Absorb(lex, before, m)
        decreases |kept| - i, !merged
      {
        if kept[i].kind == m.kind {
          match Subsumes(lex, m.content, kept[i].content)
          case NewSubsumesOld | Equivalent =>
            var tags := UnionTags(lex, kept[i].tags, m.tags);
            kept := kept[i := kept[i].(content := m.content, tags := tags)];
            merged := true;
          case OldSubsumesNew =>
            var tags := UnionTags(lex, kept[i].tags, m.tags);
            kept := kept[i := kept[i].(tags := tags)];
            merged := true;
          case Unrelated =>
        }
        if !merged {
          i := i + 1;
        }
      }
      if !merged {
        kept := kept + [m];
      }
    }
    assert memories[..|memories|] == memories;
  }

  /** `k` stands for `m`: same type, everything it says, and every tag it carries. */
  ghost predicate StandsFor(lex: Lexicon, k: Extracted, m: Extracted) {
    && k.kind == m.kind
    && SaysAll(lex, k.content, m.content)
    && (forall t | t in m.tags && TagKey(lex, t) != "" :: HasTag(lex, k.tags, TagKey(lex, t)))
  }

  /** `cover` names the survivor standing for each input. */
  ghost predicate Covered(lex: Lexicon, inputs: seq<Extracted>, kept: seq<Extracted>, cover: seq<nat>) {
    && |cover| == |inputs|
    && (forall j | 0 <= j < |inputs| :: cover[j] < |kept| && StandsFor(lex, kept[cover[j]], inputs[j]))
  }

  /** The wording kept at each position is that of an input of its type folded into it. */
  ghost predicate Worded(inputs: seq<Extracted>, kept: seq<Extracted>, cover: seq<nat>) {
    && |cover| == |inputs|
    && (forall k | 0 <= k < |kept| :: WordedBy(inputs, kept[k], k, cover))
  }

  ghost predicate WordedBy(inputs: seq<Extracted>, r: Extracted, k: nat, cover: seq<nat>)
    requires |cover| == |inputs|
  {
    exists j :: 0 <= j < |inputs| && cover[j] == k && inputs[j].content == r.content && inputs[j].kind == r.kind
  }

  /** `founder` names the input that opened each position; positions keep the order of first statement. */
  ghost predicate Founded(inputs: seq<Extracted>, kept: seq<Extracted>, founder: seq<nat>) {
    && |founder| == |kept|
    && (forall k | 0 <= k < |kept| :: founder[k] < |inputs|)
    && (forall k | 0 <= k < |kept| ::
          inputs[founder[k]].kind == kept[k].kind && inputs[founder[k]].entities == kept[k].entities)
    && (forall i, k | 0 <= i < k < |kept| :: founder[i] < founder[k])
  }

  lemma AbsorbKeepsTags(lex: Lexicon, a: seq<string>, b: seq<string>, key: string)
    requires key != "" && (HasTag(lex, a, key) || HasTag(lex, b, key))
    ensures HasTag(lex, KeepFirst(lex, a + b), key)
  {
    KeepFirstTags(lex, a + b);
    if HasTag(lex, a, key) {
      var u :| u in a && TagKey(lex, u) == key;
      assert u in a + b;
    } else {
      var u :| u in b && TagKey(lex, u) == key;
      assert u in a + b;
    }
    assert HasTag(lex, a + b, key);
  }

  /** Absorbing `m` into its host leaves the host standing for all it stood for, and for `m`. */
  lemma HostStandsForBoth(lex: Lexicon, kept: seq<Extracted>, m: Extracted)
    requires FindHost(lex, kept, m, 0) < |kept|
    ensures var i := FindHost(lex, kept, m, 0);
      && StandsFor(lex, Absorb(lex, kept, m)[i], m)
      && (forall x | StandsFor(lex, kept[i], x) :: StandsFor(lex, Absorb(lex, kept, m)[i], x))
  {
    var i := FindHost(lex, kept, m, 0);
    var k, k' := kept[i], Absorb(lex, kept, m)[i];
    VerdictMeaning(lex, m.content, k.content);
    SaysAllReflexive(lex, k'.content);
    assert SaysAll(lex, k'.content, m.content) && SaysAll(lex, k'.content, k.content);
    forall t | t in m.tags && TagKey(lex, t) != "" ensures HasTag(lex, k'.tags, TagKey(lex, t)) {
      assert HasTag(lex, m.tags, TagKey(lex, t));
      AbsorbKeepsTags(lex, k.tags, m.tags, TagKey(lex, t));
    }
    forall x | StandsFor(lex, k, x) ensures StandsFor(lex, k', x) {
      SaysAllTransitive(lex, k'.content, k.content, x.content);
      forall t | t in x.tags && TagKey(lex, t) != "" ensures HasTag(lex, k'.tags, TagKey(lex, t)) {
        AbsorbKeepsTags(lex, k.tags, m.tags, TagKey(lex, t));
      }
    }
  }

  lemma StandsForItself(lex: Lexicon, m: Extracted)
    ensures StandsFor(lex, m, m)
  {
    SaysAllReflexive(lex, m.content);
    forall t | t in m.tags ensures HasTag(lex, m.tags, TagKey(lex, t)) {}
  }

  /** `kept'` is `kept` with `m` appended at `i`, or folded into position `i`. */
  ghost predicate Absorbed(kept: seq<Extracted>, kept': seq<Extracted>, m: Extracted, i: nat) {
    if i == |kept| then kept' == kept + [m]
    else
      && i < |kept| == |kept'|
      && kept' == kept[i := kept'[i]]
      && kept'[i].kind == kept[i].kind == m.kind && kept'[i].entities == kept[i].entities
      && kept'[i].content in {m.content, kept[i].content}
  }

  lemma AbsorbedWording(front: seq<Extracted>, kept: seq<Extracted>, kept': seq<Extracted>, m: Extracted, i: nat,
                        cover: seq<nat>)
    requires Worded(front, kept, cover) && Absorbed(kept, kept', m, i)
    ensures Worded(front + [m], kept', cover + [i])
  {
    var cover', inputs := cover + [i], front + [m];
    forall k | 0 <= k < |kept'| ensures WordedBy(inputs, kept'[k], k, cover') {
      if k == i && kept'[k].content == m.content {
        assert cover'[|front|] == i && inputs[|front|] == m;
      } else {
        assert WordedBy(front, kept[k], k, cover);
        var j :| && 0 <= j < |front| && cover[j] == k
                 && front[j].content == kept[k].content && front[j].kind == kept[k].kind;
        assert cover'[j] == k && inputs[j] == front[j];
      }
    }
  }

  lemma AbsorbedFounders(front: seq<Extracted>, kept: seq<Extracted>, kept': seq<Extracted>, m: Extracted, i: nat,
                         founder: seq<nat>)
    requires Founded(front, kept, founder) && Absorbed(kept, kept', m, i)
    ensures Founded(front + [m], kept', if i == |kept| then founder + [|front|] else founder)
  {
  }

  lemma AbsorbCovers(lex: Lexicon, front: seq<Extracted>, kept: seq<Extracted>, m: Extracted, cover: seq<nat>)
    requires Covered(lex, front, kept, cover)
    ensures Covered(lex, front + [m], Absorb(lex, kept, m), cover + [FindHost(lex, kept, m, 0)])
  {
    var i, kept' := FindHost(lex, kept, m, 0), Absorb(lex, kept, m);
    if i == |kept| { StandsForItself(lex, m); } else { HostStandsForBoth(lex, kept, m); }
    forall j | 0 <= j < |front| ensures cover[j] < |kept'| && StandsFor(lex, kept'[cover[j]], front[j]) {
      assert StandsFor(lex, kept[cover[j]], front[j]);
    }
  }

  lemma AbsorbShape(lex: Lexicon, kept: seq<Extracted>, m: Extracted)
    ensures Absorbed(kept, Absorb(lex, kept, m), m, FindHost(lex, kept, m, 0))
  {
  }

  lemma AbsorbLosesNothing(lex: Lexicon, front: seq<Extracted>, kept: seq<Extracted>, m: Extracted, cover0: seq<nat>,
                           founder0: seq<nat>)
    returns (cover: seq<nat>, founder: seq<nat>)
    requires Covered(lex, front, kept, cover0) && Worded(front, kept, cover0) && Founded(front, kept, founder0)
    ensures Covered(lex, front + [m], Absorb(lex, kept, m), cover)
    ensures Worded(front + [m], Absorb(lex, kept, m), cover)
    ensures Founded(front + [m], Absorb(lex, kept, m), founder)
  {
    var i, kept' := FindHost(lex, kept, m, 0), Absorb(lex, kept, m);
    AbsorbShape(lex, kept, m);
    AbsorbCovers(lex, front, kept, m, cover0);
    AbsorbedWording(front, kept, kept', m, i, cover0);
    AbsorbedFounders(front, kept, kept', m, i, founder0);
    cover := cover0 + [i];
    founder := if i == |kept| then founder0 + [|front|] else founder0;
  }

  /** Folding an extraction drops rows, never facts, and keeps the order they were first stated in. */
  lemma {:induction false} FoldLosesNothing(lex: Lexicon, inputs: seq<Extracted>)
      returns (cover: seq<nat>, founder: seq<nat>)
    ensures Covered(lex, inputs, Fold(lex, inputs), cover)
    ensures Worded(inputs, Fold(lex, inputs), cover)
    ensures Founded(inputs, Fold(lex, inputs), founder)
  {
    if inputs == [] {
      cover, founder := [], [];
    } else {
      var front, m := inputs[..|inputs| - 1], inputs[|inputs| - 1];
      assert front + [m] == inputs;
      cover, founder := FoldLosesNothing(lex, front);
      cover, founder := AbsorbLosesNothing(lex, front, Fold(lex, front), m, cover, founder);
    }
  }

  predicate RelatedTo(lex: Lexicon, m: Extracted, k: Extracted) {
    k.kind == m.kind && Subsumes(lex, m.content, k.content) != Unrelated
  }

  /** `kept'` is `kept` with `m` folded into place `i`. */
  predicate JoinedAt(lex: Lexicon, kept: seq<Extracted>, m: Extracted, i: nat, kept': seq<Extracted>) {
    && i < |kept| == |kept'| && kept' == kept[i := kept'[i]]
    && kept'[i].kind == kept[i].kind && kept'[i].entities == kept[i].entities
    && kept'[i].tags == KeepFirst(lex, kept[i].tags + m.tags)
    && kept'[i].content ==
       if Subsumes(lex, m.content, kept[i].content) == OldSubsumesNew then kept[i].content else m.content
  }

  predicate FirstRelated(lex: Lexicon, kept: seq<Extracted>, m: Extracted, i: nat) {
    i < |kept| && RelatedTo(lex, m, kept[i]) && forall j | 0 <= j < i :: !RelatedTo(lex, m, kept[j])
  }

  /** What is extracted next joins the first kept memory related to it, or is kept as it is. */
  lemma FoldJoinsTheFirst(lex: Lexicon, front: seq<Extracted>, m: Extracted)
    ensures var kept, kept' := Fold(lex, front), Fold(lex, front + [m]);
      && ((forall i | 0 <= i < |kept| :: !RelatedTo(lex, m, kept[i])) ==> kept' == kept + [m])
      && (forall i | 0 <= i < |kept| && FirstRelated(lex, kept, m, i) :: JoinedAt(lex, kept, m, i, kept'))
  {
    assert (front + [m])[..|front|] == front;
    AbsorbJoinsTheFirst(lex, Fold(lex, front), m);
  }

  lemma AbsorbJoinsTheFirst(lex: Lexicon, kept: seq<Extracted>, m: Extracted)
    ensures (forall i | 0 <= i < |kept| :: !RelatedTo(lex, m, kept[i])) ==> Absorb(lex, kept, m) == kept + [m]
    ensures forall i | 0 <= i < |kept| && FirstRelated(lex, kept, m, i) ::
              JoinedAt(lex, kept, m, i, Absorb(lex, kept, m))
  {
    var host := FindHost(lex, kept, m, 0);
    forall i | 0 <= i < |kept| ensures RelatedTo(lex, m, kept[i]) <==> Hosts(lex, kept[i], m) {
    }
    forall i | 0 <= i < |kept| && FirstRelated(lex, kept, m, i) ensures i == host {
    }
  }

  predicate Unconnected(lex: Lexicon, inputs: seq<Extracted>) {
    forall i, j | 0 <= i < j < |inputs| :: !RelatedTo(lex, inputs[j], inputs[i])
  }

  /** Where nothing is related nothing is folded. */
  lemma {:induction false} UnconnectedStays(lex: Lexicon, inputs: seq<Extracted>)
    requires Unconnected(lex, inputs)
    ensures Fold(lex, inputs) == inputs
  {
    if inputs != [] {
      var front, m := inputs[..|inputs| - 1], inputs[|inputs| - 1];
      assert front + [m] == inputs;
      UnconnectedStays(lex, front);
      FoldJoinsTheFirst(lex, front, m);
      forall i | 0 <= i < |front| ensures !RelatedTo(lex, m, front[i]) {
        assert inputs[i] == front[i] && inputs[|front|] == m;
      }
    }
  }
}
