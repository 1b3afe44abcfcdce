/**
 * Embedding many texts per request. Callers map vectors onto texts by position, so a response is
 * accepted only if that mapping is certain.
 */
module BatchEmbedding {
  import opened Wrappers
  import opened Ordering

  type Vector = seq<real>

  const MAX_BATCH_SIZE := 100

  /** One object of a response; an absent or null embedding is None. */
  datatype Datum = Datum(index: int, embedding: Option<Vector>)

  function Indices(data: seq<Datum>): seq<int> {
    seq(|data|, i requires 0 <= i < |data| => data[i].index)
  }

  /** The indices are a permutation of 0..|data| and every object carries a vector. */
  predicate Aligned(data: seq<Datum>) {
    && (forall k | 0 <= k < |data| :: 0 <= data[k].index < |data| && data[k].embedding.Some?)
    && Distinct(Indices(data))
  }

  // ---- Pigeonhole

  lemma {:induction false} DistinctIffAsManyElements<T>(s: seq<T>)
    ensures |Elements(s)| <= |s|
    ensures Distinct(s) <==> |Elements(s)| == |s|
  {
    if s == [] {
      assert Elements(s) == {};
    } else {
      var front, last := s[..|s| - 1], s[|s| - 1];
      DistinctIffAsManyElements(front);
      assert s == front + [last];
      assert Elements(s) == Elements(front) + {last};
      if last in front {
        assert Elements(s) == Elements(front);
        var k :| 0 <= k < |front| && front[k] == last;
        assert s[k] == s[|s| - 1];
      } else {
        assert Distinct(s) <==> Distinct(front) by {
          if Distinct(front) {
            forall i, j | 0 <= i < j < |s| ensures s[i] != s[j] {
              if j < |front| { assert front[i] != front[j]; } else { assert front[i] != last; }
            }
          }
          if Distinct(s) {
            forall i, j | 0 <= i < j < |front| ensures front[i] != front[j] { assert s[i] != s[j]; }
          }
        }
      }
    }
  }

  function Range(n: nat): (r: set<int>)
    ensures |r| == n && forall i :: i in r <==> 0 <= i < n
  {
    if n == 0 then {} else Range(n - 1) + {n - 1}
  }

  /** n values below n are all different exactly when every value below n occurs. */
  lemma Pigeonhole(s: seq<int>)
    requires forall k | 0 <= k < |s| :: 0 <= s[k] < |s|
    ensures Distinct(s) <==> forall i | 0 <= i < |s| :: i in s
  {
    DistinctIffAsManyElements(s);
    assert Elements(s) <= Range(|s|);
    if Distinct(s) {
      SubsetOfSameSize(Elements(s), Range(|s|));
      forall i | 0 <= i < |s| ensures i in s { assert i in Range(|s|); }
    }
    if forall i | 0 <= i < |s| :: i in s {
      assert Elements(s) == Range(|s|);
    }
  }

  lemma SubsetOfSameSize<T>(a: set<T>, b: set<T>)
    requires a <= b && |a| == |b|
    ensures a == b
  {
    assert |b - a| == |b| - |a|;
  }

  // ---- One response

  /** Accepts exactly the aligned responses, and then puts every vector at its own index. */
  method DecodeOpenAIBatch(data: seq<Datum>) returns (r: Option<seq<Vector>>)
    ensures r.Some? <==> Aligned(data)
    ensures r.Some? ==>
              |r.value| == |data| && forall k | 0 <= k < |data| :: r.value[data[k].index] == data[k].embedding.value
  {
    var out := new Option<Vector>[|data|](_ => None);
    var n := |data|;
    for k := 0 to n
      invariant forall l | 0 <= l < k :: 0 <= data[l].index < n
      invariant forall i | 0 <= i < n :: Filled(data, k, i, out[i])
    {
      var d := data[k];
      if d.index < 0 || d.index >= n {
        return None;
      }
      out[d.index] := d.embedding;
    }
    assert Indices(data) == Indices(data)[..n];
    Pigeonhole(Indices(data));
    var vectors: seq<Vector> := [];
    for i := 0 to n
      invariant |vectors| == i
      invariant forall j | 0 <= j < i :: out[j] == Some(vectors[j])
    {
      if out[i] == None {
        NoneMeansMisaligned(data, i);
        return None;
      }
      vectors := vectors + [out[i].value];
    }
    assert forall i | 0 <= i < n :: Filled(data, n, i, out[i]) && out[i].Some?;
    AllFilledMeansAligned(data, vectors);
    return Some(vectors);
  }

  /** Slot `i` holds the embedding of the last of the first `k` objects that carries its index. */
  predicate Filled(data: seq<Datum>, k: nat, i: int, slot: Option<Vector>)
    requires k <= |data|
  {
    if k == 0 then slot == None
    else if data[k - 1].index == i then slot == data[k - 1].embedding
    else Filled(data, k - 1, i, slot)
  }

  lemma {:induction false} FilledFrom(data: seq<Datum>, k: nat, i: int, slot: Option<Vector>)
    requires k <= |data| && Filled(data, k, i, slot) && slot.Some?
    ensures exists l :: 0 <= l < k && data[l].index == i && data[l].embedding == slot
  {
    if data[k - 1].index == i {
      assert data[k - 1].embedding == slot;
    } else {
      FilledFrom(data, k - 1, i, slot);
    }
  }

  lemma {:induction false} AlignedFills(data: seq<Datum>, k: nat, l: nat, slot: Option<Vector>)
    requires l < k <= |data| && Distinct(Indices(data)) && Filled(data, k, data[l].index, slot)
    ensures slot == data[l].embedding
  {
    if l < k - 1 {
      assert Indices(data)[l] != Indices(data)[k - 1];
      AlignedFills(data, k - 1, l, slot);
    }
  }

  lemma NoneMeansMisaligned(data: seq<Datum>, i: nat)
    requires i < |data| && Filled(data, |data|, i, None)
    requires forall k | 0 <= k < |data| :: 0 <= data[k].index < |data|
    ensures !Aligned(data)
  {
    if Distinct(Indices(data)) {
      Pigeonhole(Indices(data));
      assert i in Indices(data);
      var l :| 0 <= l < |data| && Indices(data)[l] == i;
      AlignedFills(data, |data|, l, None);
    }
  }

  lemma AllFilledMeansAligned(data: seq<Datum>, vectors: seq<Vector>)
    requires |vectors| == |data|
    requires forall k | 0 <= k < |data| :: 0 <= data[k].index < |data|
    requires forall i | 0 <= i < |data| :: Filled(data, |data|, i, Some(vectors[i]))
    ensures Aligned(data)
    ensures forall k | 0 <= k < |data| :: vectors[data[k].index] == data[k].embedding.value
  {
    forall i | 0 <= i < |data| ensures i in Indices(data) {
      FilledFrom(data, |data|, i, Some(vectors[i]));
      var l :| 0 <= l < |data| && data[l].index == i;
      assert Indices(data)[l] == i;
    }
    Pigeonhole(Indices(data));
    forall k | 0 <= k < |data| ensures data[k].embedding == Some(vectors[data[k].index]) {
      AlignedFills(data, |data|, k, Some(vectors[data[k].index]));
    }
  }

  // ---- All the texts

  function ChunkAt(texts: seq<string>, start: nat): seq<string>
    requires start <= |texts|
  {
    if start + MAX_BATCH_SIZE <= |texts| then texts[start..start + MAX_BATCH_SIZE] else texts[start..]
  }

  /** Requests carry a hundred consecutive texts, the last what is left; every text is in its own once. */
  lemma ChunksCover(texts: seq<string>, i: nat)
    requires i < |texts|
    ensures var start := StartOf(i); var chunk := ChunkAt(texts, start);
      && start % 100 == 0 && start <= i < start + |chunk| && |chunk| <= 100
      && (|chunk| == 100 || start + |chunk| == |texts|)
      && forall k | 0 <= k < |chunk| :: start + k < |texts| && chunk[k] == texts[start + k]
  {
  }

  type Provider = seq<string> -> Option<seq<Datum>>

  /** The provider's response to this chunk has one certain vector per text. */
  predicate Accepted(provider: Provider, chunk: seq<string>) {
    var response := provider(chunk);
    response.Some? && Aligned(response.value) && |response.value| == |chunk|
  }

  ghost predicate Carries(provider: Provider, chunk: seq<string>, i: nat, v: Vector) {
    provider(chunk).Some? && Datum(i, Some(v)) in provider(chunk).value
  }

  method EmbedChunk(provider: Provider, texts: seq<string>) returns (r: Option<seq<Vector>>)
    ensures r.Some? <==> Accepted(provider, texts)
    ensures r.Some? ==> |r.value| == |texts| && forall i | 0 <= i < |texts| :: Carries(provider, texts, i, r.value[i])
  {
    var response := provider(texts);
    if response == None {
      return None;
    }
    var raw := DecodeOpenAIBatch(response.value);
    if raw == None || |raw.value| != |texts| {
      return None;
    }
    Pigeonhole(Indices(response.value));
    forall i | 0 <= i < |texts| ensures Carries(provider, texts, i, raw.value[i]) {
      assert i in Indices(response.value);
      var k :| 0 <= k < |response.value| && response.value[k].index == i;
      assert response.value[k] == Datum(i, Some(raw.value[i]));
    }
    return raw;
  }

  /** Index, within its own chunk, of text `i`; chunks start at multiples of the batch size. */
  function StartOf(i: nat): nat {
    i / MAX_BATCH_SIZE * MAX_BATCH_SIZE
  }

  /**
   * Over any number of chunks: it succeeds exactly when every chunk's response is accepted, and
   * then vector `i` is the one the provider returned for text `i`.
   */
  method EmbedBatch(provider: Provider, texts: seq<string>) returns (r: Option<seq<Vector>>)
    ensures r.Some? <==> forall i | 0 <= i < |texts| :: Accepted(provider, ChunkAt(texts, StartOf(i)))
    ensures r.Some? ==> |r.value| == |texts|
    ensures r.Some? ==>
      forall i | 0 <= i < |texts| :: Carries(provider, ChunkAt(texts, StartOf(i)), i - StartOf(i), r.value[i])
  {
    var out: seq<Vector> := [];
    var start := 0;
    while start < |texts|
      invariant start == StartOf(start) && |out| == if start <= |texts| then start else |texts|
      invariant forall i | 0 <= i < |out| :: Accepted(provider, ChunkAt(texts, StartOf(i)))
      invariant forall i | 0 <= i < |out| :: Carries(provider, ChunkAt(texts, StartOf(i)), i - StartOf(i), out[i])
    {
      var chunk := ChunkAt(texts, start);
      var vectors := EmbedChunk(provider, chunk);
      if vectors == None {
        assert !Accepted(provider, ChunkAt(texts, StartOf(start)));
        return None;
      }
      forall i | start <= i < start + |chunk| ensures StartOf(i) == start {
        SameChunk(start, i);
      }
      out := out + vectors.value;
      start := start + MAX_BATCH_SIZE;
    }
    return Some(out);
  }

  lemma SameChunk(start: nat, i: nat)
    requires start == StartOf(start) && start <= i < start + MAX_BATCH_SIZE
    ensures StartOf(i) == start
  {
  }

  /** A provider that files each text's vector under the text's position. */
  ghost predicate Honest(provider: Provider, vector: string -> Vector) {
    forall chunk, i: nat, v | Carries(provider, chunk, i, v) && i < |chunk| :: v == vector(chunk[i])
  }

  /** With such a provider every text gets its own vector, in whatever order responses list them. */
  method EmbedHonestly(provider: Provider, ghost vector: string -> Vector, texts: seq<string>)
      returns (r: Option<seq<Vector>>)
    requires Honest(provider, vector)
    ensures r.Some? ==> |r.value| == |texts| && forall i | 0 <= i < |texts| :: r.value[i] == vector(texts[i])
  {
    r := EmbedBatch(provider, texts);
    if r.Some? {
      forall i | 0 <= i < |texts| ensures r.value[i] == vector(texts[i]) {
        var chunk := ChunkAt(texts, StartOf(i));
        assert Carries(provider, chunk, i - StartOf(i), r.value[i]);
        assert chunk[i - StartOf(i)] == texts[i];
      }
    }
  }
}
