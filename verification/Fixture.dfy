/**
 * The embedding fixture file: "KEMB", dimension and count as little-endian 32-bit words, then one
 * record per text, a 32-byte key and that many 32-bit floats, which are opaque bit patterns here.
 */
module Fixture {
  import opened Wrappers
  import opened Ordering

  type Byte = b: int | 0 <= b < 256
  type Word = w: int | 0 <= w < 0x1_0000_0000
  type Key = k: seq<Byte> | |k| == 32 witness seq(32, _ => 0)
  type Vector = seq<Word>

  const MAGIC: seq<Byte> := [75, 69, 77, 66]
  const MAX_DIM := 16000

  datatype Contents = Contents(dim: int, vectors: map<Key, Vector>)

  /** Exponent bits all ones: NaN or an infinity. */
  predicate IsFinite(w: Word) {
    w / 0x80_0000 % 256 != 255
  }

  // ---- Words

  function Le(w: Word): (bytes: seq<Byte>)
    ensures |bytes| == 4
  {
    [w % 256, w / 256 % 256, w / 0x1_0000 % 256, w / 0x100_0000]
  }

  function FromLe(bytes: seq<Byte>): Word
    requires |bytes| == 4
  {
    var a: int, b: int, c: int, d: int := bytes[0], bytes[1], bytes[2], bytes[3];
    a + 256 * b + 0x1_0000 * c + 0x100_0000 * d
  }

  lemma WordRoundTrip(w: Word)
    ensures FromLe(Le(w)) == w
  {
    var a, b := w / 256, w / 0x1_0000;
    assert b == a / 256 && w / 0x100_0000 == b / 256;
    assert w == a * 256 + w % 256 && a == b * 256 + a % 256 && b == b / 256 * 256 + b % 256;
  }

  function Floats(v: Vector): (bytes: seq<Byte>)
    ensures |bytes| == 4 * |v|
  {
    if v == [] then [] else Le(v[0]) + Floats(v[1..])
  }

  function FromFloats(bytes: seq<Byte>, dim: nat): Vector
    requires |bytes| == 4 * dim
    decreases dim
  {
    if dim == 0 then [] else [FromLe(bytes[..4])] + FromFloats(bytes[4..], dim - 1)
  }

  lemma {:induction false} FloatsRoundTrip(v: Vector)
    ensures FromFloats(Floats(v), |v|) == v
  {
    if v != [] {
      WordRoundTrip(v[0]);
      FloatsRoundTrip(v[1..]);
      assert Floats(v)[..4] == Le(v[0]) && Floats(v)[4..] == Floats(v[1..]);
    }
  }

  // ---- Records

  function RecordSize(dim: nat): nat { 32 + 4 * dim }

  function Records(keys: seq<Key>, vectors: map<Key, Vector>): seq<Byte>
    requires forall k | k in keys :: k in vectors
  {
    if keys == [] then [] else keys[0] + Floats(vectors[keys[0]]) + Records(keys[1..], vectors)
  }

  /** What the reader makes of `count` records; later duplicates of a key replace earlier ones. */
  function ReadRecords(bytes: seq<Byte>, dim: nat, count: nat, got: map<Key, Vector>): Option<map<Key, Vector>> {
    if count == 0 then Some(got)
    else if |bytes| < RecordSize(dim) then None
    else
      var key: Key := bytes[..32];
      ReadRecords(bytes[RecordSize(dim)..], dim, count - 1, got[key := FromFloats(bytes[32..RecordSize(dim)], dim)])
  }

  predicate Uniform(dim: nat, vectors: map<Key, Vector>) {
    forall k | k in vectors :: |vectors[k]| == dim
  }

  function Listed(keys: seq<Key>, vectors: map<Key, Vector>): map<Key, Vector>
    requires forall k | k in keys :: k in vectors
  {
    map k | k in keys :: vectors[k]
  }

  lemma ListedFromFirst(keys: seq<Key>, vectors: map<Key, Vector>, got: map<Key, Vector>)
    requires keys != [] && (forall k | k in keys :: k in vectors) && Distinct(keys)
    ensures got[keys[0] := vectors[keys[0]]] + Listed(keys[1..], vectors) == got + Listed(keys, vectors)
  {
    assert forall k :: k in keys <==> k == keys[0] || k in keys[1..];
  }

  function RecordsSize(count: nat, dim: nat): nat {
    if count == 0 then 0 else RecordSize(dim) + RecordsSize(count - 1, dim)
  }

  /** A record splits back into its key, its floats and the records after it. */
  lemma RecordSplits(key: Key, v: Vector, rest: seq<Byte>, dim: nat)
    requires |v| == dim
    ensures var bytes := key + Floats(v) + rest;
      && |bytes| == RecordSize(dim) + |rest|
      && bytes[..32] == key && bytes[32..RecordSize(dim)] == Floats(v) && bytes[RecordSize(dim)..] == rest
      && FromFloats(bytes[32..RecordSize(dim)], dim) == v
  {
    var bytes := key + Floats(v) + rest;
    assert bytes[32..RecordSize(dim)] == Floats(v);
    assert bytes[RecordSize(dim)..] == rest;
    FloatsRoundTrip(v);
  }

  lemma {:induction false} RecordsTakeTheirSize(keys: seq<Key>, vectors: map<Key, Vector>, dim: nat)
    requires (forall k | k in keys :: k in vectors) && Uniform(dim, vectors)
    ensures |Records(keys, vectors)| == RecordsSize(|keys|, dim)
  {
    if keys != [] {
      RecordsTakeTheirSize(keys[1..], vectors, dim);
    }
  }

  lemma {:induction false} RecordsRoundTrip(keys: seq<Key>, vectors: map<Key, Vector>, dim: nat, got: map<Key, Vector>)
    requires (forall k | k in keys :: k in vectors) && Uniform(dim, vectors) && Distinct(keys)
    ensures ReadRecords(Records(keys, vectors), dim, |keys|, got) == Some(got + Listed(keys, vectors))
  {
    if keys == [] {
      assert got + Listed(keys, vectors) == got;
    } else {
      assert forall k | k in keys[1..] :: k in keys;
      var k0, rest := keys[0], keys[1..];
      var v0 := vectors[k0];
      ListedFromFirst(keys, vectors, got);
      RecordSplits(k0, v0, Records(rest, vectors), dim);
      RecordsRoundTrip(rest, vectors, dim, got[k0 := v0]);
    }
  }

  lemma {:induction false} ReadsIffLongEnough(bytes: seq<Byte>, dim: nat, count: nat, got: map<Key, Vector>)
    ensures ReadRecords(bytes, dim, count, got).Some? <==> |bytes| >= RecordsSize(count, dim)
    decreases count
  {
    if count > 0 && |bytes| >= RecordSize(dim) {
      var key: Key := bytes[..32];
      var v := FromFloats(bytes[32..RecordSize(dim)], dim);
      ReadsIffLongEnough(bytes[RecordSize(dim)..], dim, count - 1, got[key := v]);
    }
  }

  // ---- The file

  function File(dim: Word, keys: seq<Key>, vectors: map<Key, Vector>): seq<Byte>
    requires (forall k | k in keys :: k in vectors) && |keys| < 0x1_0000_0000
  {
    MAGIC + Le(dim) + Le(|keys|) + Records(keys, vectors)
  }

  function Parse(bytes: seq<Byte>): Option<Contents> {
    if |bytes| < 12 || bytes[..4] != MAGIC then None
    else
      var dim, count := FromLe(bytes[4..8]), FromLe(bytes[8..12]);
      if dim == 0 || dim > MAX_DIM then None
      else match ReadRecords(bytes[12..], dim, count, map[])
        case None => None
        case Some(vectors) => Some(Contents(dim, vectors))
  }

  predicate Writable(e: Contents) {
    1 <= e.dim <= MAX_DIM && |e.vectors| < 0x1_0000_0000 && Uniform(e.dim, e.vectors)
  }

  /** `keys` lists every key of the fixture once, in any order. */
  predicate Lists(keys: seq<Key>, vectors: map<Key, Vector>) {
    Distinct(keys) && Elements(keys) == vectors.Keys
  }

  lemma {:induction false} ListSize(keys: seq<Key>)
    requires Distinct(keys)
    ensures |Elements(keys)| == |keys|
  {
    if keys == [] {
      assert Elements(keys) == {};
    } else {
      ListSize(keys[1..]);
      assert keys[0] !in Elements(keys[1..]);
      assert Elements(keys) == Elements(keys[1..]) + {keys[0]};
    }
  }

  lemma ListIsWhole(keys: seq<Key>, vectors: map<Key, Vector>)
    requires Lists(keys, vectors)
    ensures |keys| == |vectors| && (forall k | k in keys :: k in vectors)
    ensures map[] + Listed(keys, vectors) == vectors
  {
    forall k ensures k in keys <==> k in vectors { assert k in Elements(keys) <==> k in keys; }
    ListSize(keys);
    assert |vectors| == |vectors.Keys|;
  }

  lemma HeaderOf(dim: Word, keys: seq<Key>, vectors: map<Key, Vector>)
    requires (forall k | k in keys :: k in vectors) && |keys| < 0x1_0000_0000
    ensures var f := File(dim, keys, vectors);
      && |f| == 12 + |Records(keys, vectors)|
      && f[..4] == MAGIC && FromLe(f[4..8]) == dim && FromLe(f[8..12]) == |keys| && f[12..] == Records(keys, vectors)
  {
    var f := File(dim, keys, vectors);
    WordRoundTrip(dim);
    WordRoundTrip(|keys|);
    assert f[4..8] == Le(dim) && f[8..12] == Le(|keys|);
  }

  /** Reading a written fixture gives it back, whatever order its records were written in. */
  lemma FileRoundTrip(e: Contents, keys: seq<Key>)
    requires Writable(e) && Lists(keys, e.vectors)
    ensures |keys| == |e.vectors| && (forall k | k in keys :: k in e.vectors)
    ensures Parse(File(e.dim, keys, e.vectors)) == Some(e)
  {
    ListIsWhole(keys, e.vectors);
    HeaderOf(e.dim, keys, e.vectors);
    RecordsRoundTrip(keys, e.vectors, e.dim, map[]);
  }

  /** Every proper prefix of a written fixture is refused, so a truncated copy is never half-read. */
  lemma TruncationIsRefused(e: Contents, keys: seq<Key>, n: nat)
    requires Writable(e) && Lists(keys, e.vectors)
    requires (forall k | k in keys :: k in e.vectors) && |keys| < 0x1_0000_0000
    requires n < |File(e.dim, keys, e.vectors)|
    ensures Parse(File(e.dim, keys, e.vectors)[..n]) == None
  {
    var f := File(e.dim, keys, e.vectors);
    HeaderOf(e.dim, keys, e.vectors);
    RecordsTakeTheirSize(keys, e.vectors, e.dim);
    if n >= 12 {
      assert f[..n][..4] == f[..4] && f[..n][4..8] == f[4..8] && f[..n][8..12] == f[8..12];
      ReadsIffLongEnough(f[..n][12..], e.dim, |keys|, map[]);
    }
  }

  predicate KeyLess(a: Key, b: Key) {
    LexLess(a, b)
  }

  lemma KeyOrder(s: set<Key>)
    ensures Orders(KeyLess, s)
  {
    forall x, y, z | x in s && y in s && z in s && KeyLess(x, y) && KeyLess(y, z) ensures KeyLess(x, z) {
      LexTransitive(x, y, z);
    }
    forall x, y | x in s && y in s ensures !KeyLess(x, x) && (x != y ==> KeyLess(x, y) || KeyLess(y, x)) {
      LexTotal(x, y);
    }
  }

  /** `keys` is the one ascending list of the fixture's keys. */
  ghost predicate Canonical(keys: seq<Key>, vectors: map<Key, Vector>) {
    Lists(keys, vectors) && Ascending(keys, KeyLess)
  }

  lemma CanonicalIsUnique(a: seq<Key>, b: seq<Key>, vectors: map<Key, Vector>)
    requires Canonical(a, vectors) && Canonical(b, vectors)
    ensures a == b
  {
    KeyOrder(vectors.Keys);
    AscendingUnique(a, b, KeyLess);
  }

  class Embeddings {
    const dim: int
    var vectors: map<Key, Vector>

    ghost predicate Valid()
      reads this
    {
      forall k | k in vectors :: |vectors[k]| == dim
    }

    constructor (dim: int)
      ensures Valid() && this.dim == dim && vectors == map[]
    {
      this.dim := dim;
      vectors := map[];
    }

    /** `keyOf` is the digest of the text. */
    method Add(keyOf: string -> Key, text: string, vec: Vector) returns (ok: bool)
      requires Valid()
      modifies this
      ensures Valid()
      ensures ok <==> |vec| == dim && forall w | w in vec :: IsFinite(w)
      ensures vectors == if ok then old(vectors)[keyOf(text) := vec] else old(vectors)
    {
      if |vec| != dim {
        return false;
      }
      for i := 0 to |vec|
        invariant vectors == old(vectors)
        invariant forall k | 0 <= k < i :: IsFinite(vec[k])
      {
        if !IsFinite(vec[i]) {
          return false;
        }
      }
      vectors := vectors[keyOf(text) := vec];
      return true;
    }

    /** The keys, collected in whatever order the map yields them, then sorted. */
    method SortedKeys() returns (sorted: seq<Key>)
      ensures Canonical(sorted, vectors)
      ensures |sorted| == |vectors| && (forall k | k in sorted :: k in vectors)
    {
      var collected: seq<Key> := [];
      var todo := vectors.Keys;
      while todo != {}
        invariant todo <= vectors.Keys
        invariant forall k :: k in collected <==> k in vectors.Keys - todo
        invariant Distinct(collected)
        decreases todo
      {
        var k :| k in todo;
        assert k !in collected;
        todo := todo - {k};
        collected := collected + [k];
      }
      sorted := Sort(collected, KeyLess);
      SortMembers(collected, KeyLess);
      assert Elements(collected) == vectors.Keys;
      KeyOrder(vectors.Keys);
      SortAscends(collected, KeyLess);
      DistinctCounts(collected);
      DistinctCounts(sorted);
      ListIsWhole(sorted, vectors);
    }

    method EmitRecords(keys: seq<Key>) returns (body: seq<Byte>)
      requires forall k | k in keys :: k in vectors
      ensures body == Records(keys, vectors)
    {
      body := [];
      assert keys[0..] == keys;
      for i := 0 to |keys|
        invariant body + Records(keys[i..], vectors) == Records(keys, vectors)
      {
        var record := keys[i] + Floats(vectors[keys[i]]);
        assert keys[i..][1..] == keys[i + 1..];
        assert body + Records(keys[i..], vectors) == body + record + Records(keys[i + 1..], vectors);
        body := body + record;
      }
    }

    /** Equal contents give equal bytes, since the canonical key list is unique; and they read back. */
    method Write() returns (file: Option<seq<Byte>>, ghost keys: seq<Key>)
      requires Valid()
      ensures file.Some? <==> 1 <= dim <= MAX_DIM && |vectors| < 0x1_0000_0000
      ensures file.Some? ==> Canonical(keys, vectors) && |keys| == |vectors| && (forall k | k in keys :: k in vectors)
      ensures file.Some? ==> file.value == File(dim, keys, vectors)
      ensures file.Some? ==> Parse(file.value) == Some(Contents(dim, vectors))
    {
      var sorted := SortedKeys();
      keys := sorted;
      if dim <= 0 || dim > MAX_DIM || |sorted| > 0xFFFF_FFFF {
        return None, keys;
      }
      var body := EmitRecords(sorted);
      file := Some(MAGIC + Le(dim) + Le(|sorted|) + body);
      FileRoundTrip(Contents(dim, vectors), sorted);
    }
  }

  lemma ReadOne(rest: seq<Byte>, dim: nat, count: nat, got: map<Key, Vector>, key: Key, got': map<Key, Vector>)
    requires count > 0 && |rest| >= RecordSize(dim) && key == rest[..32]
    requires got' == got[key := FromFloats(rest[32..RecordSize(dim)], dim)]
    ensures ReadRecords(rest, dim, count, got) == ReadRecords(rest[RecordSize(dim)..], dim, count - 1, got')
  {
  }

  lemma Suffix(bytes: seq<Byte>, at: nat, n: nat)
    requires at + n <= |bytes|
    ensures bytes[at..][n..] == bytes[at + n..]
  {
  }

  method ReadEmbeddings(bytes: seq<Byte>) returns (r: Option<Contents>)
    ensures r == Parse(bytes)
  {
    if |bytes| < 12 || bytes[..4] != MAGIC {
      return None;
    }
    var dim, count := FromLe(bytes[4..8]), FromLe(bytes[8..12]);
    if dim == 0 || dim > MAX_DIM {
      return None;
    }
    var vectors: map<Key, Vector> := map[];
    var at, size := 12, RecordSize(dim);
    ghost var all := ReadRecords(bytes[12..], dim, count, map[]);
    assert Parse(bytes) == if all.None? then None else Some(Contents(dim, all.value));
    for i := 0 to count
      invariant 12 <= at <= |bytes|
      invariant all == ReadRecords(bytes[at..], dim, count - i, vectors)
    {
      if |bytes| - at < size {
        return None;
      }
      var rest := bytes[at..];
      ghost var before := vectors;
      var key: Key := rest[..32];
      vectors := vectors[key := FromFloats(rest[32..size], dim)];
      ReadOne(rest, dim, count - i, before, key, vectors);
      Suffix(bytes, at, size);
      at := at + size;
    }
    return Some(Contents(dim, vectors));
  }
}
