/** Where everything is in a fixture file, byte by byte, and which bytes the reader takes. */
module FixtureLayout {
  import opened Wrappers
  import opened Ordering
  import opened Fixture

  /** The byte of least weight first. */
  lemma LittleEndian(w: Word)
    ensures var b := Le(w); w == b[0] as int + 256 * b[1] as int + 65536 * b[2] as int + 16777216 * b[3] as int
  {
    WordRoundTrip(w);
  }

  /** The bytes at `at` are the word `w`, least byte first. */
  predicate WordAt(f: seq<Byte>, at: nat, w: int) {
    && at + 4 <= |f|
    && f[at] as int + 256 * f[at + 1] as int + 65536 * f[at + 2] as int + 16777216 * f[at + 3] as int == w
  }

  /** The bytes at `at` are the record of `key`: the key, then its floats one after another. */
  predicate RecordAt(f: seq<Byte>, at: nat, key: Key, v: Vector) {
    && at + 32 + 4 * |v| <= |f| && f[at..at + 32] == key
    && forall j | 0 <= j < |v| :: WordAt(f, at + 32 + 4 * j, v[j])
  }

  lemma WordShifted(a: seq<Byte>, b: seq<Byte>, f: seq<Byte>, at: nat, w: int)
    requires f == a + b && WordAt(b, at, w)
    ensures WordAt(f, |a| + at, w)
  {
  }

  lemma WordBefore(a: seq<Byte>, b: seq<Byte>, f: seq<Byte>, at: nat, w: int)
    requires f == a + b && WordAt(a, at, w)
    ensures WordAt(f, at, w)
  {
  }

  lemma {:induction false} FloatsAt(v: Vector, j: nat)
    requires j < |v|
    ensures WordAt(Floats(v), 4 * j, v[j])
  {
    if j == 0 {
      LittleEndian(v[0]);
    } else {
      FloatsAt(v[1..], j - 1);
      WordShifted(Le(v[0]), Floats(v[1..]), Floats(v), 4 * (j - 1), v[j]);
    }
  }

  lemma RecordAtStart(key: Key, v: Vector, rest: seq<Byte>, f: seq<Byte>)
    requires f == key + Floats(v) + rest
    ensures RecordAt(f, 0, key, v)
  {
    forall j | 0 <= j < |v| ensures WordAt(f, 32 + 4 * j, v[j]) {
      FloatsAt(v, j);
      WordShifted(key, Floats(v), key + Floats(v), 4 * j, v[j]);
      WordBefore(key + Floats(v), rest, f, 32 + 4 * j, v[j]);
    }
  }

  lemma RecordShifted(a: seq<Byte>, b: seq<Byte>, f: seq<Byte>, at: nat, key: Key, v: Vector)
    requires f == a + b && RecordAt(b, at, key, v)
    ensures RecordAt(f, |a| + at, key, v)
  {
    assert f[|a| + at..|a| + at + 32] == b[at..at + 32];
    forall j | 0 <= j < |v| ensures WordAt(f, |a| + at + 32 + 4 * j, v[j]) {
      WordShifted(a, b, f, at + 32 + 4 * j, v[j]);
    }
  }

  lemma {:induction false} RecordsAt(keys: seq<Key>, vectors: map<Key, Vector>, dim: nat, i: nat)
    requires (forall k | k in keys :: k in vectors) && Uniform(dim, vectors) && i < |keys|
    ensures RecordAt(Records(keys, vectors), RecordsSize(i, dim), keys[i], vectors[keys[i]])
  {
    var first, rest := keys[0] + Floats(vectors[keys[0]]), Records(keys[1..], vectors);
    if i == 0 {
      RecordAtStart(keys[0], vectors[keys[0]], rest, Records(keys, vectors));
    } else {
      RecordsAt(keys[1..], vectors, dim, i - 1);
      RecordShifted(first, rest, Records(keys, vectors), RecordsSize(i - 1, dim), keys[i], vectors[keys[i]]);
    }
  }

  lemma {:induction false} RecordsSizeIs(count: nat, dim: nat)
    ensures RecordsSize(count, dim) == count * (32 + 4 * dim)
  {
    if count > 0 {
      RecordsSizeIs(count - 1, dim);
    }
  }

  lemma HeaderAt(dim: Word, keys: seq<Key>, vectors: map<Key, Vector>)
    requires (forall k | k in keys :: k in vectors) && |keys| < 0x1_0000_0000
    ensures var f := File(dim, keys, vectors); WordAt(f, 4, dim) && WordAt(f, 8, |keys|)
  {
    var f := File(dim, keys, vectors);
    LittleEndian(dim);
    LittleEndian(|keys|);
    assert f[4..8] == Le(dim) && f[8..12] == Le(|keys|);
    assert forall k | 0 <= k < 4 :: f[4 + k] == f[4..8][k] && f[8 + k] == f[8..12][k];
  }

  lemma RecordInFile(dim: Word, keys: seq<Key>, vectors: map<Key, Vector>, i: nat)
    requires (forall k | k in keys :: k in vectors) && |keys| < 0x1_0000_0000 && Uniform(dim, vectors) && i < |keys|
    ensures RecordAt(File(dim, keys, vectors), 12 + RecordsSize(i, dim), keys[i], vectors[keys[i]])
  {
    var header := MAGIC + Le(dim) + Le(|keys|);
    RecordsAt(keys, vectors, dim, i);
    RecordShifted(header, Records(keys, vectors), File(dim, keys, vectors), RecordsSize(i, dim), keys[i],
                  vectors[keys[i]]);
  }

  /** The file, byte by byte: "KEMB", dimension, count, and the records end to end. */
  lemma FileLayout(dim: Word, keys: seq<Key>, vectors: map<Key, Vector>)
    requires (forall k | k in keys :: k in vectors) && |keys| < 0x1_0000_0000 && Uniform(dim, vectors)
    ensures var f := File(dim, keys, vectors);
      && |f| == 12 + RecordsSize(|keys|, dim) && f[..4] == [75, 69, 77, 66]
      && WordAt(f, 4, dim) && WordAt(f, 8, |keys|)
      && forall i | 0 <= i < |keys| :: RecordAt(f, 12 + RecordsSize(i, dim), keys[i], vectors[keys[i]])
  {
    HeaderOf(dim, keys, vectors);
    HeaderAt(dim, keys, vectors);
    RecordsTakeTheirSize(keys, vectors, dim);
    forall i | 0 <= i < |keys|
      ensures RecordAt(File(dim, keys, vectors), 12 + RecordsSize(i, dim), keys[i], vectors[keys[i]])
    {
      RecordInFile(dim, keys, vectors, i);
    }
  }

  predicate Fits(bytes: seq<Byte>, dim: nat, count: nat) {
    |bytes| >= 12 + count * (32 + 4 * dim)
  }

  /** The reader takes exactly the bytes with the magic, a dimension of 1 to 16000 and all the records. */
  lemma ParsesIff(bytes: seq<Byte>)
    ensures Parse(bytes).Some? <==>
            |bytes| >= 12 && bytes[..4] == [75, 69, 77, 66] && 1 <= FromLe(bytes[4..8]) <= 16000
            && Fits(bytes, FromLe(bytes[4..8]), FromLe(bytes[8..12]))
  {
    if |bytes| >= 12 {
      var dim, count := FromLe(bytes[4..8]), FromLe(bytes[8..12]);
      ReadsIffLongEnough(bytes[12..], dim, count, map[]);
      RecordsSizeIs(count, dim);
    }
  }

  /** Of the words with the sign bit cleared, the finite ones are those below the infinity, 7F800000. */
  lemma FiniteIffBelowInfinity(w: Word)
    ensures IsFinite(w) <==> w % 0x8000_0000 < 0x7F80_0000
  {
    var q := w / 0x80_0000;
    assert q % 256 == (w % 0x8000_0000) / 0x80_0000 by {
      assert q / 256 == w / 0x8000_0000;
    }
  }

  /** Records are written in the byte order of their keys: of two, the lesser at the first difference is first. */
  lemma CanonicalByBytes(keys: seq<Key>, vectors: map<Key, Vector>, i: nat, j: nat, k: nat)
    requires Canonical(keys, vectors) && i < j < |keys|
    requires k < 32 && keys[i][..k] == keys[j][..k] && keys[i][k] != keys[j][k]
    ensures keys[i][k] < keys[j][k]
  {
    FirstDifferenceDecides(keys[i], keys[j], k);
  }
}
