/**
 * Memory identifiers. Retrieval compares the sixteen bytes where the canonical text is what
 * the order is promised on; TextOrderIsByteOrder is why that is the same comparison.
 */
module Uuid {
  import opened Ordering

  type Byte = b: int | 0 <= b < 256
  type Id = u: seq<Byte> | |u| == 16 witness seq(16, _ => 0)

  const DASH := 45

  /** Code point of one lowercase hex digit. */
  function HexDigit(d: int): int
    requires 0 <= d < 16
  {
    if d < 10 then 48 + d else 87 + d
  }

  function Hex(u: seq<Byte>): seq<int> {
    if u == [] then [] else [HexDigit(u[0] / 16), HexDigit(u[0] % 16)] + Hex(u[1..])
  }

  /** The 8-4-4-4-12 form of section 4 of RFC 9562. */
  function Text(u: Id): seq<int> {
    Hex(u[..4]) +
    ([DASH] + (Hex(u[4..6]) + ([DASH] + (Hex(u[6..8]) + ([DASH] + (Hex(u[8..10]) + ([DASH] + Hex(u[10..]))))))))
  }

  predicate IsHexDigit(c: int) {
    48 <= c <= 57 || 97 <= c <= 102
  }

  lemma {:induction false} HexShape(u: seq<Byte>)
    ensures |Hex(u)| == 2 * |u| && forall k | 0 <= k < |Hex(u)| :: IsHexDigit(Hex(u)[k])
  {
    if u != [] {
      HexShape(u[1..]);
    }
  }

  /** Thirty-six characters: four dashes, and lowercase hex digits everywhere else. */
  lemma TextShape(u: Id)
    ensures |Text(u)| == 36
    ensures forall k | 0 <= k < 36 :: if k in {8, 13, 18, 23} then Text(u)[k] == 45 else IsHexDigit(Text(u)[k])
  {
    HexShape(u[..4]);
    HexShape(u[4..6]);
    HexShape(u[6..8]);
    HexShape(u[8..10]);
    HexShape(u[10..]);
  }

  /** bytes.Compare(u, v) < 0 */
  predicate Before(u: Id, v: Id) {
    LexLess(u, v)
  }

  lemma {:induction false} HexOrder(u: seq<Byte>, v: seq<Byte>)
    requires |u| == |v|
    ensures |Hex(u)| == 2 * |u| == |Hex(v)|
    ensures LexLess(Hex(u), Hex(v)) <==> LexLess(u, v)
    ensures Hex(u) == Hex(v) <==> u == v
  {
    if u != [] {
      HexOrder(u[1..], v[1..]);
      var a := [HexDigit(u[0] / 16), HexDigit(u[0] % 16)];
      var b := [HexDigit(v[0] / 16), HexDigit(v[0] % 16)];
      LexConcat(a, b, Hex(u[1..]), Hex(v[1..]));
      assert a[1..] == [HexDigit(u[0] % 16)] && b[1..] == [HexDigit(v[0] % 16)];
      assert LexLess(a[1..], b[1..]) <==> u[0] % 16 < v[0] % 16;
      assert u[0] == u[0] / 16 * 16 + u[0] % 16 && v[0] == v[0] / 16 * 16 + v[0] % 16;
      assert LexLess(a, b) <==> u[0] < v[0];
      assert a == b <==> u[0] == v[0];
      assert u == [u[0]] + u[1..] && v == [v[0]] + v[1..];
      assert Hex(u) == Hex(v) ==> a == b && Hex(u[1..]) == Hex(v[1..]) by {
        assert Hex(u)[..2] == a && Hex(u)[2..] == Hex(u[1..]);
        assert Hex(v)[..2] == b && Hex(v)[2..] == Hex(v[1..]);
      }
    }
  }

  /** One segment and its dash: the comparison moves on exactly when the bytes agree. */
  lemma SegmentOrder(u: seq<Byte>, v: seq<Byte>, ru: seq<Byte>, rv: seq<Byte>, tu: seq<int>, tv: seq<int>)
    requires |u| == |v|
    requires LexLess(tu, tv) <==> LexLess(ru, rv)
    ensures LexLess(Hex(u) + ([DASH] + tu), Hex(v) + ([DASH] + tv)) <==> LexLess(u + ru, v + rv)
  {
    HexOrder(u, v);
    LexConcat(Hex(u), Hex(v), [DASH] + tu, [DASH] + tv);
    LexConcat([DASH], [DASH], tu, tv);
    LexConcat(u, v, ru, rv);
  }

  /** The text from byte `a` on, when `t` is the text from byte `b` on. */
  function From(u: Id, a: nat, b: nat, t: seq<int>): seq<int>
    requires a <= b <= 16
  {
    Hex(u[a..b]) + ([DASH] + t)
  }

  lemma CutOrder(u: Id, v: Id, a: nat, b: nat, tu: seq<int>, tv: seq<int>)
    requires a <= b <= 16 && (LexLess(tu, tv) <==> LexLess(u[b..], v[b..]))
    ensures LexLess(From(u, a, b, tu), From(v, a, b, tv)) <==> LexLess(u[a..], v[a..])
  {
    SegmentOrder(u[a..b], v[a..b], u[b..], v[b..], tu, tv);
    assert u[a..b] + u[b..] == u[a..] && v[a..b] + v[b..] == v[a..];
  }

  lemma TextInCuts(u: Id)
    ensures Text(u) == From(u, 0, 4, From(u, 4, 6, From(u, 6, 8, From(u, 8, 10, Hex(u[10..])))))
  {
    assert u[0..4] == u[..4];
  }

  /** Text order and byte order are one order, for every pair of identifiers. */
  lemma TextOrderIsByteOrder(u: Id, v: Id)
    ensures LexLess(Text(u), Text(v)) <==> Before(u, v)
  {
    HexOrder(u[10..], v[10..]);
    var t4, s4 := Hex(u[10..]), Hex(v[10..]);
    CutOrder(u, v, 8, 10, t4, s4);
    var t3, s3 := From(u, 8, 10, t4), From(v, 8, 10, s4);
    CutOrder(u, v, 6, 8, t3, s3);
    var t2, s2 := From(u, 6, 8, t3), From(v, 6, 8, s3);
    CutOrder(u, v, 4, 6, t2, s2);
    var t1, s1 := From(u, 4, 6, t2), From(v, 4, 6, s2);
    CutOrder(u, v, 0, 4, t1, s1);
    TextInCuts(u);
    TextInCuts(v);
    assert u[0..] == u && v[0..] == v;
  }

  lemma ByteOrderIsTotal(s: set<Id>)
    ensures Orders(Before, s)
  {
    forall x, y, z | x in s && y in s && z in s && Before(x, y) && Before(y, z) ensures Before(x, z) {
      LexTransitive(x, y, z);
    }
    forall x, y | x in s && y in s ensures !Before(x, x) && (x != y ==> Before(x, y) || Before(y, x)) {
      LexTotal(x, y);
    }
  }
}
