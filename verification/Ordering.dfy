/** Orders and sorting shared by every list the engine promises to return in a fixed order. */
module Ordering {

  /** `less` orders the members of `s` strictly and totally. */
  ghost predicate Orders<T>(less: (T, T) -> bool, s: set<T>) {
    && (forall x | x in s :: !less(x, x))
    && (forall x, y, z | x in s && y in s && z in s && less(x, y) && less(y, z) :: less(x, z))
    && (forall x, y | x in s && y in s && x != y :: less(x, y) || less(y, x))
  }

  ghost predicate Ascending<T>(s: seq<T>, less: (T, T) -> bool) {
    forall i, j | 0 <= i < j < |s| :: less(s[i], s[j])
  }

  predicate Distinct<T(==)>(s: seq<T>) {
    forall i, j | 0 <= i < j < |s| :: s[i] != s[j]
  }

  function Elements<T>(s: seq<T>): set<T> {
    set x | x in s
  }

  // The standard library's sort, by insertion. Every caller orders distinct keys, where the
  // result does not depend on the algorithm: see SortCanonical.

  function Insert<T>(x: T, s: seq<T>, less: (T, T) -> bool): seq<T> {
    if s != [] && less(s[0], x) then [s[0]] + Insert(x, s[1..], less) else [x] + s
  }

  function Sort<T>(s: seq<T>, less: (T, T) -> bool): seq<T> {
    if s == [] then [] else Insert(s[0], Sort(s[1..], less), less)
  }

  lemma {:induction false} InsertMembers<T>(x: T, s: seq<T>, less: (T, T) -> bool)
    ensures multiset(Insert(x, s, less)) == multiset([x] + s)
  {
    if s != [] && less(s[0], x) {
      InsertMembers(x, s[1..], less);
      assert s == [s[0]] + s[1..];
      assert multiset(Insert(x, s, less)) == multiset{s[0]} + multiset([x] + s[1..]);
    }
  }

  lemma {:induction false} SortMembers<T>(s: seq<T>, less: (T, T) -> bool)
    ensures multiset(Sort(s, less)) == multiset(s)
    ensures |Sort(s, less)| == |s|
    ensures Elements(Sort(s, less)) == Elements(s)
  {
    if s != [] {
      SortMembers(s[1..], less);
      InsertMembers(s[0], Sort(s[1..], less), less);
      assert s == [s[0]] + s[1..];
      assert multiset([s[0]] + Sort(s[1..], less)) == multiset{s[0]} + multiset(s[1..]);
    }
    SameMembers(Sort(s, less), s);
  }

  lemma SameMembers<T>(a: seq<T>, b: seq<T>)
    requires multiset(a) == multiset(b)
    ensures |a| == |b|
    ensures Elements(a) == Elements(b)
  {
    assert |multiset(a)| == |a| && |multiset(b)| == |b|;
    forall x ensures x in a <==> x in b {
      assert x in a <==> x in multiset(a);
      assert x in b <==> x in multiset(b);
    }
  }

  lemma DistinctCounts<T>(s: seq<T>)
    ensures Distinct(s) <==> forall x :: multiset(s)[x] <= 1
  {
    if Distinct(s) {
      forall x ensures multiset(s)[x] <= 1 { CountOnce(s, x); }
    }
    if i, j :| 0 <= i < j < |s| && s[i] == s[j] {
      assert s == s[..j] + [s[j]] + s[j + 1..];
      assert s[i] in s[..j];
      assert multiset(s)[s[i]] >= 2;
    }
  }

  lemma {:induction false} CountOnce<T>(s: seq<T>, x: T)
    requires Distinct(s)
    ensures multiset(s)[x] <= 1
  {
    if s != [] {
      assert s == [s[0]] + s[1..];
      CountOnce(s[1..], x);
      assert s[0] !in s[1..];
    }
  }

  ghost predicate BeforeAll<T>(x: T, s: seq<T>, less: (T, T) -> bool) {
    forall k | 0 <= k < |s| :: less(x, s[k])
  }

  lemma ConsAscends<T>(x: T, s: seq<T>, less: (T, T) -> bool)
    requires Ascending(s, less) && BeforeAll(x, s, less)
    ensures Ascending([x] + s, less)
  {
  }

  lemma BeforeInserted<T>(h: T, x: T, s: seq<T>, less: (T, T) -> bool)
    requires less(h, x) && BeforeAll(h, s, less)
    ensures BeforeAll(h, Insert(x, s, less), less)
  {
    var t := Insert(x, s, less);
    InsertMembers(x, s, less);
    forall k | 0 <= k < |t| ensures less(h, t[k]) {
      assert t[k] in multiset(t);
      assert t[k] in [x] + s;
    }
  }

  lemma BeforeHeadIsBeforeAll<T>(x: T, s: seq<T>, less: (T, T) -> bool)
    requires Orders(less, Elements(s) + {x}) && s != [] && less(x, s[0]) && Ascending(s, less)
    ensures BeforeAll(x, s, less)
  {
    forall k | 0 < k < |s| ensures less(x, s[k]) {
      assert s[0] in Elements(s) && s[k] in Elements(s);
      assert less(s[0], s[k]);
    }
  }

  lemma {:induction false} InsertAscends<T>(x: T, s: seq<T>, less: (T, T) -> bool)
    requires Orders(less, Elements(s) + {x})
    requires x !in s && Ascending(s, less)
    ensures Ascending(Insert(x, s, less), less)
  {
    if s != [] {
      assert s[0] in Elements(s);
      if less(s[0], x) {
        assert Elements(s[1..]) <= Elements(s);
        InsertAscends(x, s[1..], less);
        BeforeInserted(s[0], x, s[1..], less);
        ConsAscends(s[0], Insert(x, s[1..], less), less);
      } else {
        BeforeHeadIsBeforeAll(x, s, less);
        ConsAscends(x, s, less);
      }
    }
  }

  lemma {:induction false} SortAscends<T>(s: seq<T>, less: (T, T) -> bool)
    requires Distinct(s) && Orders(less, Elements(s))
    ensures Ascending(Sort(s, less), less)
  {
    if s != [] {
      assert Elements(s[1..]) <= Elements(s) && s[0] in Elements(s);
      SortMembers(s[1..], less);
      SortAscends(s[1..], less);
      assert s[0] !in s[1..];
      var rest := Sort(s[1..], less);
      assert s[0] in rest <==> s[0] in Elements(rest);
      assert Elements(rest) + {s[0]} <= Elements(s);
      InsertAscends(s[0], rest, less);
    }
  }

  /** An ascending list is determined by its members. */
  lemma {:induction false} AscendingUnique<T>(a: seq<T>, b: seq<T>, less: (T, T) -> bool)
    requires Orders(less, Elements(a)) && Elements(a) == Elements(b)
    requires Ascending(a, less) && Ascending(b, less)
    ensures a == b
    decreases |a|
  {
    if a == [] {
      assert forall k | 0 <= k < |b| :: b[k] in Elements(b);
    } else {
      assert a[0] in Elements(a);
      assert b != [] && b[0] in Elements(b);
      assert a[0] in b && b[0] in a;
      assert forall k | 0 < k < |b| :: less(b[0], b[k]);
      assert forall k | 0 < k < |a| :: less(a[0], a[k]);
      assert a[0] == b[0];
      assert Elements(a[1..]) == Elements(a) - {a[0]} by { TailElements(a, less); }
      assert Elements(b[1..]) == Elements(b) - {b[0]} by { TailElements(b, less); }
      assert Elements(a[1..]) <= Elements(a);
      AscendingUnique(a[1..], b[1..], less);
    }
  }

  lemma TailElements<T>(a: seq<T>, less: (T, T) -> bool)
    requires a != [] && Orders(less, Elements(a)) && Ascending(a, less)
    ensures Elements(a[1..]) == Elements(a) - {a[0]}
  {
    assert a[0] in Elements(a);
    forall x ensures x in a[1..] <==> x in a && x != a[0] {
      if x in a[1..] {
        var k :| 0 < k < |a| && a[k] == x;
        assert less(a[0], a[k]) && x in Elements(a);
      }
    }
  }

  /** Sorting two arrangements of the same distinct elements gives the same list. */
  lemma SortCanonical<T>(a: seq<T>, b: seq<T>, less: (T, T) -> bool)
    requires Distinct(a) && Orders(less, Elements(a))
    requires multiset(a) == multiset(b)
    ensures Sort(a, less) == Sort(b, less)
  {
    SameMembers(a, b);
    DistinctCounts(a);
    DistinctCounts(b);
    SortMembers(a, less);
    SortMembers(b, less);
    SortAscends(a, less);
    SortAscends(b, less);
    AscendingUnique(Sort(a, less), Sort(b, less), less);
  }

  /** Two lists without repetition and with the same elements are arrangements of each other. */
  lemma DistinctArrangements<T>(a: seq<T>, b: seq<T>)
    requires Distinct(a) && Distinct(b) && Elements(a) == Elements(b)
    ensures multiset(a) == multiset(b)
  {
    DistinctCounts(a);
    DistinctCounts(b);
    forall x ensures multiset(a)[x] == multiset(b)[x] {
      assert x in a <==> x in multiset(a);
      assert x in b <==> x in multiset(b);
      assert x in Elements(a) <==> x in a;
      assert x in Elements(b) <==> x in b;
    }
  }

  // Lexicographic order on sequences of numbers.

  predicate LexLess(a: seq<int>, b: seq<int>) {
    if b == [] then false
    else if a == [] then true
    else if a[0] != b[0] then a[0] < b[0]
    else LexLess(a[1..], b[1..])
  }

  /** The first difference decides; without one, the shorter comes first. */
  lemma {:induction false} FirstDifferenceDecides(a: seq<int>, b: seq<int>, k: nat)
    requires k <= |a| && k <= |b| && a[..k] == b[..k]
    ensures k < |a| && k < |b| && a[k] != b[k] ==> (LexLess(a, b) <==> a[k] < b[k])
    ensures k == |a| || k == |b| ==> (LexLess(a, b) <==> |a| < |b|)
    decreases k
  {
    if k > 0 {
      assert a[0] == a[..k][0] == b[..k][0] == b[0];
      assert a[1..][..k - 1] == a[..k][1..] == b[..k][1..] == b[1..][..k - 1];
      FirstDifferenceDecides(a[1..], b[1..], k - 1);
    }
  }

  lemma {:induction false} LexTotal(a: seq<int>, b: seq<int>)
    ensures !LexLess(a, a)
    ensures a != b ==> LexLess(a, b) || LexLess(b, a)
  {
    if a != [] {
      if b != [] {
        LexTotal(a[1..], b[1..]);
        assert a == [a[0]] + a[1..] && b == [b[0]] + b[1..];
      } else {
        LexTotal(a[1..], b);
      }
    }
  }

  lemma {:induction false} LexTransitive(a: seq<int>, b: seq<int>, c: seq<int>)
    requires LexLess(a, b) && LexLess(b, c)
    ensures LexLess(a, c)
  {
    if a != [] && a[0] == b[0] == c[0] {
      LexTransitive(a[1..], b[1..], c[1..]);
    }
  }

  /** Comparing concatenations of equal-length heads compares the heads first. */
  lemma {:induction false} LexConcat(a: seq<int>, b: seq<int>, c: seq<int>, d: seq<int>)
    requires |a| == |b|
    ensures LexLess(a + c, b + d) <==> LexLess(a, b) || (a == b && LexLess(c, d))
  {
    if a == [] {
      assert a + c == c && b + d == d;
    } else {
      assert (a + c)[1..] == a[1..] + c && (b + d)[1..] == b[1..] + d;
      assert a == [a[0]] + a[1..] && b == [b[0]] + b[1..];
      LexConcat(a[1..], b[1..], c, d);
    }
  }

  // First occurrences: how a list is rid of blanks and repeats.

  /** Where each key but the empty one occurs first. */
  function Firsts(keys: seq<string>): seq<nat> {
    if keys == [] then []
    else
      var n := |keys| - 1;
      if keys[n] == "" || keys[n] in keys[..n] then Firsts(keys[..n]) else Firsts(keys[..n]) + [n]
  }

  predicate IsFirst(keys: seq<string>, k: nat)
    requires k < |keys|
  {
    keys[k] != "" && keys[k] !in keys[..k]
  }

  lemma {:induction false} FirstsAre(keys: seq<string>)
    ensures forall i, j | 0 <= i < j < |Firsts(keys)| :: Firsts(keys)[i] < Firsts(keys)[j]
    ensures forall i | 0 <= i < |Firsts(keys)| :: Firsts(keys)[i] < |keys|
    ensures forall k | 0 <= k < |keys| :: k in Firsts(keys) <==> IsFirst(keys, k)
  {
    if keys != [] {
      var n := |keys| - 1;
      var front := keys[..n];
      FirstsAre(front);
      forall k | 0 <= k < n ensures IsFirst(keys, k) <==> IsFirst(front, k) {
        assert front[..k] == keys[..k];
      }
      assert forall k | 0 <= k < n :: k in Firsts(keys) <==> k in Firsts(front);
      assert forall i | 0 <= i < |Firsts(front)| :: Firsts(front)[i] < n;
      assert n !in Firsts(front);
    }
  }
}
