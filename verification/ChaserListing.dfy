/** Listings of a ledger in identifier order, whole and by customer. */
module ChaserListing {
  import opened ChaserPolicy
  import opened ChaserRun

  // ---- Sorted listings

  lemma Member<T>(s: set<T>) returns (x: T)
    requires s != {}
    ensures x in s
  {
    x :| x in s;
  }

  lemma {:induction false} LeastExists(s: set<int>)
    requires s != {}
    ensures exists m :: m in s && forall x | x in s :: m <= x
  {
    var x := Member(s);
    var rest := s - {x};
    if rest != {} {
      LeastExists(rest);
      var m :| m in rest && forall y | y in rest :: m <= y;
      var least := if x < m then x else m;
      assert forall y | y in s :: y == x || y in rest;
      assert least in s && forall y | y in s :: least <= y;
    } else {
      assert forall y | y in s :: y == x || y in rest;
    }
  }

  function Least(s: set<int>): (m: int)
    requires s != {}
    ensures m in s
  {
    LeastExists(s);
    var m :| m in s && forall x | x in s :: m <= x;
    m
  }

  lemma LeastIsLeast(s: set<int>)
    requires s != {}
    ensures forall x | x in s :: Least(s) <= x
  {
    LeastExists(s);
  }

  predicate Ascends(ids: seq<int>) {
    forall i, j | 0 <= i < j < |ids| :: ids[i] < ids[j]
  }

  function SortedIds(s: set<int>): seq<int> {
    if s == {} then [] else [Least(s)] + SortedIds(s - {Least(s)})
  }

  lemma {:induction false} SortedIdsAre(s: set<int>)
    ensures Ascends(SortedIds(s)) && forall x :: x in SortedIds(s) <==> x in s
  {
    if s != {} {
      var m, rest := Least(s), SortedIds(s - {Least(s)});
      LeastIsLeast(s);
      SortedIdsAre(s - {m});
      assert forall k | 0 <= k < |rest| :: rest[k] in rest;
      assert forall k | 0 <= k < |rest| :: rest[k] in s - {m} && m < rest[k];
    }
  }

  lemma SortedIdsHold(s: set<int>)
    ensures forall k | 0 <= k < |SortedIds(s)| :: SortedIds(s)[k] in s
  {
    var ids := SortedIds(s);
    SortedIdsAre(s);
    assert forall k | 0 <= k < |ids| :: ids[k] in ids;
  }

  function IdsOf(l: Ledger): seq<InvoiceId> {
    SortedIds(l.Keys)
  }

  lemma IdsAre(l: Ledger)
    ensures Ascends(IdsOf(l)) && forall id :: id in IdsOf(l) <==> id in l
    ensures forall k | 0 <= k < |IdsOf(l)| :: IdsOf(l)[k] in l
  {
    SortedIdsAre(l.Keys);
    SortedIdsHold(l.Keys);
  }

  // ---- Grouping by customer

  function CustomersOf(ids: seq<InvoiceId>, l: Ledger): set<CustomerId> {
    if ids == [] then {}
    else
      var id := ids[|ids| - 1];
      CustomersOf(ids[..|ids| - 1], l) + if id in l then {l[id].customer} else {}
  }

  function GroupOf(ids: seq<InvoiceId>, l: Ledger, c: CustomerId): seq<InvoiceId> {
    if ids == [] then []
    else
      var id := ids[|ids| - 1];
      GroupOf(ids[..|ids| - 1], l, c) + if id in l && l[id].customer == c then [id] else []
  }

  lemma {:induction false} CustomersHaveGroups(ids: seq<InvoiceId>, l: Ledger, c: CustomerId)
    ensures c in CustomersOf(ids, l) <==> GroupOf(ids, l, c) != []
  {
    if ids != [] {
      CustomersHaveGroups(ids[..|ids| - 1], l, c);
    }
  }

  lemma {:induction false} GroupIs(ids: seq<InvoiceId>, l: Ledger, c: CustomerId)
    ensures forall id :: id in GroupOf(ids, l, c) <==> id in ids && id in l && l[id].customer == c
  {
    if ids != [] {
      var front, id := ids[..|ids| - 1], ids[|ids| - 1];
      GroupIs(front, l, c);
      assert ids == front + [id];
    }
  }

  lemma {:induction false} GroupHolds(ids: seq<InvoiceId>, l: Ledger, c: CustomerId)
    ensures forall k | 0 <= k < |GroupOf(ids, l, c)| :: GroupOf(ids, l, c)[k] in l
  {
    if ids != [] {
      GroupHolds(ids[..|ids| - 1], l, c);
    }
  }

  lemma {:induction false} GroupAscends(ids: seq<InvoiceId>, l: Ledger, c: CustomerId)
    requires Ascends(ids)
    ensures Ascends(GroupOf(ids, l, c))
  {
    if ids != [] {
      var front, id := ids[..|ids| - 1], ids[|ids| - 1];
      GroupAscends(front, l, c);
      GroupIs(front, l, c);
      var group := GroupOf(front, l, c);
      forall k | 0 <= k < |group| ensures group[k] < id {
        assert group[k] in group;
        var j :| 0 <= j < |front| && front[j] == group[k];
        assert ids[j] < ids[|ids| - 1];
      }
    }
  }

  lemma AscendingRest(ids: seq<int>)
    requires Ascends(ids) && ids != []
    ensures Ascends(ids[..|ids| - 1]) && ids[|ids| - 1] !in ids[..|ids| - 1]
  {
  }

  lemma Tail(ids: seq<int>)
    requires Ascends(ids) && ids != []
    ensures Ascends(ids[1..]) && forall x :: x in ids[1..] <==> x in ids && x != ids[0]
    ensures forall x | x in ids :: ids[0] <= x
  {
    assert ids == [ids[0]] + ids[1..];
  }

  lemma SomeMember(ids: seq<int>) returns (x: int)
    requires ids != []
    ensures x in ids
  {
    x := ids[0];
  }

  /** A listing is determined by its members. */
  lemma {:induction false} ListingUnique(a: seq<int>, b: seq<int>)
    requires Ascends(a) && Ascends(b) && forall x :: x in a <==> x in b
    ensures a == b
  {
    if a == [] {
      if b != [] {
        var x := SomeMember(b);
      }
    } else {
      assert a[0] in b && b[0] in a;
      Tail(a);
      Tail(b);
      ListingUnique(a[1..], b[1..]);
      assert a == [a[0]] + a[1..] && b == [b[0]] + b[1..];
    }
  }
}
