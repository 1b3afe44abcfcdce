/** The chase loop, statement by statement. Each method computes its function in ChaserLoop. */
module ChaserAgent {
  import opened Wrappers
  import opened ChaserPolicy
  import opened ChaserInvoice
  import opened ChaserRun
  import opened ChaserListing
  import opened ChaserLoop
  import opened ChaserVisits

  method GroupByCustomer(ids: seq<InvoiceId>, l: Ledger) returns (groups: map<CustomerId, seq<InvoiceId>>)
    requires forall k | 0 <= k < |ids| :: ids[k] in l
    ensures groups.Keys == CustomersOf(ids, l)
    ensures forall c | c in groups :: groups[c] == GroupOf(ids, l, c)
  {
    groups := map[];
    for i := 0 to |ids|
      invariant groups.Keys == CustomersOf(ids[..i], l)
      invariant forall c | c in groups :: groups[c] == GroupOf(ids[..i], l, c)
    {
      assert ids[..i + 1][..i] == ids[..i];
      var c := l[ids[i]].customer;
      CustomersHaveGroups(ids[..i], l, c);
      groups := groups[c := (if c in groups then groups[c] else []) + [ids[i]]];
    }
    assert ids[..|ids|] == ids;
  }

  method ChaseInvoice<C>(client: Client<C>, s: Sitting<C>, inv: Invoice, known: Facts, today: int)
      returns (next: Sitting<C>)
    ensures next == Turn(client, s, inv, known, today)
    ensures ByVisit(client, Desk(s.c, s.book), Visit(s.c, inv, Decide(inv, known, today, s.contacted).rung),
                    Desk(next.c, next.book), today)
    ensures next.contacted == (s.contacted || IsContact(Decide(inv, known, today, s.contacted).rung))
  {
    TurnIsAVisit(client, s, inv, known, today);
    var action := Decide(inv, known, today, s.contacted);
    var c, book, contacted := s.c, s.book, s.contacted;
    if IsContact(action.rung) {
      var answer := client.contact(c, inv, today);
      c := answer.0;
      book := Remember(book, inv.customer, ContactNote(today, inv.id, action.rung, today - inv.due));
      contacted := true;
      book := book.(lastRung := book.lastRung[inv.id := action.rung]);
      match answer.1 {
        case Silent =>
          book := Remember(book, inv.customer, NoResponseNote(today, inv.id));
        case Disputing =>
          book := Remember(book, inv.customer, DisputeNote(today, inv.id));
          book := book.(disputes := book.disputes + {inv.id});
        case Promising(until) =>
          book := Remember(book, inv.customer, PromiseNote(today, inv.id, until));
          book := book.(promisesMade := book.promisesMade + {inv.id},
                        promiseDates := book.promiseDates[inv.id := until]);
        case Other =>
      }
    } else if action.rung.Human? {
      book := Remember(book, inv.customer, EscalationNote(today, inv.id));
    }
    book := Log(book, inv, today, action.rung);
    next := Sitting(c, book, contacted);
  }

  method ChaseCustomer<C>(client: Client<C>, d: Desk<C>, snap: Ledger, group: seq<InvoiceId>, customer: CustomerId,
                          today: int)
    returns (next: Desk<C>)
    requires Listed(group, snap)
    ensures next == Call(client, d, snap, group, customer, today)
  {
    var known := ParseFacts(Notes(d.book, customer));
    var begun := Sitting(d.c, d.book, false);
    var s := begun;
    for j := 0 to |group|
      invariant s == Turns(client, begun, snap, group[..j], known, today)
    {
      assert group[..j + 1][..j] == group[..j];
      s := ChaseInvoice(client, s, snap[group[j]], known, today);
    }
    assert group[..|group|] == group;
    next := Desk(s.c, s.book);
  }

  lemma RoundNext<C>(client: Client<C>, d: Desk<C>, snap: Ledger, ids: seq<InvoiceId>, customers: seq<CustomerId>,
                     m: nat, today: int,
                     before: Desk<C>, group: seq<InvoiceId>)
    requires m < |customers|
    requires before == Round(client, d, snap, ids, customers[..m], today) && group == GroupOf(ids, snap, customers[m])
    ensures Call(client, before, snap, group, customers[m], today) ==
            Round(client, d, snap, ids, customers[..m + 1], today)
  {
    assert customers[..m + 1][..m] == customers[..m];
  }

  predicate Listed(group: seq<InvoiceId>, l: Ledger) {
    forall k | 0 <= k < |group| :: group[k] in l
  }

  method ChaseAll<C>(client: Client<C>, d: Desk<C>, snap: Ledger, today: int) returns (next: Desk<C>)
    ensures next == Chased(client, d, snap, today)
  {
    var ids := IdsOf(snap);
    IdsAre(snap);
    var groups := GroupByCustomer(ids, snap);
    var customers := SortedIds(groups.Keys);
    SortedIdsHold(groups.Keys);
    next := d;
    for m := 0 to |customers|
      invariant next == Round(client, d, snap, ids, customers[..m], today)
    {
      var before, customer := next, customers[m];
      assert customer in groups.Keys;
      GroupHolds(ids, snap, customer);
      next := ChaseCustomer(client, before, snap, groups[customer], customer, today);
      RoundNext(client, d, snap, ids, customers, m, today, before, groups[customer]);
    }
    assert customers[..|customers|] == customers;
  }

  lemma SweptNext(s: Sweep, l: Ledger, ids: seq<InvoiceId>, i: nat, today: int)
    requires i < |ids| && ids[i] in l
    ensures var before, id := Swept(s, l, ids[..i], today), ids[i];
      Swept(s, l, ids[..i + 1], today) ==
      if l[id].status.Paid? && id !in before.recorded
      then Sweep(Remember(before.book, l[id].customer, PaymentNote(today, id)), before.recorded + {id}) else before
  {
    assert ids[..i + 1][..i] == ids[..i];
  }

  /** Notes a payment for every invoice the client now calls paid and that was not recorded before. */
  method SweepPayments(book: Book, l: Ledger, recorded: set<InvoiceId>, today: int) returns (s: Sweep)
    ensures s == Swept(Sweep(book, recorded), l, IdsOf(l), today)
  {
    s := Sweep(book, recorded);
    var ids := IdsOf(l);
    IdsAre(l);
    for i := 0 to |ids|
      invariant s == Swept(Sweep(book, recorded), l, ids[..i], today)
    {
      var id := ids[i];
      SweptNext(Sweep(book, recorded), l, ids, i, today);
      if l[id].status.Paid? && id !in s.recorded {
        s := Sweep(Remember(s.book, l[id].customer, PaymentNote(today, id)), s.recorded + {id});
      }
    }
    assert ids[..|ids|] == ids;
  }

  /** One tick: time passes, everyone on the listing is chased, then payments are swept up. */
  method ChaseDay<C>(client: Client<C>, s: Tally<C>, today: int, first: bool) returns (next: Tally<C>)
    ensures next == Daily(client)(s, today, first)
  {
    var c := client.resolve(s.c, today);
    var snap := client.ledger(c);
    var initial, paid := s.initial, s.paid;
    if first {
      initial, paid := snap, PaidIn(snap);
    }
    var chased := ChaseAll(client, Desk(c, s.book), snap, today);
    var now := client.ledger(chased.c);
    var swept := SweepPayments(chased.book, now, paid, today);
    next := Tally(chased.c, swept.book, initial, now, swept.recorded);
  }

  lemma RunNext<C>(client: Client<C>, c0: C, start: int, k: nat, s: Tally<C>, today: int, first: bool, next: Tally<C>)
    requires s == AfterDays(client, c0, start, k) && today == start + k && (first <==> k == 0) &&
             next == Daily(client)(s, today, first)
    ensures next == AfterDays(client, c0, start, k + 1)
  {
    AfterNext(Unstarted(c0), Daily(client), start, k, s, today, first, next);
  }

  /** Runs the loop for `days` daily ticks. */
  method Run<C>(client: Client<C>, c0: C, start: int, days: nat) returns (r: Tally<C>)
    ensures r == AfterDays(client, c0, start, days)
  {
    r := Unstarted(c0);
    for offset := 0 to days
      invariant r == AfterDays(client, c0, start, offset)
    {
      var s, today, first := r, start + offset, offset == 0;
      r := ChaseDay(client, s, today, first);
      RunNext(client, c0, start, offset, s, today, first, r);
    }
  }
}
