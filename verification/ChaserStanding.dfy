/** What a run of the chase loop keeps, whatever the client answers. */
module ChaserStanding {
  import opened Wrappers
  import opened ChaserPolicy
  import opened ChaserInvoice
  import opened ChaserRun
  import opened ChaserListing
  import opened ChaserLoop

  // ---- What a client keeps by being contacted

  ghost function ByRungs<C>(funds: (C, set<InvoiceId>) -> bool): (C, Book) -> bool {
    (c, book: Book) => funds(c, book.lastRung.Keys)
  }

  lemma VisitedRungs(book: Book, inv: Invoice, today: int, rung: Rung, reply: Reply)
    ensures Visited(book, inv, today, rung, reply).lastRung.Keys ==
            book.lastRung.Keys + if IsContact(rung) then {inv.id} else {}
  {
  }

  lemma TurnKeepsFunds<C(!new)>(client: Client<C>, funds: (C, set<InvoiceId>) -> bool, s: Sitting<C>, inv: Invoice,
                                known: Facts, today: int)
    requires KeptByContacts(client, funds) && funds(s.c, s.book.lastRung.Keys)
    ensures funds(Turn(client, s, inv, known, today).c, Turn(client, s, inv, known, today).book.lastRung.Keys)
  {
    var rung := Decide(inv, known, today, s.contacted).rung;
    if IsContact(rung) {
      VisitedRungs(s.book, inv, today, rung, client.contact(s.c, inv, today).1);
    } else {
      VisitedRungs(s.book, inv, today, rung, Silent);
      assert s.book.lastRung.Keys + {} == s.book.lastRung.Keys;
    }
  }

  lemma FundsKeptByTurns<C(!new)>(client: Client<C>, funds: (C, set<InvoiceId>) -> bool, snap: Ledger, today: int)
    requires KeptByContacts(client, funds)
    ensures KeptByTurns(client, snap, today, ByRungs(funds))
  {
    forall s, id, known ensures TurnKeeps(client, snap, today, ByRungs(funds), s, id, known) {
      if id in snap && ByRungs(funds)(s.c, s.book) {
        TurnKeepsFunds(client, funds, s, snap[id], known, today);
      }
    }
  }

  lemma {:induction false} SweptRungs(s: Sweep, l: Ledger, ids: seq<InvoiceId>, today: int)
    ensures Swept(s, l, ids, today).book.lastRung == s.book.lastRung &&
            Swept(s, l, ids, today).book.audit == s.book.audit
  {
    if ids != [] {
      SweptRungs(s, l, ids[..|ids| - 1], today);
    }
  }

  ghost predicate Funded<C>(funds: (C, set<InvoiceId>) -> bool, s: Tally<C>) {
    funds(s.c, s.book.lastRung.Keys)
  }

  ghost function FundedDaily<C>(funds: (C, set<InvoiceId>) -> bool): (Tally<C>, int, bool) -> bool {
    (s, today, first) => Funded(funds, s)
  }

  lemma ChaseKeepsFunds<C(!new)>(client: Client<C>, funds: (C, set<InvoiceId>) -> bool, d: Desk<C>, snap: Ledger,
                                 today: int)
    requires KeptByContacts(client, funds) && funds(d.c, d.book.lastRung.Keys)
    ensures var d' := Chased(client, d, snap, today); funds(d'.c, d'.book.lastRung.Keys)
  {
    FundsKeptByTurns(client, funds, snap, today);
    KeptByChase(client, d, snap, today, ByRungs(funds));
  }

  lemma SweepKeepsFunds<C>(funds: (C, set<InvoiceId>) -> bool, d: Desk<C>, now: Ledger, paid: set<InvoiceId>,
                           today: int)
    requires funds(d.c, d.book.lastRung.Keys)
    ensures funds(d.c, Swept(Sweep(d.book, paid), now, IdsOf(now), today).book.lastRung.Keys)
  {
    SweptRungs(Sweep(d.book, paid), now, IdsOf(now), today);
  }

  lemma DayKeepsFunds<C(!new)>(client: Client<C>, funds: (C, set<InvoiceId>) -> bool, s: Tally<C>, today: int,
                               first: bool)
    requires KeptByContacts(client, funds) && Funded(funds, s)
    ensures Funded(funds, AfterDay(client, s, today, first))
  {
    var c := client.resolve(s.c, today);
    var snap := client.ledger(c);
    ChaseKeepsFunds(client, funds, Desk(c, s.book), snap, today);
    var d := Chased(client, Desk(c, s.book), snap, today);
    SweepKeepsFunds(funds, d, client.ledger(d.c), Begun(s, snap, first).paid, today);
  }

  /**
   * Whatever the client keeps by time passing and by contacts holds of it and the contacted
   * invoices at every day's end.
   */
  lemma RunKeepsFunds<C(!new)>(client: Client<C>, funds: (C, set<InvoiceId>) -> bool, c0: C, start: int, n: nat)
    requires KeptByContacts(client, funds) && funds(c0, {})
    ensures funds(AfterDays(client, c0, start, n).c, AfterDays(client, c0, start, n).book.lastRung.Keys)
  {
    assert BLANK.lastRung.Keys == {};
    forall s, today, first ensures DayKeeps(Daily(client), FundedDaily(funds), s, today, first) {
      if Funded(funds, s) {
        DayKeepsFunds(client, funds, s, today, first);
      }
    }
    KeptEveryDay(Unstarted(c0), Daily(client), FundedDaily(funds), start, n);
    assert FundedDaily(funds)(AfterDays(client, c0, start, n), start + n, n == 0);
  }

  ghost function ListedSince<C>(client: Client<C>, l: Ledger): (C, set<InvoiceId>) -> bool {
    (c, contacted) => Moves(l, client.ledger(c))
  }

  lemma HonestKeepsListing<C(!new)>(client: Client<C>, l: Ledger)
    requires Honest(client)
    ensures KeptByContacts(client, ListedSince(client, l))
  {
    var funds := ListedSince(client, l);
    forall c, s, day | funds(c, s) ensures funds(client.resolve(c, day), s) {
      MovesCompose(l, client.ledger(c), client.ledger(client.resolve(c, day)));
    }
    forall c, s, inv, day | funds(c, s) ensures funds(client.contact(c, inv, day).0, s + {inv.id}) {
      MovesCompose(l, client.ledger(c), client.ledger(client.contact(c, inv, day).0));
    }
  }

  /** During a day's chase the listing only moves on. */
  lemma ChaseMoves<C(!new)>(client: Client<C>, d: Desk<C>, snap: Ledger, today: int)
    requires Honest(client) && snap == client.ledger(d.c)
    ensures Moves(snap, client.ledger(Chased(client, d, snap, today).c))
  {
    HonestKeepsListing(client, snap);
    FundsKeptByTurns(client, ListedSince(client, snap), snap, today);
    MovesToItself(snap);
    KeptByChase(client, d, snap, today, ByRungs(ListedSince(client, snap)));
  }

  // ---- What every turn of a day keeps about the book

  /** Entries are only added, with today's date. */
  predicate Dated(a: seq<AuditEntry>, b: seq<AuditEntry>, today: int) {
    a <= b && forall k | |a| <= k < |b| :: b[k].day == today
  }

  /** Only invoices open on the listing are contacted. */
  ghost predicate PicksOpen(a: Book, b: Book, snap: Ledger) {
    forall id | id in b.lastRung :: id in a.lastRung || (id in snap && snap[id].status.Open?)
  }

  /** From book `a` to book `b` on one day. */
  ghost predicate Along(a: Book, b: Book, snap: Ledger, today: int) {
    SamePayments(a, b) && OnlyAbout(b, snap.Keys) && Dated(a.audit, b.audit, today) && PicksOpen(a, b, snap)
  }

  ghost function AlongFrom<C>(a: Book, snap: Ledger, today: int): (C, Book) -> bool {
    (c, book) => Along(a, book, snap, today)
  }

  lemma RememberKeepsAbout(book: Book, c: CustomerId, n: Note, ids: set<InvoiceId>)
    requires OnlyAbout(book, ids) && n.invoice in ids
    ensures OnlyAbout(Remember(book, c, n), ids)
  {
    var b := Remember(book, c, n);
    forall d, m | m in Notes(b, d) ensures m.invoice in ids {
      assert m in Notes(book, d) || m == n;
    }
  }

  lemma AboutFollows(a: Book, b: Book, ids: set<InvoiceId>)
    requires OnlyAbout(a, ids) && b.memory == a.memory && forall k | 0 <= k < |b.audit| :: b.audit[k].invoice in ids
    ensures OnlyAbout(b, ids)
  {
    forall c, n | n in Notes(b, c) ensures n.invoice in ids {
      assert n in Notes(a, c);
    }
  }

  lemma ContactKeepsAbout(book: Book, inv: Invoice, today: int, rung: Rung, reply: Reply, ids: set<InvoiceId>)
    requires OnlyAbout(book, ids) && inv.id in ids
    ensures OnlyAbout(Contacted(book, inv, today, rung, reply), ids)
  {
    var n := ContactNote(today, inv.id, rung, today - inv.due);
    RememberKeepsAbout(book, inv.customer, n, ids);
    var b := Remember(book, inv.customer, n).(lastRung := book.lastRung[inv.id := rung]);
    AboutFollows(Remember(book, inv.customer, n), b, ids);
    match reply
    case Silent =>
      RememberKeepsAbout(b, inv.customer, NoResponseNote(today, inv.id), ids);
    case Disputing =>
      RememberKeepsAbout(b, inv.customer, DisputeNote(today, inv.id), ids);
      AboutFollows(Remember(b, inv.customer, DisputeNote(today, inv.id)), Contacted(book, inv, today, rung, reply),
                   ids);
    case Promising(until) =>
      RememberKeepsAbout(b, inv.customer, PromiseNote(today, inv.id, until), ids);
      AboutFollows(Remember(b, inv.customer, PromiseNote(today, inv.id, until)),
                   Contacted(book, inv, today, rung, reply), ids);
    case Other =>
  }

  lemma VisitKeepsAbout(book: Book, inv: Invoice, today: int, rung: Rung, reply: Reply, ids: set<InvoiceId>)
    requires OnlyAbout(book, ids) && inv.id in ids
    ensures OnlyAbout(Visited(book, inv, today, rung, reply), ids)
  {
    var b := Visited(book, inv, today, rung, reply);
    if IsContact(rung) {
      ContactKeepsAbout(book, inv, today, rung, reply, ids);
      AboutFollows(Contacted(book, inv, today, rung, reply), b, ids);
    } else if rung.Human? {
      RememberKeepsAbout(book, inv.customer, EscalationNote(today, inv.id), ids);
      AboutFollows(Remember(book, inv.customer, EscalationNote(today, inv.id)), b, ids);
    } else {
      AboutFollows(book, b, ids);
    }
  }

  lemma VisitAppends(book: Book, inv: Invoice, today: int, rung: Rung, reply: Reply)
    ensures Visited(book, inv, today, rung, reply).audit ==
            book.audit + [AuditEntry(today, inv.id, inv.customer, rung, inv.amount, today - inv.due)]
  {
  }

  lemma ContactsOpen(inv: Invoice, known: Facts, today: int, local: bool)
    ensures IsContact(Decide(inv, known, today, local).rung) ==> inv.status.Open?
  {
  }

  lemma VisitKeepsAlong(a: Book, book: Book, snap: Ledger, id: InvoiceId, today: int, rung: Rung, reply: Reply)
    requires Along(a, book, snap, today) && id in snap && snap[id].id == id &&
             (IsContact(rung) ==> snap[id].status.Open?)
    ensures Along(a, Visited(book, snap[id], today, rung, reply), snap, today)
  {
    var b := Visited(book, snap[id], today, rung, reply);
    VisitKeepsPayments(book, snap[id], today, rung, reply);
    SamePaymentsCompose(a, book, b);
    VisitKeepsAbout(book, snap[id], today, rung, reply, snap.Keys);
    VisitAppends(book, snap[id], today, rung, reply);
    VisitedRungs(book, snap[id], today, rung, reply);
  }

  lemma AlongKeptByTurns<C(!new)>(client: Client<C>, a: Book, snap: Ledger, today: int)
    requires WellKeyed(snap)
    ensures KeptByTurns(client, snap, today, AlongFrom(a, snap, today))
  {
    forall s: Sitting<C>, id, known ensures TurnKeeps(client, snap, today, AlongFrom(a, snap, today), s, id, known) {
      if id in snap && AlongFrom<C>(a, snap, today)(s.c, s.book) {
        var rung := Decide(snap[id], known, today, s.contacted).rung;
        ContactsOpen(snap[id], known, today, s.contacted);
        VisitKeepsAlong(a, s.book, snap, id, today, rung,
                        if IsContact(rung) then client.contact(s.c, snap[id], today).1 else Silent);
      }
    }
  }

  lemma ChaseGoesAlong<C(!new)>(client: Client<C>, d: Desk<C>, snap: Ledger, today: int)
    requires WellKeyed(snap) && OnlyAbout(d.book, snap.Keys)
    ensures Along(d.book, Chased(client, d, snap, today).book, snap, today)
  {
    AlongKeptByTurns(client, d.book, snap, today);
    SamePaymentsAsItself(d.book);
    KeptByChase(client, d, snap, today, AlongFrom(d.book, snap, today));
  }

  // ---- Going through the day's listing

  function Left(todo: set<InvoiceId>, ids: seq<InvoiceId>): (left: set<InvoiceId>)
    ensures forall id :: id in left <==> id in todo && id !in ids
  {
    if ids == [] then todo
    else
      var front, last := ids[..|ids| - 1], ids[|ids| - 1];
      assert forall id :: id in ids <==> id in front || id == last;
      Left(todo, front) - {last}
  }

  lemma TurnTicks<C>(client: Client<C>, s: Sitting<C>, snap: Ledger, id: InvoiceId, known: Facts, today: int,
                     todo: set<InvoiceId>)
    requires Ticking(s.book, snap, today, todo) && id in todo
    requires Visiting(s.book, snap, today, todo, snap[id].customer, known, s.contacted)
    ensures var s' := Turn(client, s, snap[id], known, today);
      && Ticking(s'.book, snap, today, todo - {id})
      && Visiting(s'.book, snap, today, todo - {id}, snap[id].customer, known, s'.contacted)
  {
    var rung := Decide(snap[id], known, today, s.contacted).rung;
    var reply := if IsContact(rung) then client.contact(s.c, snap[id], today).1 else Silent;
    VisitKeepsTicking(s.book, snap, today, todo, id, known, s.contacted, rung, reply);
    VisitKeepsVisiting(s.book, snap, today, todo, id, known, s.contacted, rung, reply);
  }

  ghost predicate Midway<C>(s: Sitting<C>, snap: Ledger, today: int, todo: set<InvoiceId>, customer: CustomerId,
                            known: Facts)
  {
    Ticking(s.book, snap, today, todo) && Visiting(s.book, snap, today, todo, customer, known, s.contacted)
  }

  lemma {:induction false} TurnsTick<C>(client: Client<C>, s: Sitting<C>, snap: Ledger, ids: seq<InvoiceId>,
                                        known: Facts,
                                        today: int, todo: set<InvoiceId>, customer: CustomerId)
    requires Midway(s, snap, today, todo, customer, known)
    requires Ascends(ids)
    requires forall k | 0 <= k < |ids| :: ids[k] in todo && ids[k] in snap && snap[ids[k]].customer == customer
    ensures Midway(Turns(client, s, snap, ids, known, today), snap, today, Left(todo, ids), customer, known)
  {
    if ids != [] {
      var front, id := ids[..|ids| - 1], ids[|ids| - 1];
      AscendingRest(ids);
      TurnsTick(client, s, snap, front, known, today, todo, customer);
      TurnTicks(client, Turns(client, s, snap, front, known, today), snap, id, known, today, Left(todo, front));
    }
  }

  ghost predicate Between(book: Book, snap: Ledger, today: int, todo: set<InvoiceId>) {
    Ticking(book, snap, today, todo) && OthersQuiet(book, snap, today, todo, None)
  }

  /** One customer is gone through whole. */
  lemma CallTicks<C>(client: Client<C>, d: Desk<C>, snap: Ledger, ids: seq<InvoiceId>, customer: CustomerId, today: int,
                     todo: set<InvoiceId>)
    requires Between(d.book, snap, today, todo) && ids != [] && Ascends(ids)
    requires forall id :: id in ids <==> id in todo && snap[id].customer == customer
    ensures Between(Call(client, d, snap, ids, customer, today).book, snap, today, Left(todo, ids))
  {
    var known, s := FactsOf(d.book, customer), Sitting(d.c, d.book, false);
    assert ids[0] in ids && forall k | 0 <= k < |ids| :: ids[k] in ids;
    BeginVisiting(d.book, snap, today, todo, ids[0]);
    TurnsTick(client, s, snap, ids, known, today, todo, customer);
    var s' := Turns(client, s, snap, ids, known, today);
    EndVisiting(s'.book, snap, today, Left(todo, ids), customer, known, s'.contacted);
  }

  /** Who is left after the given customers. */
  function Waiting(snap: Ledger, customers: seq<CustomerId>): (left: set<InvoiceId>)
    ensures forall id :: id in left <==> id in snap && snap[id].customer !in customers
  {
    if customers == [] then snap.Keys
    else
      var front, last := customers[..|customers| - 1], customers[|customers| - 1];
      assert forall c :: c in customers <==> c in front || c == last;
      GroupIs(IdsOf(snap), snap, last);
      IdsAre(snap);
      Left(Waiting(snap, front), GroupOf(IdsOf(snap), snap, last))
  }

  lemma NextCall<C>(client: Client<C>, d: Desk<C>, snap: Ledger, front: seq<CustomerId>, customer: CustomerId,
                    today: int,
                    group: seq<InvoiceId>)
    requires Between(d.book, snap, today, Waiting(snap, front)) && customer !in front
    requires group == GroupOf(IdsOf(snap), snap, customer) && group != []
    ensures Between(Call(client, d, snap, group, customer, today).book, snap, today, Left(Waiting(snap, front), group))
  {
    IdsAre(snap);
    GroupIs(IdsOf(snap), snap, customer);
    GroupAscends(IdsOf(snap), snap, customer);
    CallTicks(client, d, snap, group, customer, today, Waiting(snap, front));
  }

  lemma {:induction false} RoundTicks<C>(client: Client<C>, d: Desk<C>, snap: Ledger, customers: seq<CustomerId>,
                                         today: int)
    requires Between(d.book, snap, today, snap.Keys) && Ascends(customers)
    requires forall c | c in customers :: GroupOf(IdsOf(snap), snap, c) != []
    ensures Between(Round(client, d, snap, IdsOf(snap), customers, today).book, snap, today, Waiting(snap, customers))
  {
    if customers != [] {
      var front, last := customers[..|customers| - 1], customers[|customers| - 1];
      var group := GroupOf(IdsOf(snap), snap, last);
      AscendingRest(customers);
      RoundTicks(client, d, snap, front, today);
      NextCall(client, Round(client, d, snap, IdsOf(snap), front, today), snap, front, last, today, group);
    }
  }

  /** A day's chase keeps every invoice in order. */
  lemma ChaseKeepsAllOk<C>(client: Client<C>, d: Desk<C>, snap: Ledger, today: int)
    requires WellKeyed(snap) && AllOk(d.book, snap) && forall k | 0 <= k < |d.book.audit| :: d.book.audit[k].day < today
    ensures AllOk(Chased(client, d, snap, today).book, snap)
  {
    BeginDay(d.book, snap, today);
    SortedIdsAre(CustomersOf(IdsOf(snap), snap));
    forall c | c in CustomersIn(snap) ensures GroupOf(IdsOf(snap), snap, c) != [] {
      CustomersHaveGroups(IdsOf(snap), snap, c);
    }
    RoundTicks(client, d, snap, CustomersIn(snap), today);
  }
}
