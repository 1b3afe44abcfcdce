/**
 * The daily chase loop, over any client that answers as it likes, and what a whole run keeps.
 * A recall returns every note written about the customer; drafting the message is left out.
 */
module ChaserRun {
  import opened Wrappers
  import opened ChaserPolicy
  import opened ChaserInvoice

  type Ledger = map<InvoiceId, Invoice>

  /** The payment client by its state: what it lists, what time does to it, how a contact is answered. */
  datatype Client<!C> = Client(ledger: C -> Ledger, resolve: (C, int) -> C, contact: (C, Invoice, int) -> (C, Reply))

  datatype AuditEntry = AuditEntry(day: int, invoice: InvoiceId, customer: CustomerId, rung: Rung, amount: int,
                                   overdue: int)

  /** What the loop accumulates, and the memory it writes to, one project per customer. */
  datatype Book = Book(memory: map<CustomerId, seq<Note>>, audit: seq<AuditEntry>, promisesMade: set<InvoiceId>,
                       promiseDates: map<InvoiceId, int>, disputes: set<InvoiceId>, lastRung: map<InvoiceId, Rung>)

  datatype RunResult = RunResult(book: Book, initial: Ledger, final: Ledger)

  const BLANK := Book(map[], [], {}, map[], {}, map[])

  // ---- Clients whose invoices only ever are added and go from open to paid

  predicate MovesOn(a: Invoice, b: Invoice) {
    b == a.(status := b.status, paidOn := b.paidOn) && (a.status.Paid? ==> b.status.Paid?)
  }

  /** Invoices may be added under their own ids; those listed before stay, and at most turn paid. */
  ghost predicate Moves(a: Ledger, b: Ledger) {
    && (forall id | id in a :: id in b && MovesOn(a[id], b[id]))
    && (forall id | id in b && id !in a :: b[id].id == id)
  }

  predicate WellKeyed(l: Ledger) {
    forall id | id in l :: l[id].id == id
  }

  ghost predicate Honest<C(!new)>(client: Client<C>) {
    && (forall c, day :: Moves(client.ledger(c), client.ledger(client.resolve(c, day))))
    && (forall c, inv, day :: Moves(client.ledger(c), client.ledger(client.contact(c, inv, day).0)))
  }

  /** `funds` relates the client to the invoices contacted so far, whatever it answers. */
  ghost predicate KeptByContacts<C(!new)>(client: Client<C>, funds: (C, set<InvoiceId>) -> bool) {
    && (forall c, s, day | funds(c, s) :: funds(client.resolve(c, day), s))
    && (forall c, s, inv, day | funds(c, s) :: funds(client.contact(c, inv, day).0, s + {inv.id}))
  }

  // ---- Reading the book

  function Notes(book: Book, c: CustomerId): seq<Note> {
    if c in book.memory then book.memory[c] else []
  }

  function FactsOf(book: Book, c: CustomerId): Facts {
    Parsed(Notes(book, c))
  }

  function Contacts(audit: seq<AuditEntry>, id: InvoiceId): seq<Contact> {
    if audit == [] then []
    else
      var e := audit[|audit| - 1];
      Contacts(audit[..|audit| - 1], id) + if e.invoice == id && IsContact(e.rung) then [Contact(e.day, e.rung)] else []
  }

  function Humans(audit: seq<AuditEntry>, id: InvoiceId): nat {
    if audit == [] then 0
    else
      var e := audit[|audit| - 1];
      Humans(audit[..|audit| - 1], id) + if e.invoice == id && e.rung.Human? then 1 else 0
  }

  /** The days on which a customer was contacted, about any invoice. */
  function CustomerDays(audit: seq<AuditEntry>, c: CustomerId): seq<int> {
    if audit == [] then []
    else
      var e := audit[|audit| - 1];
      CustomerDays(audit[..|audit| - 1], c) + if e.customer == c && IsContact(e.rung) then [e.day] else []
  }

  predicate Rising(days: seq<int>) {
    forall i, j | 0 <= i < j < |days| :: days[i] < days[j]
  }

  predicate AllBefore(days: seq<int>, today: int) {
    forall k | 0 <= k < |days| :: days[k] < today
  }

  ghost predicate BookOk(book: Book, inv: Invoice) {
    InvoiceOk(FactsOf(book, inv.customer), Contacts(book.audit, inv.id), Humans(book.audit, inv.id), inv)
  }

  ghost predicate OkAt(book: Book, l: Ledger, id: InvoiceId) {
    id in l ==> BookOk(book, l[id])
  }

  /** The rung credited to an invoice is that of its last contact. */
  ghost predicate LastAt(book: Book, id: InvoiceId) {
    var c := Contacts(book.audit, id);
    (id in book.lastRung <==> c != []) && (c != [] ==> book.lastRung[id] == c[|c| - 1].rung)
  }

  /** Every entry and every note is about one of `ids`. */
  ghost predicate OnlyAbout(book: Book, ids: set<InvoiceId>) {
    && (forall k | 0 <= k < |book.audit| :: book.audit[k].invoice in ids)
    && (forall c, n | n in Notes(book, c) :: n.invoice in ids)
  }

  /** Every invoice is in order, and no customer was contacted twice on one day. */
  ghost predicate AllOk(book: Book, l: Ledger) {
    && (forall id :: OkAt(book, l, id))
    && (forall c :: Rising(CustomerDays(book.audit, c)))
    && (forall id :: LastAt(book, id))
  }

  // ---- Writing it

  function Remember(book: Book, c: CustomerId, n: Note): Book {
    book.(memory := book.memory[c := Notes(book, c) + [n]])
  }

  function Log(book: Book, inv: Invoice, today: int, rung: Rung): Book {
    book.(audit := book.audit + [AuditEntry(today, inv.id, inv.customer, rung, inv.amount, today - inv.due)])
  }

  function Contacted(book: Book, inv: Invoice, today: int, rung: Rung, reply: Reply): Book {
    var b := Remember(book, inv.customer,
                      ContactNote(today, inv.id, rung, today - inv.due)).(lastRung := book.lastRung[inv.id := rung]);
    match reply
    case Silent => Remember(b, inv.customer, NoResponseNote(today, inv.id))
    case Disputing => Remember(b, inv.customer, DisputeNote(today, inv.id)).(disputes := b.disputes + {inv.id})
    case Promising(until) =>
      Remember(b, inv.customer, PromiseNote(today, inv.id, until))
        .(promisesMade := b.promisesMade + {inv.id}, promiseDates := b.promiseDates[inv.id := until])
    case Other => b
  }

  /** One invoice's turn: act on the decision, then log it. */
  function Visited(book: Book, inv: Invoice, today: int, rung: Rung, reply: Reply): Book {
    Log(if IsContact(rung) then Contacted(book, inv, today, rung, reply)
        else if rung.Human? then Remember(book, inv.customer, EscalationNote(today, inv.id))
        else book, inv, today, rung)
  }

  lemma RememberAdds(book: Book, c: CustomerId, n: Note)
    ensures FactsOf(Remember(book, c, n), c) == AddNote(FactsOf(book, c), n)
    ensures forall d | d != c :: FactsOf(Remember(book, c, n), d) == FactsOf(book, d)
  {
    ParsedAppends(Notes(book, c), n);
  }

  lemma RememberedFacts(book: Book, c: CustomerId, n: Note, d: CustomerId)
    ensures FactsOf(Remember(book, c, n), d) == if d == c then AddNote(FactsOf(book, d), n) else FactsOf(book, d)
  {
    RememberAdds(book, c, n);
  }

  lemma SameMemory(a: Book, b: Book, d: CustomerId)
    requires a.memory == b.memory
    ensures FactsOf(a, d) == FactsOf(b, d)
  {
  }

  lemma LogAppends(audit: seq<AuditEntry>, e: AuditEntry, id: InvoiceId, c: CustomerId)
    ensures Contacts(audit + [e], id) ==
            Contacts(audit, id) + if e.invoice == id && IsContact(e.rung) then [Contact(e.day, e.rung)] else []
    ensures Humans(audit + [e], id) == Humans(audit, id) + if e.invoice == id && e.rung.Human? then 1 else 0
    ensures CustomerDays(audit + [e], c) ==
            CustomerDays(audit, c) + if e.customer == c && IsContact(e.rung) then [e.day] else []
  {
    assert (audit + [e])[..|audit|] == audit;
  }

  /** The notes one visit leaves with the customer. */
  function Noted(f: Facts, inv: Invoice, today: int, rung: Rung, reply: Reply): Facts {
    if IsContact(rung) then AfterContact(f, inv, today, rung, reply)
    else if rung.Human? then AddNote(f, EscalationNote(today, inv.id))
    else f
  }

  lemma ContactedFacts(book: Book, inv: Invoice, today: int, rung: Rung, reply: Reply, d: CustomerId)
    ensures FactsOf(Contacted(book, inv, today, rung, reply), d) ==
            if d == inv.customer then AfterContact(FactsOf(book, d), inv, today, rung, reply) else FactsOf(book, d)
  {
    var n := ContactNote(today, inv.id, rung, today - inv.due);
    var b := Remember(book, inv.customer, n).(lastRung := book.lastRung[inv.id := rung]);
    RememberedFacts(book, inv.customer, n, d);
    SameMemory(b, Remember(book, inv.customer, n), d);
    var b' := Contacted(book, inv, today, rung, reply);
    match reply
    case Silent =>
      RememberedFacts(b, inv.customer, NoResponseNote(today, inv.id), d);
    case Disputing =>
      RememberedFacts(b, inv.customer, DisputeNote(today, inv.id), d);
      SameMemory(b', Remember(b, inv.customer, DisputeNote(today, inv.id)), d);
    case Promising(until) =>
      RememberedFacts(b, inv.customer, PromiseNote(today, inv.id, until), d);
      SameMemory(b', Remember(b, inv.customer, PromiseNote(today, inv.id, until)), d);
    case Other =>
  }

  lemma VisitedFacts(book: Book, inv: Invoice, today: int, rung: Rung, reply: Reply, d: CustomerId)
    ensures FactsOf(Visited(book, inv, today, rung, reply), d) ==
            if d == inv.customer then Noted(FactsOf(book, d), inv, today, rung, reply) else FactsOf(book, d)
  {
    if IsContact(rung) {
      ContactedFacts(book, inv, today, rung, reply, d);
    } else if rung.Human? {
      RememberAdds(book, inv.customer, EscalationNote(today, inv.id));
    }
  }

  lemma VisitedAudit(book: Book, inv: Invoice, today: int, rung: Rung, reply: Reply, id: InvoiceId, c: CustomerId)
    ensures var audit := Visited(book, inv, today, rung, reply).audit;
      && Contacts(audit, id) ==
         (if id == inv.id && IsContact(rung) then Contacts(book.audit, id) + [Contact(today, rung)]
                                 else Contacts(book.audit, id))
      && Humans(audit, id) == Humans(book.audit, id) + (if id == inv.id && rung.Human? then 1 else 0)
      && CustomerDays(audit, c) == (if c == inv.customer && IsContact(rung) then CustomerDays(book.audit, c) + [today]
                                    else CustomerDays(book.audit, c))
  {
    LogAppends(book.audit, AuditEntry(today, inv.id, inv.customer, rung, inv.amount, today - inv.due), id, c);
    assert Contacts(book.audit, id) + [] == Contacts(book.audit, id);
    assert CustomerDays(book.audit, c) + [] == CustomerDays(book.audit, c);
    assert Visited(book, inv, today, rung, reply).audit ==
           book.audit + [AuditEntry(today, inv.id, inv.customer, rung, inv.amount, today - inv.due)];
  }

  lemma DecisionKeepsOk(f: Facts, c: seq<Contact>, humans: nat, inv: Invoice, today: int, known: Facts, local: bool,
                        reply: Reply)
    requires InvoiceOk(f, c, humans, inv) && SameFor(known, f, inv.id) && Earlier(c, today)
    ensures var rung := Decide(inv, known, today, local).rung;
      InvoiceOk(Noted(f, inv, today, rung, reply), if IsContact(rung) then c + [Contact(today, rung)] else c,
                humans + (if rung.Human? then 1 else 0), inv)
  {
    var rung := Decide(inv, known, today, local).rung;
    if IsContact(rung) {
      ContactKeepsOk(f, c, humans, inv, today, known, local, reply);
    } else if rung.Human? {
      EscalationKeepsOk(f, c, humans, inv, today, known, local);
    }
  }

  lemma VisitKeepsOwn(book: Book, inv: Invoice, today: int, known: Facts, local: bool, rung: Rung, reply: Reply)
    requires BookOk(book, inv) && SameFor(known, FactsOf(book, inv.customer), inv.id)
    requires Earlier(Contacts(book.audit, inv.id), today)
    requires rung == Decide(inv, known, today, local).rung
    ensures BookOk(Visited(book, inv, today, rung, reply), inv)
  {
    var f, c, humans := FactsOf(book, inv.customer), Contacts(book.audit, inv.id), Humans(book.audit, inv.id);
    DecisionKeepsOk(f, c, humans, inv, today, known, local, reply);
    VisitedBookOk(book, inv, today, rung, reply, f, c, humans, Visited(book, inv, today, rung, reply));
  }

  lemma BookOkFrom(book: Book, inv: Invoice, f: Facts, c: seq<Contact>, humans: nat)
    requires FactsOf(book, inv.customer) == f && Contacts(book.audit, inv.id) == c &&
             Humans(book.audit, inv.id) == humans
    requires InvoiceOk(f, c, humans, inv)
    ensures BookOk(book, inv)
  {
  }

  /** What a visit adds to the facts, the contacts and the escalations of its invoice. */
  lemma VisitLeaves(book: Book, inv: Invoice, today: int, rung: Rung, reply: Reply, book': Book)
    requires book' == Visited(book, inv, today, rung, reply)
    ensures FactsOf(book', inv.customer) == Noted(FactsOf(book, inv.customer), inv, today, rung, reply)
    ensures Contacts(book'.audit, inv.id) ==
            Contacts(book.audit, inv.id) + if IsContact(rung) then [Contact(today, rung)] else []
    ensures Humans(book'.audit, inv.id) == Humans(book.audit, inv.id) + if rung.Human? then 1 else 0
  {
    VisitedFacts(book, inv, today, rung, reply, inv.customer);
    VisitedAudit(book, inv, today, rung, reply, inv.id, inv.customer);
  }

  lemma VisitedBookOk(book: Book, inv: Invoice, today: int, rung: Rung, reply: Reply, f: Facts, c: seq<Contact>,
                      humans: nat,
                      book': Book)
    requires f == FactsOf(book, inv.customer) && c == Contacts(book.audit, inv.id) &&
             humans == Humans(book.audit, inv.id)
    requires InvoiceOk(Noted(f, inv, today, rung, reply), if IsContact(rung) then c + [Contact(today, rung)] else c,
                       humans + (if rung.Human? then 1 else 0), inv)
    requires book' == Visited(book, inv, today, rung, reply)
    ensures BookOk(book', inv)
  {
    VisitLeaves(book, inv, today, rung, reply, book');
    var c' := if IsContact(rung) then c + [Contact(today, rung)] else c;
    assert c' == c + if IsContact(rung) then [Contact(today, rung)] else [];
    BookOkFrom(book', inv, Noted(f, inv, today, rung, reply), c', humans + if rung.Human? then 1 else 0);
  }

  lemma NotedKeepsOther(f: Facts, inv: Invoice, today: int, rung: Rung, reply: Reply,
                        c: seq<Contact>, humans: nat, other: Invoice)
    requires InvoiceOk(f, c, humans, other) && other.id != inv.id
    ensures InvoiceOk(Noted(f, inv, today, rung, reply), c, humans, other)
  {
    if IsContact(rung) {
      var n := ContactNote(today, inv.id, rung, today - inv.due);
      OthersNoteKeepsOk(f, c, humans, other, n);
      match reply
      case Silent => OthersNoteKeepsOk(AddNote(f, n), c, humans, other, NoResponseNote(today, inv.id));
      case Disputing => OthersNoteKeepsOk(AddNote(f, n), c, humans, other, DisputeNote(today, inv.id));
      case Promising(until) => OthersNoteKeepsOk(AddNote(f, n), c, humans, other, PromiseNote(today, inv.id, until));
      case Other =>
    } else if rung.Human? {
      OthersNoteKeepsOk(f, c, humans, other, EscalationNote(today, inv.id));
    }
  }

  lemma NotedKeepsSame(known: Facts, f: Facts, inv: Invoice, today: int, rung: Rung, reply: Reply, id: InvoiceId)
    requires SameFor(known, f, id) && id != inv.id
    ensures SameFor(known, Noted(f, inv, today, rung, reply), id)
  {
    if IsContact(rung) {
      var n := ContactNote(today, inv.id, rung, today - inv.due);
      OthersNoteKeepsSame(known, f, n, id);
      match reply
      case Silent => OthersNoteKeepsSame(known, AddNote(f, n), NoResponseNote(today, inv.id), id);
      case Disputing => OthersNoteKeepsSame(known, AddNote(f, n), DisputeNote(today, inv.id), id);
      case Promising(until) => OthersNoteKeepsSame(known, AddNote(f, n), PromiseNote(today, inv.id, until), id);
      case Other =>
    } else if rung.Human? {
      OthersNoteKeepsSame(known, f, EscalationNote(today, inv.id), id);
    }
  }

  lemma VisitKeepsOther(book: Book, inv: Invoice, today: int, rung: Rung, reply: Reply, other: Invoice)
    requires BookOk(book, other) && other.id != inv.id
    ensures BookOk(Visited(book, inv, today, rung, reply), other)
  {
    VisitedFacts(book, inv, today, rung, reply, other.customer);
    VisitedAudit(book, inv, today, rung, reply, other.id, other.customer);
    if other.customer == inv.customer {
      NotedKeepsOther(FactsOf(book, inv.customer), inv, today, rung, reply,
                      Contacts(book.audit, other.id), Humans(book.audit, other.id), other);
    }
  }

  // ---- One day

  /** Mid-day: everything is in order, and the invoices still to be visited were last contacted before today. */
  ghost predicate Ticking(book: Book, snap: Ledger, today: int, todo: set<InvoiceId>) {
    && WellKeyed(snap) && AllOk(book, snap)
    && todo <= snap.Keys
    && (forall id | id in todo :: Earlier(Contacts(book.audit, id), today))
    && (forall k | 0 <= k < |book.audit| :: book.audit[k].day <= today)
  }

  /** The customers still to be visited, other than `c`, were not contacted today. */
  ghost predicate OthersQuiet(book: Book, snap: Ledger, today: int, todo: set<InvoiceId>, c: Option<CustomerId>)
    requires todo <= snap.Keys
  {
    forall id | id in todo && c != Some(snap[id].customer) ::
      AllBefore(CustomerDays(book.audit, snap[id].customer), today)
  }

  /** Mid-customer: the facts recalled at the start still tell the truth about the customer's remaining invoices. */
  ghost predicate Visiting(book: Book, snap: Ledger, today: int, todo: set<InvoiceId>, c: CustomerId, known: Facts,
                           local: bool)
    requires todo <= snap.Keys
  {
    && (forall id | id in todo && snap[id].customer == c :: SameFor(known, FactsOf(book, c), id))
    && (!local ==> AllBefore(CustomerDays(book.audit, c), today))
    && OthersQuiet(book, snap, today, todo, Some(c))
  }

  lemma ContactOnlyWhenFresh(inv: Invoice, known: Facts, today: int, local: bool)
    ensures IsContact(Decide(inv, known, today, local).rung) ==> !local
  {
  }

  lemma VisitKeepsRising(book: Book, inv: Invoice, today: int, rung: Rung, reply: Reply, c: CustomerId)
    requires Rising(CustomerDays(book.audit, c))
    requires c == inv.customer && IsContact(rung) ==> AllBefore(CustomerDays(book.audit, c), today)
    ensures Rising(CustomerDays(Visited(book, inv, today, rung, reply).audit, c))
  {
    VisitedAudit(book, inv, today, rung, reply, inv.id, c);
  }

  lemma VisitedLastRung(book: Book, inv: Invoice, today: int, rung: Rung, reply: Reply)
    ensures Visited(book, inv, today, rung, reply).lastRung ==
            if IsContact(rung) then book.lastRung[inv.id := rung] else book.lastRung
  {
  }

  lemma LastFollows(book: Book, book': Book, id: InvoiceId, other: InvoiceId, x: Contact)
    requires LastAt(book, id) && book'.lastRung == book.lastRung[other := x.rung]
    requires Contacts(book'.audit, id) == Contacts(book.audit, id) + if id == other then [x] else []
    ensures LastAt(book', id)
  {
  }

  lemma VisitKeepsLast(book: Book, inv: Invoice, today: int, rung: Rung, reply: Reply, id: InvoiceId)
    requires LastAt(book, id)
    ensures LastAt(Visited(book, inv, today, rung, reply), id)
  {
    var book' := Visited(book, inv, today, rung, reply);
    VisitedAudit(book, inv, today, rung, reply, id, inv.customer);
    VisitedLastRung(book, inv, today, rung, reply);
    if IsContact(rung) {
      LastFollows(book, book', id, inv.id, Contact(today, rung));
    }
  }

  lemma VisitKeepsEach(book: Book, snap: Ledger, today: int, id: InvoiceId, known: Facts, local: bool,
                       rung: Rung, reply: Reply, other: InvoiceId)
    requires WellKeyed(snap) && id in snap && other in snap && BookOk(book, snap[other])
    requires Earlier(Contacts(book.audit, id), today) && SameFor(known, FactsOf(book, snap[id].customer), id)
    requires rung == Decide(snap[id], known, today, local).rung
    ensures BookOk(Visited(book, snap[id], today, rung, reply), snap[other])
  {
    if other == id {
      VisitKeepsOwn(book, snap[id], today, known, local, rung, reply);
    } else {
      VisitKeepsOther(book, snap[id], today, rung, reply, snap[other]);
    }
  }

  lemma VisitKeepsAllOk(book: Book, snap: Ledger, today: int, id: InvoiceId, known: Facts, local: bool,
                        rung: Rung, reply: Reply)
    requires WellKeyed(snap) && AllOk(book, snap) && id in snap
    requires Earlier(Contacts(book.audit, id), today) && SameFor(known, FactsOf(book, snap[id].customer), id)
    requires !local ==> AllBefore(CustomerDays(book.audit, snap[id].customer), today)
    requires rung == Decide(snap[id], known, today, local).rung
    ensures AllOk(Visited(book, snap[id], today, rung, reply), snap)
  {
    var inv := snap[id];
    var b := Visited(book, inv, today, rung, reply);
    ContactOnlyWhenFresh(inv, known, today, local);
    forall other ensures OkAt(b, snap, other) {
      assert OkAt(book, snap, other);
      if other in snap {
        VisitKeepsEach(book, snap, today, id, known, local, rung, reply, other);
      }
    }
    forall c ensures Rising(CustomerDays(b.audit, c)) {
      VisitKeepsRising(book, inv, today, rung, reply, c);
    }
    forall other ensures LastAt(b, other) {
      VisitKeepsLast(book, inv, today, rung, reply, other);
    }
  }

  lemma VisitKeepsEarlier(book: Book, inv: Invoice, today: int, todo: set<InvoiceId>, rung: Rung, reply: Reply)
    requires forall id | id in todo :: Earlier(Contacts(book.audit, id), today)
    requires forall k | 0 <= k < |book.audit| :: book.audit[k].day <= today
    ensures var b := Visited(book, inv, today, rung, reply);
      && (forall id | id in todo - {inv.id} :: Earlier(Contacts(b.audit, id), today))
      && (forall k | 0 <= k < |b.audit| :: b.audit[k].day <= today)
  {
    forall id | id in todo - {inv.id}
      ensures Earlier(Contacts(Visited(book, inv, today, rung, reply).audit, id), today)
    {
      VisitedAudit(book, inv, today, rung, reply, id, inv.customer);
    }
  }

  lemma VisitKeepsTicking(book: Book, snap: Ledger, today: int, todo: set<InvoiceId>, id: InvoiceId,
                          known: Facts, local: bool, rung: Rung, reply: Reply)
    requires Ticking(book, snap, today, todo) && id in todo
    requires Visiting(book, snap, today, todo, snap[id].customer, known, local)
    requires rung == Decide(snap[id], known, today, local).rung
    ensures Ticking(Visited(book, snap[id], today, rung, reply), snap, today, todo - {id})
  {
    VisitKeepsAllOk(book, snap, today, id, known, local, rung, reply);
    VisitKeepsEarlier(book, snap[id], today, todo, rung, reply);
  }

  lemma VisitKeepsVisiting(book: Book, snap: Ledger, today: int, todo: set<InvoiceId>, id: InvoiceId,
                           known: Facts, local: bool, rung: Rung, reply: Reply)
    requires WellKeyed(snap) && todo <= snap.Keys && id in todo
    requires Visiting(book, snap, today, todo, snap[id].customer, known, local)
    ensures Visiting(Visited(book, snap[id], today, rung, reply), snap, today, todo - {id}, snap[id].customer,
                     known, local || IsContact(rung))
  {
    var c := snap[id].customer;
    var b := Visited(book, snap[id], today, rung, reply);
    forall other | other in todo - {id} && snap[other].customer == c ensures SameFor(known, FactsOf(b, c), other) {
      VisitedFacts(book, snap[id], today, rung, reply, c);
      NotedKeepsSame(known, FactsOf(book, c), snap[id], today, rung, reply, other);
    }
    VisitedAudit(book, snap[id], today, rung, reply, id, c);
    forall other | other in todo - {id} && snap[other].customer != c
      ensures AllBefore(CustomerDays(b.audit, snap[other].customer), today)
    {
      VisitedAudit(book, snap[id], today, rung, reply, id, snap[other].customer);
    }
  }

  lemma BeginVisiting(book: Book, snap: Ledger, today: int, todo: set<InvoiceId>, id: InvoiceId)
    requires todo <= snap.Keys && id in todo && OthersQuiet(book, snap, today, todo, None)
    ensures Visiting(book, snap, today, todo, snap[id].customer, FactsOf(book, snap[id].customer), false)
  {
  }

  /** When none of a customer's invoices is left, everyone left is quiet. */
  lemma EndVisiting(book: Book, snap: Ledger, today: int, todo: set<InvoiceId>, c: CustomerId, known: Facts,
                    local: bool)
    requires todo <= snap.Keys && Visiting(book, snap, today, todo, c, known, local)
    requires forall id | id in todo :: snap[id].customer != c
    ensures OthersQuiet(book, snap, today, todo, None)
  {
  }

  // ---- Across days

  lemma StatusKeepsOk(f: Facts, c: seq<Contact>, humans: nat, a: Invoice, b: Invoice)
    requires InvoiceOk(f, c, humans, a)
    requires MovesOn(a, b)
    ensures InvoiceOk(f, c, humans, b)
  {
  }

  lemma {:induction false} NoEntries(audit: seq<AuditEntry>, id: InvoiceId)
    requires forall k | 0 <= k < |audit| :: audit[k].invoice != id
    ensures Contacts(audit, id) == [] && Humans(audit, id) == 0
  {
    if audit != [] {
      NoEntries(audit[..|audit| - 1], id);
    }
  }

  /** An invoice listed for the first time has no history. */
  lemma NewcomerIsOk(book: Book, ids: set<InvoiceId>, inv: Invoice)
    requires OnlyAbout(book, ids) && inv.id !in ids
    ensures BookOk(book, inv)
  {
    NoEntries(book.audit, inv.id);
    NothingAbout(Notes(book, inv.customer), inv);
  }

  /** An invoice turning paid, and nothing else about it changing, disturbs nothing; nor does a new one. */
  lemma MovesKeepAllOk(book: Book, a: Ledger, b: Ledger)
    requires AllOk(book, a) && Moves(a, b) && WellKeyed(a) && OnlyAbout(book, a.Keys)
    ensures AllOk(book, b) && OnlyAbout(book, b.Keys)
  {
    forall id ensures OkAt(book, b, id) {
      assert OkAt(book, a, id);
      if id in a {
        StatusKeepsOk(FactsOf(book, a[id].customer), Contacts(book.audit, id), Humans(book.audit, id), a[id], b[id]);
      } else if id in b {
        NewcomerIsOk(book, a.Keys, b[id]);
      }
    }
  }

  lemma MovesCompose(a: Ledger, b: Ledger, c: Ledger)
    requires Moves(a, b) && Moves(b, c)
    ensures Moves(a, c)
  {
    forall id | id in c && id !in a ensures c[id].id == id {
      if id in b {
        assert MovesOn(b[id], c[id]);
      }
    }
  }

  lemma MovesToItself(l: Ledger)
    ensures Moves(l, l)
  {
  }

  lemma MovesKeepKeys(a: Ledger, b: Ledger)
    requires Moves(a, b) && WellKeyed(a)
    ensures WellKeyed(b)
  {
    forall id | id in b ensures b[id].id == id {
      if id in a {
        assert MovesOn(a[id], b[id]);
      }
    }
  }

  lemma {:induction false} LogDaysBound(audit: seq<AuditEntry>, id: InvoiceId, c: CustomerId, today: int)
    requires forall k | 0 <= k < |audit| :: audit[k].day <= today
    ensures forall k | 0 <= k < |Contacts(audit, id)| :: Contacts(audit, id)[k].day <= today
    ensures forall k | 0 <= k < |CustomerDays(audit, c)| :: CustomerDays(audit, c)[k] <= today
  {
    if audit != [] {
      LogDaysBound(audit[..|audit| - 1], id, c, today);
    }
  }

  lemma BeginDay(book: Book, snap: Ledger, today: int)
    requires WellKeyed(snap) && AllOk(book, snap)
    requires forall k | 0 <= k < |book.audit| :: book.audit[k].day < today
    ensures Ticking(book, snap, today, snap.Keys) && OthersQuiet(book, snap, today, snap.Keys, None)
  {
    forall id | id in snap
      ensures Earlier(Contacts(book.audit, id), today) && AllBefore(CustomerDays(book.audit, snap[id].customer), today)
    {
      LogDaysBound(book.audit, id, snap[id].customer, today - 1);
    }
  }

  lemma SweepKeepsEach(book: Book, l: Ledger, today: int, id: InvoiceId, other: InvoiceId)
    requires WellKeyed(l) && OkAt(book, l, other) && id in l && l[id].status.Paid?
    requires forall k | 0 <= k < |book.audit| :: book.audit[k].day <= today
    ensures OkAt(Remember(book, l[id].customer, PaymentNote(today, id)), l, other)
  {
    var c, n := l[id].customer, PaymentNote(today, id);
    RememberAdds(book, c, n);
    if other in l {
      var f, cs, h := FactsOf(book, l[other].customer), Contacts(book.audit, other), Humans(book.audit, other);
      if other == id {
        LogDaysBound(book.audit, id, c, today);
        PaymentKeepsOk(f, cs, h, l[id], today);
      } else if l[other].customer == c {
        OthersNoteKeepsOk(f, cs, h, l[other], n);
      }
    }
  }

  /** The payment sweep writes a note only for an invoice the client calls paid. */
  lemma SweepKeepsAllOk(book: Book, l: Ledger, today: int, id: InvoiceId)
    requires WellKeyed(l) && AllOk(book, l) && id in l && l[id].status.Paid?
    requires forall k | 0 <= k < |book.audit| :: book.audit[k].day <= today
    ensures AllOk(Remember(book, l[id].customer, PaymentNote(today, id)), l)
  {
    var b := Remember(book, l[id].customer, PaymentNote(today, id));
    forall other ensures OkAt(b, l, other) {
      assert OkAt(book, l, other);
      SweepKeepsEach(book, l, today, id, other);
    }
    forall other ensures LastAt(b, other) {
      assert LastAt(book, other);
    }
  }

  lemma BlankIsOk(l: Ledger)
    ensures AllOk(BLANK, l)
  {
    forall id ensures OkAt(BLANK, l, id) {
      if id in l {
        NothingYet(l[id]);
      }
    }
  }

  ghost predicate SamePayment(a: Book, b: Book, c: CustomerId, id: InvoiceId) {
    HasPayment(FactsOf(a, c), id) <==> HasPayment(FactsOf(b, c), id)
  }

  /** The two books record the same payments. */
  ghost predicate SamePayments(a: Book, b: Book) {
    forall c, id :: SamePayment(a, b, c, id)
  }

  lemma NotedPayments(f: Facts, inv: Invoice, today: int, rung: Rung, reply: Reply)
    ensures Noted(f, inv, today, rung, reply).payments == f.payments
  {
  }

  lemma VisitKeepsPayments(book: Book, inv: Invoice, today: int, rung: Rung, reply: Reply)
    ensures SamePayments(book, Visited(book, inv, today, rung, reply))
  {
    var b := Visited(book, inv, today, rung, reply);
    forall c, id ensures SamePayment(book, b, c, id) {
      VisitedFacts(book, inv, today, rung, reply, c);
      NotedPayments(FactsOf(book, c), inv, today, rung, reply);
      assert FactsOf(b, c).payments == FactsOf(book, c).payments;
    }
  }

  lemma SamePaymentsCompose(a: Book, b: Book, c: Book)
    requires SamePayments(a, b) && SamePayments(b, c)
    ensures SamePayments(a, c)
  {
    forall d, id ensures SamePayment(a, c, d, id) {
      assert SamePayment(a, b, d, id) && SamePayment(b, c, d, id);
    }
  }

  lemma SamePaymentsAsItself(a: Book)
    ensures SamePayments(a, a)
  {
    forall d, id ensures SamePayment(a, a, d, id) {
    }
  }
}
