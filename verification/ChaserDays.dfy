/** Whole runs of the chase loop: how things stand at the end of every day. */
module ChaserDays {
  import opened Wrappers
  import opened ChaserPolicy
  import opened ChaserInvoice
  import opened ChaserRun
  import opened ChaserListing
  import opened ChaserLoop
  import opened ChaserStanding

  // ---- Payments noted

  predicate PaidFirst(initial: Ledger, id: InvoiceId) {
    id in initial && initial[id].status.Paid?
  }

  ghost predicate NotedAt(book: Book, l: Ledger, initial: Ledger, recorded: set<InvoiceId>, id: InvoiceId) {
    && (id in recorded ==> id in l)
    && (id in l ==>
          && (id in recorded <==> PaidFirst(initial, id) || HasPayment(FactsOf(book, l[id].customer), id))
          && (PaidFirst(initial, id) ==> !HasPayment(FactsOf(book, l[id].customer), id)))
  }

  /** A payment is noted exactly for the invoices recorded as paid and not paid on the first listing. */
  ghost predicate PaymentsNoted(book: Book, l: Ledger, initial: Ledger, recorded: set<InvoiceId>) {
    forall id :: NotedAt(book, l, initial, recorded, id)
  }

  lemma NotePayment(book: Book, l: Ledger, initial: Ledger, recorded: set<InvoiceId>, id: InvoiceId, today: int)
    requires PaymentsNoted(book, l, initial, recorded) && id in l && id !in recorded
    ensures PaymentsNoted(Remember(book, l[id].customer, PaymentNote(today, id)), l, initial, recorded + {id})
  {
    var c, n := l[id].customer, PaymentNote(today, id);
    var b := Remember(book, c, n);
    RememberAdds(book, c, n);
    assert NotedAt(book, l, initial, recorded, id);
    forall other ensures NotedAt(b, l, initial, recorded + {id}, other) {
      assert NotedAt(book, l, initial, recorded, other);
      if other in l && l[other].customer == c {
        MentionsAppend(FactsOf(book, c).payments, Dated(today, id), other);
      }
    }
  }

  lemma NothingNoted(l: Ledger)
    ensures PaymentsNoted(BLANK, l, l, PaidIn(l))
  {
    forall id ensures NotedAt(BLANK, l, l, PaidIn(l), id) {
    }
  }

  lemma {:induction false} NoPaymentAbout(notes: seq<Note>, id: InvoiceId)
    requires forall n | n in notes :: n.invoice != id
    ensures !HasPayment(Parsed(notes), id)
  {
    if notes != [] {
      var front, last := notes[..|notes| - 1], notes[|notes| - 1];
      NoPaymentAbout(front, id);
      if last.PaymentNote? {
        MentionsAppend(Parsed(front).payments, Dated(last.day, last.invoice), id);
      }
    }
  }

  /** Neither the listing moving on nor a day's chase changes what is noted as paid. */
  lemma PaymentsNotedMoves(a: Book, b: Book, l: Ledger, l': Ledger, initial: Ledger, recorded: set<InvoiceId>)
    requires Moves(initial, l) && Moves(l, l') && SamePayments(a, b) && OnlyAbout(b, l.Keys) &&
             PaymentsNoted(a, l, initial, recorded)
    ensures PaymentsNoted(b, l', initial, recorded)
  {
    forall id ensures NotedAt(b, l', initial, recorded, id) {
      assert NotedAt(a, l, initial, recorded, id);
      if id in l {
        assert SamePayment(a, b, l[id].customer, id) && MovesOn(l[id], l'[id]);
      } else if id in l' {
        NoPaymentAbout(Notes(b, l'[id].customer), id);
      }
    }
  }

  // ---- The sweep

  ghost predicate Sweeping(s: Sweep, l: Ledger, initial: Ledger) {
    && AllOk(s.book, l) && OnlyAbout(s.book, l.Keys) && PaymentsNoted(s.book, l, initial, s.recorded)
    && (forall id | id in s.recorded :: id in l && l[id].status.Paid?)
  }

  lemma SweepOne(s: Sweep, l: Ledger, initial: Ledger, today: int, id: InvoiceId)
    requires Sweeping(s, l, initial) && WellKeyed(l) && id in l && id !in s.recorded && l[id].status.Paid?
    requires forall k | 0 <= k < |s.book.audit| :: s.book.audit[k].day <= today
    ensures Sweeping(Sweep(Remember(s.book, l[id].customer, PaymentNote(today, id)), s.recorded + {id}), l, initial)
  {
    SweepKeepsAllOk(s.book, l, today, id);
    RememberKeepsAbout(s.book, l[id].customer, PaymentNote(today, id), l.Keys);
    NotePayment(s.book, l, initial, s.recorded, id, today);
  }

  lemma {:induction false} SweptKeeps(s: Sweep, l: Ledger, initial: Ledger, ids: seq<InvoiceId>, today: int)
    requires Sweeping(s, l, initial) && WellKeyed(l) &&
             forall k | 0 <= k < |s.book.audit| :: s.book.audit[k].day <= today
    ensures Sweeping(Swept(s, l, ids, today), l, initial)
    ensures s.recorded <= Swept(s, l, ids, today).recorded
    ensures forall id | id in ids && id in l && l[id].status.Paid? :: id in Swept(s, l, ids, today).recorded
  {
    if ids != [] {
      var front, id := ids[..|ids| - 1], ids[|ids| - 1];
      SweptKeeps(s, l, initial, front, today);
      SweptRungs(s, l, front, today);
      var before := Swept(s, l, front, today);
      if id in l && l[id].status.Paid? && id !in before.recorded {
        SweepOne(before, l, initial, today, id);
      }
      assert forall other :: other in ids <==> other in front || other == id;
    }
  }

  // ---- How things stand

  predicate Within(audit: seq<AuditEntry>, start: int, end: int) {
    forall k | 0 <= k < |audit| :: start <= audit[k].day < end
  }

  /** An invoice that was paid on the first listing is never contacted. */
  ghost predicate PaidSpared(book: Book, initial: Ledger) {
    forall id | id in book.lastRung :: !PaidFirst(initial, id)
  }

  /** The book against a listing `l`, before day `end`. */
  ghost predicate InOrder(book: Book, l: Ledger, initial: Ledger, recorded: set<InvoiceId>, start: int, end: int) {
    && WellKeyed(l) && Moves(initial, l) && AllOk(book, l) && OnlyAbout(book, l.Keys)
    && PaymentsNoted(book, l, initial, recorded) && (forall id | id in recorded :: id in l && l[id].status.Paid?)
    && Within(book.audit, start, end) && PaidSpared(book, initial)
  }

  /** At the end of a day, before day `end`: all that is paid is recorded. */
  ghost predicate Standing<C>(client: Client<C>, s: Tally<C>, start: int, end: int) {
    && s.final == client.ledger(s.c) && InOrder(s.book, s.final, s.initial, s.paid, start, end)
    && (forall id | id in s.final && s.final[id].status.Paid? :: id in s.paid)
  }

  lemma OrderMoves(book: Book, l: Ledger, l': Ledger, initial: Ledger, recorded: set<InvoiceId>, start: int, end: int)
    requires InOrder(book, l, initial, recorded, start, end) && Moves(l, l')
    ensures InOrder(book, l', initial, recorded, start, end)
  {
    MovesCompose(initial, l, l');
    MovesKeepKeys(l, l');
    MovesKeepAllOk(book, l, l');
    SamePaymentsAsItself(book);
    PaymentsNotedMoves(book, book, l, l', initial, recorded);
    forall id | id in recorded ensures id in l' && l'[id].status.Paid? {
      assert MovesOn(l[id], l'[id]);
    }
  }

  lemma FirstMorning(l: Ledger, start: int)
    requires WellKeyed(l)
    ensures InOrder(BLANK, l, l, PaidIn(l), start, start)
  {
    MovesToItself(l);
    BlankIsOk(l);
    NothingNoted(l);
  }

  lemma SparedAlong(a: Book, b: Book, snap: Ledger, initial: Ledger)
    requires PaidSpared(a, initial) && PicksOpen(a, b, snap) && Moves(initial, snap)
    ensures PaidSpared(b, initial)
  {
    forall id | id in b.lastRung ensures !PaidFirst(initial, id) {
      if id in initial {
        assert MovesOn(initial[id], snap[id]);
      }
    }
  }

  /** A day's chase keeps the book in order against the day's listing. */
  lemma ChaseKeepsOrder<C(!new)>(client: Client<C>, d: Desk<C>, snap: Ledger, initial: Ledger, recorded: set<InvoiceId>,
                                 start: int, today: int)
    requires InOrder(d.book, snap, initial, recorded, start, today) && start <= today
    ensures InOrder(Chased(client, d, snap, today).book, snap, initial, recorded, start, today + 1)
  {
    var b := Chased(client, d, snap, today).book;
    ChaseKeepsAllOk(client, d, snap, today);
    ChaseGoesAlong(client, d, snap, today);
    MovesToItself(snap);
    PaymentsNotedMoves(d.book, b, snap, snap, initial, recorded);
    SparedAlong(d.book, b, snap, initial);
  }

  lemma SweepKeepsOrder(book: Book, l: Ledger, initial: Ledger, recorded: set<InvoiceId>, start: int, today: int)
    requires InOrder(book, l, initial, recorded, start, today + 1)
    ensures var swept := Swept(Sweep(book, recorded), l, IdsOf(l), today);
      && InOrder(swept.book, l, initial, swept.recorded, start, today + 1)
      && (forall id | id in l && l[id].status.Paid? :: id in swept.recorded)
  {
    IdsAre(l);
    SweptKeeps(Sweep(book, recorded), l, initial, IdsOf(l), today);
    SweptRungs(Sweep(book, recorded), l, IdsOf(l), today);
  }

  lemma DayStands<C(!new)>(client: Client<C>, s: Tally<C>, start: int, today: int, first: bool)
    requires Honest(client) && start <= today
    requires var snap := client.ledger(client.resolve(s.c, today));
      InOrder(s.book, snap, Begun(s, snap, first).initial, Begun(s, snap, first).paid, start, today)
    ensures Standing(client, AfterDay(client, s, today, first), start, today + 1)
  {
    var c := client.resolve(s.c, today);
    var snap := client.ledger(c);
    var begun := Begun(s, snap, first);
    var d := Desk(c, s.book);
    var d' := Chased(client, d, snap, today);
    var now := client.ledger(d'.c);
    ChaseKeepsOrder(client, d, snap, begun.initial, begun.paid, start, today);
    ChaseMoves(client, d, snap, today);
    OrderMoves(d'.book, snap, now, begun.initial, begun.paid, start, today + 1);
    SweepKeepsOrder(d'.book, now, begun.initial, begun.paid, start, today);
  }

  /** Before day `today` of a run from `c0`. */
  ghost predicate Before<C>(client: Client<C>, c0: C, start: int, s: Tally<C>, today: int, first: bool) {
    && start <= today && WellKeyed(client.ledger(c0))
    && (if first then s == Unstarted(c0) && today == start else Standing(client, s, start, today))
  }

  ghost function BeforeDaily<C>(client: Client<C>, c0: C, start: int): (Tally<C>, int, bool) -> bool {
    (s, today, first) => Before(client, c0, start, s, today, first)
  }

  lemma NextDay<C(!new)>(client: Client<C>, c0: C, start: int, s: Tally<C>, today: int, first: bool)
    requires Honest(client) && Before(client, c0, start, s, today, first)
    ensures Before(client, c0, start, AfterDay(client, s, today, first), today + 1, false)
  {
    var snap := client.ledger(client.resolve(s.c, today));
    assert Moves(client.ledger(s.c), snap);
    if first {
      MovesKeepKeys(client.ledger(c0), snap);
      FirstMorning(snap, start);
    } else {
      OrderMoves(s.book, s.final, snap, s.initial, s.paid, start, today);
    }
    DayStands(client, s, start, today, first);
  }

  /** However many days pass and whatever the client answers, the last of them leaves everything in order. */
  lemma RunStands<C(!new)>(client: Client<C>, c0: C, start: int, n: nat)
    requires Honest(client) && WellKeyed(client.ledger(c0)) && n > 0
    ensures Standing(client, AfterDays(client, c0, start, n), start, start + n)
  {
    forall s, today, first ensures DayKeeps(Daily(client), BeforeDaily(client, c0, start), s, today, first) {
      if Before(client, c0, start, s, today, first) {
        NextDay(client, c0, start, s, today, first);
      }
    }
    KeptEveryDay(Unstarted(c0), Daily(client), BeforeDaily(client, c0, start), start, n);
    assert BeforeDaily(client, c0, start)(AfterDays(client, c0, start, n), start + n, n == 0);
  }

  ghost predicate Lists<C>(client: Client<C>, c0: C, start: int, s: Tally<C>, today: int, first: bool) {
    if first then s == Unstarted(c0) && today == start else s.initial == client.ledger(client.resolve(c0, start))
  }

  ghost function ListsDaily<C>(client: Client<C>, c0: C, start: int): (Tally<C>, int, bool) -> bool {
    (s, today, first) => Lists(client, c0, start, s, today, first)
  }

  lemma DayLists<C(!new)>(client: Client<C>, c0: C, start: int, s: Tally<C>, today: int, first: bool)
    requires Lists(client, c0, start, s, today, first)
    ensures Lists(client, c0, start, AfterDay(client, s, today, first), today + 1, false)
  {
  }

  /** The first listing is the one of the first day. */
  lemma FirstListing<C(!new)>(client: Client<C>, c0: C, start: int, n: nat)
    requires n > 0
    ensures AfterDays(client, c0, start, n).initial == client.ledger(client.resolve(c0, start))
  {
    var keeps := ListsDaily(client, c0, start);
    forall s, today, first ensures DayKeeps(Daily(client), keeps, s, today, first) {
      if Lists(client, c0, start, s, today, first) {
        DayLists(client, c0, start, s, today, first);
      }
    }
    KeptEveryDay(Unstarted(c0), Daily(client), keeps, start, n);
    assert keeps(AfterDays(client, c0, start, n), start + n, n == 0);
  }

  // ---- Contacts come after an invoice is first listed

  ghost predicate ContactedFrom(book: Book, id: InvoiceId, from: int) {
    forall j | 0 <= j < |Contacts(book.audit, id)| :: Contacts(book.audit, id)[j].day >= from
  }

  ghost function FromDay<C>(id: InvoiceId, from: int): (C, Book) -> bool {
    (c, book) => ContactedFrom(book, id, from)
  }

  lemma VisitKeepsFrom(book: Book, inv: Invoice, today: int, rung: Rung, reply: Reply, id: InvoiceId, from: int)
    requires ContactedFrom(book, id, from) && from <= today
    ensures ContactedFrom(Visited(book, inv, today, rung, reply), id, from)
  {
    VisitedAudit(book, inv, today, rung, reply, id, inv.customer);
  }

  lemma FromKeptByTurns<C(!new)>(client: Client<C>, snap: Ledger, today: int, id: InvoiceId, from: int)
    requires from <= today
    ensures KeptByTurns(client, snap, today, FromDay(id, from))
  {
    forall s: Sitting<C>, other, known ensures TurnKeeps(client, snap, today, FromDay(id, from), s, other, known) {
      if other in snap && ContactedFrom(s.book, id, from) {
        var rung := Decide(snap[other], known, today, s.contacted).rung;
        var reply := if IsContact(rung) then client.contact(s.c, snap[other], today).1 else Silent;
        VisitKeepsFrom(s.book, snap[other], today, rung, reply, id, from);
      }
    }
  }

  lemma DayKeepsFrom<C(!new)>(client: Client<C>, s: Tally<C>, today: int, first: bool, id: InvoiceId, from: int)
    requires FromThen(s, today, id, from)
    ensures FromThen(AfterDay(client, s, today, first), today + 1, id, from)
  {
    var c := client.resolve(s.c, today);
    var snap := client.ledger(c);
    FromKeptByTurns(client, snap, today, id, from);
    KeptByChase(client, Desk(c, s.book), snap, today, FromDay(id, from));
    var d := Chased(client, Desk(c, s.book), snap, today);
    var now := client.ledger(d.c);
    SweptRungs(Sweep(d.book, Begun(s, snap, first).paid), now, IdsOf(now), today);
  }

  ghost predicate FromThen<C>(s: Tally<C>, today: int, id: InvoiceId, from: int) {
    from <= today && ContactedFrom(s.book, id, from)
  }

  ghost function FromDaily<C>(id: InvoiceId, from: int): (Tally<C>, int, bool) -> bool {
    (s: Tally<C>, today, first) => FromThen(s, today, id, from)
  }

  lemma NoContactYet<C(!new)>(client: Client<C>, c0: C, start: int, k: nat, id: InvoiceId, from: int)
    requires Honest(client) && WellKeyed(client.ledger(c0)) && (k > 0 ==> id !in AfterDays(client, c0, start, k).final)
    ensures ContactedFrom(AfterDays(client, c0, start, k).book, id, from)
  {
    if k > 0 {
      RunStands(client, c0, start, k);
      NoEntries(AfterDays(client, c0, start, k).book.audit, id);
    } else {
      NoEntries(BLANK.audit, id);
    }
  }

  /** An invoice not listed in the first `k` days is not contacted in them. */
  lemma ContactedOnlyOnceListed<C(!new)>(client: Client<C>, c0: C, start: int, k: nat, n: nat, id: InvoiceId)
    requires Honest(client) && WellKeyed(client.ledger(c0)) && k <= n
    requires k > 0 ==> id !in AfterDays(client, c0, start, k).final
    ensures ContactedFrom(AfterDays(client, c0, start, n).book, id, start + k)
  {
    var keeps := FromDaily<C>(id, start + k);
    NoContactYet(client, c0, start, k, id, start + k);
    assert keeps(AfterDays(client, c0, start, k), start + k, k == 0);
    forall s, today, first ensures DayKeeps(Daily(client), keeps, s, today, first) {
      if FromThen(s, today, id, start + k) {
        DayKeepsFrom(client, s, today, first, id, start + k);
      }
    }
    KeptFrom(Unstarted(c0), Daily(client), keeps, start, k, n);
    assert keeps(AfterDays(client, c0, start, n), start + n, n == 0);
  }
}
