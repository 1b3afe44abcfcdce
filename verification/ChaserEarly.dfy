/** When the limit of three contacts in fourteen days holds: exactly for invoices due by the start of the run. */
module ChaserEarly {
  import opened Wrappers
  import opened ChaserPolicy
  import opened ChaserInvoice
  import opened ChaserRun
  import opened ChaserListing
  import opened ChaserLoop
  import opened ChaserStanding
  import opened ChaserDays
  import opened ChaserReport
  import opened ChaserRecorded

  // ---- A day with one invoice on the listing

  function Alone(inv: Invoice): Ledger { map[inv.id := inv] }

  lemma AloneIds(inv: Invoice)
    ensures IdsOf(Alone(inv)) == [inv.id]
  {
    IdsAre(Alone(inv));
    ListingUnique(IdsOf(Alone(inv)), [inv.id]);
  }

  lemma AloneCustomers(inv: Invoice)
    ensures CustomersIn(Alone(inv)) == [inv.customer]
    ensures GroupOf(IdsOf(Alone(inv)), Alone(inv), inv.customer) == [inv.id]
  {
    AloneIds(inv);
    var ids, l := [inv.id], Alone(inv);
    assert ids[..0] == [];
    assert CustomersOf(ids, l) == {} + {inv.customer} == {inv.customer};
    assert GroupOf(ids, l, inv.customer) == [] + [inv.id];
    SortedIdsAre({inv.customer});
    ListingUnique(SortedIds({inv.customer}), [inv.customer]);
  }

  function AloneTurn<C>(client: Client<C>, d: Desk<C>, inv: Invoice, today: int): Sitting<C> {
    Turn(client, Sitting(d.c, d.book, false), inv, FactsOf(d.book, inv.customer), today)
  }

  lemma AloneTurnIs<C>(client: Client<C>, d: Desk<C>, inv: Invoice, today: int, rung: Rung, t: Sitting<C>)
    requires rung == Decide(inv, FactsOf(d.book, inv.customer), today, false).rung &&
             t == AloneTurn(client, d, inv, today)
    ensures IsContact(rung) ==>
      var answer := client.contact(d.c, inv, today);
      t.c == answer.0 && t.book == Visited(d.book, inv, today, rung, answer.1)
    ensures !IsContact(rung) ==> t.c == d.c && t.book == Visited(d.book, inv, today, rung, Silent)
  {
  }

  lemma AloneCall<C>(client: Client<C>, d: Desk<C>, inv: Invoice, today: int)
    ensures Call(client, d, Alone(inv), [inv.id], inv.customer, today) ==
            Desk(AloneTurn(client, d, inv, today).c, AloneTurn(client, d, inv, today).book)
  {
    var s, known := Sitting(d.c, d.book, false), FactsOf(d.book, inv.customer);
    assert [inv.id][..0] == [];
    assert Turns(client, s, Alone(inv), [], known, today) == s;
  }

  lemma AloneChase<C>(client: Client<C>, d: Desk<C>, inv: Invoice, today: int)
    ensures Chased(client, d, Alone(inv), today) ==
            Desk(AloneTurn(client, d, inv, today).c, AloneTurn(client, d, inv, today).book)
  {
    AloneIds(inv);
    AloneCustomers(inv);
    AloneCall(client, d, inv, today);
    var customers := [inv.customer];
    assert customers[..0] == [];
    assert Round(client, d, Alone(inv), [inv.id], [], today) == d;
  }

  lemma {:induction false} NothingSwept(s: Sweep, l: Ledger, ids: seq<InvoiceId>, today: int)
    requires forall id | id in l :: l[id].status.Open?
    ensures Swept(s, l, ids, today) == s
  {
    if ids != [] {
      NothingSwept(s, l, ids[..|ids| - 1], today);
    }
  }

  /** The day of an invoice that stays open is its turn. */
  lemma AloneDay<C>(client: Client<C>, s: Tally<C>, inv: Invoice, today: int, first: bool, d: Desk<C>, t: Sitting<C>)
    requires inv.status.Open? && d == Desk(client.resolve(s.c, today), s.book) && t == AloneTurn(client, d, inv, today)
    requires client.ledger(d.c) == Alone(inv) && client.ledger(t.c) == Alone(inv)
    ensures AfterDay(client, s, today, first).c == t.c && AfterDay(client, s, today, first).book == t.book
  {
    AloneChase(client, d, inv, today);
    NothingSwept(Sweep(t.book, Begun(s, Alone(inv), first).paid), Alone(inv), IdsOf(Alone(inv)), today);
  }

  // ---- Answered with neither date nor dispute

  lemma {:induction false} WindowAtMostAll(s: seq<Dated>, id: InvoiceId, today: int)
    ensures InWindow(s, id, today) <= |s|
  {
    if s != [] {
      WindowAtMostAll(s[..|s| - 1], id, today);
    }
  }

  /** Facts in which only contacts of an invoice due `early` days after the start have been read back, `n` days on. */
  predicate OnlyLateContacts(f: Facts, start: int, early: nat, n: nat) {
    && f == NOTHING.(contacts := f.contacts)
    && |f.contacts| <= (if n <= early then 0 else n - early)
    && forall k | 0 <= k < |f.contacts| :: f.contacts[k].day < start + n
  }

  lemma GentleAgain(inv: Invoice, f: Facts, start: int, n: nat)
    requires inv.status.Open? && inv.due > start && n < inv.due - start + 3 &&
             OnlyLateContacts(f, start, inv.due - start, n)
    ensures Decide(inv, f, start + n, false) == Action(Gentle, false)
  {
    WindowAtMostAll(f.contacts, inv.id, start + n);
  }

  lemma NotedGentle(inv: Invoice, f: Facts, start: int, n: nat)
    requires inv.due > start && OnlyLateContacts(f, start, inv.due - start, n)
    ensures OnlyLateContacts(Noted(f, inv, start + n, Gentle, Other), start, inv.due - start, n + 1)
  {
  }

  lemma VisitGentlyFacts(book: Book, inv: Invoice, start: int, n: nat, rung: Rung, reply: Reply, book': Book)
    requires inv.due > start && OnlyLateContacts(FactsOf(book, inv.customer), start, inv.due - start, n)
    requires rung == Gentle && reply == Other && book' == Visited(book, inv, start + n, rung, reply)
    ensures OnlyLateContacts(FactsOf(book', inv.customer), start, inv.due - start, n + 1)
  {
    VisitedFacts(book, inv, start + n, rung, reply, inv.customer);
    NotedGentle(inv, FactsOf(book, inv.customer), start, n);
  }

  lemma VisitGentlyContacts(book: Book, inv: Invoice, today: int, rung: Rung, reply: Reply, book': Book)
    requires rung == Gentle && book' == Visited(book, inv, today, rung, reply)
    ensures Contacts(book'.audit, inv.id) == Contacts(book.audit, inv.id) + [Contact(today, rung)]
  {
    VisitedAudit(book, inv, today, rung, reply, inv.id, inv.customer);
  }

  function EveryDay(start: int, n: nat): seq<Contact> {
    seq(n, k requires 0 <= k < n => Contact(start + k, Gentle))
  }

  /** A client whose listing never changes, and whose customers answer with neither a date nor a dispute. */
  function Undecided(): Client<Ledger> {
    Client((l: Ledger) => l, (l: Ledger, day) => l, (l: Ledger, inv, day) => (l, Other))
  }

  lemma UndecidedIsHonest()
    ensures Honest(Undecided())
  {
  }

  /**
   * Contacted every day before `today`, with only the notes from the due date on read back; up to
   * two days after it.
   */
  predicate ContactedDaily(book: Book, inv: Invoice, start: int, today: int) {
    start <= today <= inv.due + 3 ==>
      && start < inv.due && Contacts(book.audit, inv.id) == EveryDay(start, today - start)
      && OnlyLateContacts(FactsOf(book, inv.customer), start, inv.due - start, today - start)
  }

  ghost predicate Nagging(inv: Invoice, start: int, s: Tally<Ledger>, today: int, first: bool) {
    start <= today && s.c == Alone(inv) && ContactedDaily(s.book, inv, start, today)
  }

  ghost function NaggingDaily(inv: Invoice, start: int): (Tally<Ledger>, int, bool) -> bool {
    (s, today, first) => Nagging(inv, start, s, today, first)
  }

  lemma OneMoreDay(book: Book, inv: Invoice, start: int, today: int)
    requires start <= today < inv.due + 3 && start < inv.due
    requires Contacts(book.audit, inv.id) == EveryDay(start, today - start) + [Contact(today, Gentle)]
    requires OnlyLateContacts(FactsOf(book, inv.customer), start, inv.due - start, today - start + 1)
    ensures ContactedDaily(book, inv, start, today + 1)
  {
    var n := today - start;
    assert EveryDay(start, n + 1) == EveryDay(start, n) + [Contact(today, Gentle)];
  }

  lemma TurnNags(book: Book, inv: Invoice, start: int, today: int, t: Sitting<Ledger>)
    requires inv.status.Open? && start <= today && ContactedDaily(book, inv, start, today)
    requires t == AloneTurn(Undecided(), Desk(Alone(inv), book), inv, today)
    ensures t.c == Alone(inv) && ContactedDaily(t.book, inv, start, today + 1)
  {
    if today < inv.due + 3 {
      var n := today - start;
      GentleAgain(inv, FactsOf(book, inv.customer), start, n);
      VisitGentlyFacts(book, inv, start, n, Gentle, Other, t.book);
      VisitGentlyContacts(book, inv, today, Gentle, Other, t.book);
      OneMoreDay(t.book, inv, start, today);
    }
  }

  lemma DayNags(inv: Invoice, start: int, s: Tally<Ledger>, today: int, first: bool)
    requires inv.status.Open? && Nagging(inv, start, s, today, first)
    ensures Nagging(inv, start, AfterDay(Undecided(), s, today, first), today + 1, false)
  {
    var d := Desk(Alone(inv), s.book);
    var t := AloneTurn(Undecided(), d, inv, today);
    TurnNags(s.book, inv, start, today, t);
    AloneDay(Undecided(), s, inv, today, first, d, t);
  }

  /**
   * The notes of contacts before the due date are not read back, so nothing counts them: such an
   * invoice is contacted on every day from the start of the run to two days after it is due.
   */
  lemma EarlyInvoiceIsContactedDaily(inv: Invoice, start: int, n: nat)
    requires inv.status.Open? && inv.due > start && n <= inv.due - start + 3
    ensures Honest(Undecided())
    ensures Contacts(AfterDays(Undecided(), Alone(inv), start, n).book.audit, inv.id) == EveryDay(start, n)
  {
    UndecidedIsHonest();
    var keeps := NaggingDaily(inv, start);
    forall s, today, first ensures DayKeeps(Daily(Undecided()), keeps, s, today, first) {
      if Nagging(inv, start, s, today, first) {
        DayNags(inv, start, s, today, first);
      }
    }
    assert ContactedDaily(BLANK, inv, start, start);
    KeptEveryDay(Unstarted(Alone(inv)), Daily(Undecided()), keeps, start, n);
    assert keeps(AfterDays(Undecided(), Alone(inv), start, n), start + n, n == 0);
  }

  // ---- Answered with a promise that is missed

  function Missing(inv: Invoice): map<CustomerId, Behavior> {
    map[inv.customer := PromiseThenMiss]
  }

  /** The recorded world before day `start + k`: the promise is pending until its date. */
  function MissWorld(inv: Invoice, start: int, k: nat): World {
    World(Missing(inv), Alone(inv), if 1 <= k <= 5 then map[inv.id := Pending(start + 5, false)] else map[],
          if k == 0 then {} else {inv.id})
  }

  /** Contacted on the first day, and, the promise broken, on the seventh, eighth and ninth. */
  function MissContacts(start: int, k: nat): seq<Contact> {
    if k == 0 then []
    else [Contact(start, Gentle)] + seq(Broken(k), i requires 0 <= i < Broken(k) => Contact(start + 6 + i, Firm))
  }

  function Broken(k: nat): nat { if k <= 6 then 0 else k - 6 }

  predicate MissFacts(f: Facts, inv: Invoice, start: int, k: nat) {
    && f.promises == (if k == 0 then [] else [Pledge(start, inv.id, start + 5)])
    && f.disputes == [] && f.payments == [] && f.escalations == []
    && CountOf(f.unanswered, inv.id) == Broken(k) && |f.contacts| <= Broken(k)
    && forall j | 0 <= j < |f.contacts| :: f.contacts[j].day < start + k
  }

  predicate MissBook(book: Book, inv: Invoice, start: int, k: nat) {
    Contacts(book.audit, inv.id) == MissContacts(start, k) && MissFacts(FactsOf(book, inv.customer), inv, start, k)
  }

  function MissRung(k: nat): Rung {
    if k == 0 then Gentle else if k <= 5 then SkipPromise else Firm
  }

  function MissReply(start: int, k: nat): Reply {
    if k == 0 then Promising(start + 5) else Silent
  }

  lemma MissDecides(f: Facts, inv: Invoice, start: int, k: nat)
    requires inv.status.Open? && inv.due > start && k <= 8 && MissFacts(f, inv, start, k)
    ensures Decide(inv, f, start + k, false).rung == MissRung(k)
  {
    WindowAtMostAll(f.contacts, inv.id, start + k);
    if k > 0 {
      assert f.promises[..0] == [];
      assert Latest(f.promises, inv.id) == Some(Pledge(start, inv.id, start + 5));
    }
  }

  lemma MissNotedFirst(f: Facts, inv: Invoice, start: int)
    requires inv.due > start && MissFacts(f, inv, start, 0)
    ensures MissFacts(AfterContact(f, inv, start, Gentle, Promising(start + 5)), inv, start, 1)
  {
  }

  lemma MissNotedBroken(f: Facts, inv: Invoice, start: int, k: nat, today: int)
    requires 6 <= k <= 8 && today == start + k && MissFacts(f, inv, start, k)
    ensures MissFacts(AfterContact(f, inv, today, Firm, Silent), inv, start, k + 1)
  {
    AppendsUnfold(f.unanswered, Dated(today, inv.id), inv.id);
  }

  lemma MissNoted(f: Facts, inv: Invoice, start: int, k: nat, today: int, rung: Rung, reply: Reply)
    requires inv.due > start && k <= 8 && today == start + k && MissFacts(f, inv, start, k)
    requires rung == MissRung(k) && (IsContact(rung) ==> reply == MissReply(start, k))
    ensures MissFacts(Noted(f, inv, today, rung, reply), inv, start, k + 1)
  {
    if k == 0 {
      MissNotedFirst(f, inv, start);
    } else if k >= 6 {
      MissNotedBroken(f, inv, start, k, today);
    }
  }

  lemma MissContactsGrow(start: int, k: nat, today: int, rung: Rung)
    requires k <= 8 && today == start + k && rung == MissRung(k)
    ensures MissContacts(start, k + 1) ==
            if IsContact(rung) then MissContacts(start, k) + [Contact(today, rung)] else MissContacts(start, k)
  {
  }

  lemma MissResolves(inv: Invoice, start: int, k: nat)
    requires k <= 8
    ensures var w := Resolved(MissWorld(inv, start, k), start + k);
      w == MissWorld(inv, start, k).(pending := if k == 5 then map[] else MissWorld(inv, start, k).pending)
  {
    var w := MissWorld(inv, start, k);
    var due := SortedIds(DueBy(w, start + k));
    SortedIdsAre(DueBy(w, start + k));
    assert inv.id in due <==> k == 5;
    assert Resolved(w, start + k).invoices == Alone(inv);
    assert Resolved(w, start + k).pending == if k == 5 then map[] else w.pending;
  }

  lemma MissAnswers(inv: Invoice, start: int, k: nat, w: World)
    requires k <= 8 &&
             w == MissWorld(inv, start, k).(pending := if k == 5 then map[] else MissWorld(inv, start, k).pending)
    ensures IsContact(MissRung(k)) ==>
              Answered(w, inv, start + k) == (MissWorld(inv, start, k + 1), MissReply(start, k))
    ensures !IsContact(MissRung(k)) ==> w == MissWorld(inv, start, k + 1)
  {
    assert BehaviorOf(w, inv.customer) == PromiseThenMiss;
    if k == 0 {
      assert w.replied + {inv.id} == {inv.id};
      assert w.pending[inv.id := Pending(start + 5, false)] == map[inv.id := Pending(start + 5, false)];
      assert start + k + 5 == start + 5;
    }
  }

  ghost predicate MissedAt(inv: Invoice, start: int, s: Tally<World>, k: nat) {
    s.c == MissWorld(inv, start, k) && MissBook(s.book, inv, start, k)
  }

  ghost predicate MissedBy(inv: Invoice, start: int, s: Tally<World>, today: int, first: bool) {
    start <= today && (today <= start + 9 ==> MissedAt(inv, start, s, today - start))
  }

  ghost function MissedDaily(inv: Invoice, start: int): (Tally<World>, int, bool) -> bool {
    (s, today, first) => MissedBy(inv, start, s, today, first)
  }

  lemma MissTurnIs(book: Book, inv: Invoice, start: int, k: nat, today: int, rung: Rung, reply: Reply, d: Desk<World>,
                   t: Sitting<World>)
    requires inv.status.Open? && inv.due > start && k <= 8 && today == start + k && MissBook(book, inv, start, k)
    requires d == Desk(Resolved(MissWorld(inv, start, k), today), book) && t == AloneTurn(Recorded(), d, inv, today)
    requires rung == MissRung(k) && reply == if IsContact(rung) then MissReply(start, k) else Silent
    ensures t.c == MissWorld(inv, start, k + 1) && t.book == Visited(book, inv, today, rung, reply) &&
            d.c.invoices == Alone(inv)
  {
    MissResolves(inv, start, k);
    MissAnswers(inv, start, k, d.c);
    MissDecides(FactsOf(book, inv.customer), inv, start, k);
    AloneTurnIs(Recorded(), d, inv, today, rung, t);
  }

  lemma MissVisited(book: Book, inv: Invoice, start: int, k: nat, today: int, rung: Rung, reply: Reply, book': Book)
    requires inv.due > start && k <= 8 && today == start + k && MissBook(book, inv, start, k)
    requires rung == MissRung(k) && reply == if IsContact(rung) then MissReply(start, k) else Silent
    requires book' == Visited(book, inv, today, rung, reply)
    ensures MissBook(book', inv, start, k + 1)
  {
    VisitLeaves(book, inv, today, rung, reply, book');
    MissNoted(FactsOf(book, inv.customer), inv, start, k, today, rung, reply);
    MissContactsGrow(start, k, today, rung);
  }

  lemma MissNext(inv: Invoice, start: int, k: nat, s: Tally<World>, today: int, first: bool) returns (s': Tally<World>)
    requires inv.status.Open? && inv.due > start && k <= 8 && today == start + k && MissedAt(inv, start, s, k)
    ensures s' == Daily(Recorded())(s, today, first) && MissedAt(inv, start, s', k + 1)
  {
    var d := Desk(Resolved(s.c, today), s.book);
    var t := AloneTurn(Recorded(), d, inv, today);
    var rung := MissRung(k);
    var reply := if IsContact(rung) then MissReply(start, k) else Silent;
    MissTurnIs(s.book, inv, start, k, today, rung, reply, d, t);
    MissVisited(s.book, inv, start, k, today, rung, reply, t.book);
    AloneDay(Recorded(), s, inv, today, first, d, t);
    s' := AfterDay(Recorded(), s, today, first);
  }

  lemma MissedOneMore(inv: Invoice, start: int, k: nat, s: Tally<World>, today: int)
    requires today == start + k && MissedAt(inv, start, s, k + 1)
    ensures MissedBy(inv, start, s, today + 1, false)
  {
  }

  lemma MissedOver(inv: Invoice, start: int, s: Tally<World>, today: int)
    requires today >= start + 9
    ensures MissedBy(inv, start, s, today + 1, false)
  {
  }

  lemma MissDay(inv: Invoice, start: int, k: nat, s: Tally<World>, today: int, first: bool) returns (s': Tally<World>)
    requires inv.status.Open? && inv.due > start && today == start + k && MissedBy(inv, start, s, today, first)
    ensures s' == Daily(Recorded())(s, today, first) && MissedBy(inv, start, s', today + 1, false)
  {
    if k < 9 {
      s' := MissNext(inv, start, k, s, today, first);
      MissedOneMore(inv, start, k, s', today);
    } else {
      s' := Daily(Recorded())(s, today, first);
      MissedOver(inv, start, s', today);
    }
  }

  /**
   * A customer who promises and misses: four contacts about an early invoice in the first nine days
   * of a recorded run.
   */
  lemma MissedPromiseIsChasedFourTimes(inv: Invoice, start: int, n: nat)
    requires inv.status.Open? && inv.due > start && n <= 9
    ensures Contacts(RecordedRun(Missing(inv), Alone(inv), start, n).book.audit, inv.id) == MissContacts(start, n)
  {
    var keeps := MissedDaily(inv, start);
    forall s, today, first ensures DayKeeps(Daily(Recorded()), keeps, s, today, first) {
      if MissedBy(inv, start, s, today, first) {
        var next := MissDay(inv, start, today - start, s, today, first);
      }
    }
    var w := World(Missing(inv), Alone(inv), map[], {});
    assert w == MissWorld(inv, start, 0) && MissBook(BLANK, inv, start, 0);
    KeptEveryDay(Unstarted(w), Daily(Recorded()), keeps, start, n);
    assert keeps(AfterDays(Recorded(), w, start, n), start + n, n == 0);
  }

  // ---- The exact condition

  ghost predicate WithinLimit(inv: Invoice, start: int, behaviors: map<CustomerId, Behavior>, invoices: Ledger, n: nat,
                              w: int)
  {
    WellKeyed(invoices) && inv.id in invoices && invoices[inv.id] == inv ==>
      CountIn(Days(Contacts(RecordedRun(behaviors, invoices, start, n).book.audit, inv.id)), w) <= 3
  }

  /** Whatever else is listed, however customers behave, and however long the run. */
  ghost predicate AlwaysWithinLimit(inv: Invoice, start: int) {
    forall behaviors, invoices, n: nat, w :: WithinLimit(inv, start, behaviors, invoices, n, w)
  }

  lemma DueInvoiceIsPaced(inv: Invoice, start: int, behaviors: map<CustomerId, Behavior>, invoices: Ledger, n: nat,
                          w: int)
    requires inv.due <= start
    ensures WithinLimit(inv, start, behaviors, invoices, n, w)
  {
    if WellKeyed(invoices) && inv.id in invoices && invoices[inv.id] == inv && n > 0 {
      var s := RecordedRun(behaviors, invoices, start, n);
      RecordedIsHonest();
      RecordedRunSettles(behaviors, invoices, start, n);
      assert MovesOn(inv, s.final[inv.id]);
      RunKeepsContactLimits(Recorded(), World(behaviors, invoices, map[], {}), start, 0, n, inv.id, w);
    }
  }

  lemma MissCounts(start: int, n: nat)
    requires n == 9
    ensures CountIn(Days(MissContacts(start, n)), start + 8) == 4
  {
    assert Days(MissContacts(start, n)) == [start, start + 6, start + 7, start + 8];
    CountFour(start, start + 6, start + 7, start + 8, start + 8);
  }

  lemma FourthContact(inv: Invoice, start: int, n: nat, w: int)
    requires inv.status.Open? && inv.due > start && n <= 9 && CountIn(Days(MissContacts(start, n)), w) > 3
    ensures !WithinLimit(inv, start, Missing(inv), Alone(inv), n, w)
  {
    MissedPromiseIsChasedFourTimes(inv, start, n);
  }

  lemma CountFour(a: int, b: int, c: int, d: int, w: int)
    requires a <= w < a + 14 && b <= w < b + 14 && c <= w < c + 14 && d <= w < d + 14
    ensures CountIn([a, b, c, d], w) == 4
  {
    assert [a, b, c, d] == [] + [a] + [b] + [c] + [d];
    CountAppends([], a, w);
    CountAppends([] + [a], b, w);
    CountAppends([] + [a] + [b], c, w);
    CountAppends([] + [a] + [b] + [c], d, w);
  }

  /**
   * In every recorded run at most three contacts in any fourteen days: exactly for an open invoice
   * due by the start.
   */
  lemma ContactLimitHoldsIff(inv: Invoice, start: int)
    requires inv.status.Open?
    ensures AlwaysWithinLimit(inv, start) <==> inv.due <= start
  {
    if inv.due <= start {
      forall behaviors, invoices, n: nat, w ensures WithinLimit(inv, start, behaviors, invoices, n, w) {
        DueInvoiceIsPaced(inv, start, behaviors, invoices, n, w);
      }
    } else {
      var n: nat :| n == 9;
      MissCounts(start, n);
      FourthContact(inv, start, n, start + 8);
    }
  }
}
