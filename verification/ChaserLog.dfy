/** The log of a whole run: one entry a day for every invoice listed that day, and the notes it is backed by. */
module ChaserLog {
  import opened ChaserPolicy
  import opened ChaserInvoice
  import opened ChaserRun
  import opened ChaserListing
  import opened ChaserLoop
  import opened ChaserStanding
  import opened ChaserDays
  import opened ChaserVisits

  predicate On(audit: seq<AuditEntry>, i: nat, day: int) {
    i < |audit| && audit[i].day == day
  }

  predicate ContactedBy(audit: seq<AuditEntry>, i: nat, day: int, c: CustomerId) {
    exists j | 0 <= j < i && j < |audit| :: audit[j].day == day && audit[j].customer == c && IsContact(audit[j].rung)
  }

  /** Entry `i` of `day` is of a listed invoice and says what the table decides on the notes in `book`. */
  predicate EntryGiven(audit: seq<AuditEntry>, i: nat, day: int, snap: Ledger, book: Book)
    requires i < |audit|
  {
    audit[i].invoice in snap &&
    var inv := snap[audit[i].invoice];
    audit[i] == AuditEntry(day, inv.id, inv.customer,
                           Decide(inv, FactsOf(book, inv.customer), day, ContactedBy(audit, i, day, inv.customer)).rung,
                           inv.amount, day - inv.due)
  }

  predicate EntryBefore(a: AuditEntry, b: AuditEntry) {
    a.customer < b.customer || (a.customer == b.customer && a.invoice < b.invoice)
  }

  predicate Logs(audit: seq<AuditEntry>, id: InvoiceId, day: int) {
    exists i | 0 <= i < |audit| :: audit[i].day == day && audit[i].invoice == id
  }

  /** The entries of `day` are those of the listing `snap`, each once, by customer and identifier. */
  ghost predicate DayLogged(audit: seq<AuditEntry>, day: int, snap: Ledger, book: Book) {
    && (forall id :: Logs(audit, id, day) <==> id in snap)
    && (forall i | 0 <= i < |audit| && On(audit, i, day) :: EntryGiven(audit, i, day, snap, book))
    && (forall i, j | 0 <= i < j < |audit| && On(audit, i, day) && On(audit, j, day) ::
          EntryBefore(audit[i], audit[j]))
  }

  /** The entries of `day` are those from `lo` to `hi`. */
  predicate DayAt(audit: seq<AuditEntry>, day: int, lo: nat, hi: nat) {
    lo <= hi <= |audit| && forall i | 0 <= i < |audit| :: audit[i].day == day <==> lo <= i < hi
  }

  // ---- One day's visits as entries

  predicate EntriesAt<C>(audit: seq<AuditEntry>, lo: nat, vs: seq<Visit<C>>, day: int) {
    lo + |vs| <= |audit| && forall k | 0 <= k < |vs| :: audit[lo + k] == EntryOf(vs[k], day)
  }

  lemma SameContacts<C>(audit: seq<AuditEntry>, lo: nat, vs: seq<Visit<C>>, day: int, k: nat, c: CustomerId)
    requires EntriesAt(audit, lo, vs, day) && DayAt(audit, day, lo, lo + |vs|) && k <= |vs|
    ensures ContactedBy(audit, lo + k, day, c) <==> ContactedIn(vs[..k], c)
  {
    if j :| 0 <= j < lo + k && audit[j].day == day && audit[j].customer == c && IsContact(audit[j].rung) {
      var x := j - lo;
      assert audit[lo + x] == EntryOf(vs[x], day) && vs[..k][x] == vs[x];
    }
    if x :| 0 <= x < k && vs[..k][x].inv.customer == c && IsContact(vs[..k][x].rung) {
      assert audit[lo + x] == EntryOf(vs[x], day) && vs[..k][x] == vs[x];
    }
  }

  lemma EntryIsGiven<C>(vs: seq<Visit<C>>, book: Book, snap: Ledger, day: int, audit: seq<AuditEntry>, lo: nat, k: nat)
    requires AllByTheTable(vs, book, snap, day)
    requires EntriesAt(audit, lo, vs, day) && DayAt(audit, day, lo, lo + |vs|) && k < |vs|
    ensures EntryGiven(audit, lo + k, day, snap, book)
  {
    assert audit[lo + k] == EntryOf(vs[k], day);
    assert ByTheTable(vs, k, book, snap, day);
    SameContacts(audit, lo, vs, day, k, vs[k].inv.customer);
  }

  lemma EntriesInTurn<C>(vs: seq<Visit<C>>, day: int, audit: seq<AuditEntry>, lo: nat, i: nat, j: nat)
    requires InTurn(vs) && EntriesAt(audit, lo, vs, day) && lo <= i < j < lo + |vs|
    ensures EntryBefore(audit[i], audit[j])
  {
    var x, y := i - lo, j - lo;
    assert audit[lo + x] == EntryOf(vs[x], day) && audit[lo + y] == EntryOf(vs[y], day);
    assert Precedes(vs[x].inv, vs[y].inv);
  }

  lemma LogsItsVisits<C>(vs: seq<Visit<C>>, day: int, audit: seq<AuditEntry>, lo: nat, id: InvoiceId)
    requires EntriesAt(audit, lo, vs, day) && DayAt(audit, day, lo, lo + |vs|)
    ensures Logs(audit, id, day) <==> Visits(vs, id)
  {
    if i :| 0 <= i < |audit| && audit[i].day == day && audit[i].invoice == id {
      assert audit[lo + (i - lo)] == EntryOf(vs[i - lo], day);
    }
    if k :| 0 <= k < |vs| && vs[k].inv.id == id {
      assert audit[lo + k] == EntryOf(vs[k], day);
    }
  }

  lemma VisitsAreLogged<C(!new)>(client: Client<C>, d: Desk<C>, vs: seq<Visit<C>>, d': Desk<C>, snap: Ledger, day: int,
                                 audit: seq<AuditEntry>, lo: nat)
    requires DayOf(client, d, vs, d', snap, day)
    requires EntriesAt(audit, lo, vs, day) && DayAt(audit, day, lo, lo + |vs|)
    ensures DayLogged(audit, day, snap, d.book)
  {
    forall i | 0 <= i < |audit| && On(audit, i, day) ensures EntryGiven(audit, i, day, snap, d.book) {
      EntryIsGiven(vs, d.book, snap, day, audit, lo, i - lo);
    }
    forall i, j | 0 <= i < j < |audit| && On(audit, i, day) && On(audit, j, day)
      ensures EntryBefore(audit[i], audit[j])
    {
      EntriesInTurn(vs, day, audit, lo, i, j);
    }
    forall id ensures Logs(audit, id, day) <==> id in snap {
      LogsItsVisits(vs, day, audit, lo, id);
    }
  }

  // ---- What later days leave alone

  /** `audit` begins with `past`; the rest is dated from `from` on. */
  predicate GoesOn(past: seq<AuditEntry>, from: int, audit: seq<AuditEntry>) {
    past <= audit && forall i | |past| <= i < |audit| :: audit[i].day >= from
  }

  ghost function GoingOn<C>(past: seq<AuditEntry>, from: int): (C, Book) -> bool {
    (c, book: Book) => GoesOn(past, from, book.audit)
  }

  lemma TurnsGoOn<C(!new)>(client: Client<C>, snap: Ledger, today: int, past: seq<AuditEntry>, from: int)
    requires from <= today
    ensures KeptByTurns(client, snap, today, GoingOn(past, from))
  {
    forall s: Sitting<C>, id, known ensures TurnKeeps(client, snap, today, GoingOn(past, from), s, id, known) {
      if id in snap && GoesOn(past, from, s.book.audit) {
        TurnIsAVisit(client, s, snap[id], known, today);
      }
    }
  }

  ghost predicate WentOn<C>(s: Tally<C>, today: int, past: seq<AuditEntry>, from: int) {
    from <= today && GoesOn(past, from, s.book.audit)
  }

  ghost function WentOnDaily<C>(past: seq<AuditEntry>, from: int): (Tally<C>, int, bool) -> bool {
    (s, today, first) => WentOn(s, today, past, from)
  }

  lemma DayGoesOn<C(!new)>(client: Client<C>, s: Tally<C>, today: int, first: bool, past: seq<AuditEntry>, from: int)
    requires WentOn(s, today, past, from)
    ensures WentOn(AfterDay(client, s, today, first), today + 1, past, from)
  {
    var c := client.resolve(s.c, today);
    var snap := client.ledger(c);
    TurnsGoOn(client, snap, today, past, from);
    KeptByChase(client, Desk(c, s.book), snap, today, GoingOn(past, from));
    var d := Chased(client, Desk(c, s.book), snap, today);
    var now := client.ledger(d.c);
    SweptRungs(Sweep(d.book, Begun(s, snap, first).paid), now, IdsOf(now), today);
  }

  lemma LaterDaysGoOn<C(!new)>(client: Client<C>, c0: C, start: int, k: nat, n: nat)
    requires k <= n
    ensures GoesOn(AfterDays(client, c0, start, k).book.audit, start + k, AfterDays(client, c0, start, n).book.audit)
  {
    var past, from := AfterDays(client, c0, start, k).book.audit, start + k;
    var keeps := WentOnDaily<C>(past, from);
    assert keeps(AfterDays(client, c0, start, k), start + k, k == 0);
    forall s, today, first ensures DayKeeps(Daily(client), keeps, s, today, first) {
      if WentOn(s, today, past, from) {
        DayGoesOn(client, s, today, first, past, from);
      }
    }
    KeptFrom(Unstarted(c0), Daily(client), keeps, start, k, n);
    assert keeps(AfterDays(client, c0, start, n), start + n, n == 0);
  }

  // ---- Whole runs

  /** The listing day `k` of a run begins with. */
  function Morning<C>(client: Client<C>, c0: C, start: int, k: nat): Desk<C> {
    Desk(client.resolve(AfterDays(client, c0, start, k).c, start + k), AfterDays(client, c0, start, k).book)
  }

  function ListedOn<C>(client: Client<C>, c0: C, start: int, k: nat): Ledger {
    client.ledger(Morning(client, c0, start, k).c)
  }

  lemma DayVisits<C(!new)>(client: Client<C>, s: Tally<C>, today: int, first: bool) returns (vs: seq<Visit<C>>)
    requires WellKeyed(client.ledger(client.resolve(s.c, today)))
    ensures var c, s' := client.resolve(s.c, today), AfterDay(client, s, today, first);
      && s'.book.audit == s.book.audit + Entries(vs, today)
      && exists d' :: DayOf(client, Desk(c, s.book), vs, d', client.ledger(c), today)
  {
    var c := client.resolve(s.c, today);
    var snap, d := client.ledger(c), Desk(c, s.book);
    vs := EveryoneListedIsVisited(client, d, snap, today);
    var d' := Chased(client, d, snap, today);
    var now := client.ledger(d'.c);
    SweptRungs(Sweep(d'.book, Begun(s, snap, first).paid), now, IdsOf(now), today);
  }

  lemma MorningIsKeyed<C(!new)>(client: Client<C>, c0: C, start: int, k: nat)
    requires Honest(client) && WellKeyed(client.ledger(c0))
    ensures WellKeyed(ListedOn(client, c0, start, k))
    ensures forall i | 0 <= i < |AfterDays(client, c0, start, k).book.audit| ::
              AfterDays(client, c0, start, k).book.audit[i].day < start + k
  {
    if k > 0 {
      RunStands(client, c0, start, k);
    }
    var s := AfterDays(client, c0, start, k);
    MovesKeepKeys(client.ledger(s.c), client.ledger(client.resolve(s.c, start + k)));
  }

  /**
   * On every day of a run every invoice on that day's listing is logged exactly once, customer by
   * customer, with the rung the decision table gives on the notes the day began with and on who was
   * contacted earlier the same day; and nothing else is logged.
   */
  lemma EveryListedInvoiceIsLogged<C(!new)>(client: Client<C>, c0: C, start: int, k: nat, n: nat)
    requires Honest(client) && WellKeyed(client.ledger(c0)) && k < n
    ensures DayLogged(AfterDays(client, c0, start, n).book.audit, start + k, ListedOn(client, c0, start, k),
                      AfterDays(client, c0, start, k).book)
  {
    var s, today, first := AfterDays(client, c0, start, k), start + k, k == 0;
    var next := AfterDay(client, s, today, first);
    var d, snap := Morning(client, c0, start, k), ListedOn(client, c0, start, k);
    MorningIsKeyed(client, c0, start, k);
    var vs := DayVisits(client, s, today, first);
    var d' :| DayOf(client, d, vs, d', snap, today);
    AfterNext(Unstarted(c0), Daily(client), start, k, s, today, first, next);
    LaterDaysGoOn(client, c0, start, k + 1, n);
    var audit := AfterDays(client, c0, start, n).book.audit;
    DayIsWithin(s.book.audit, vs, today, audit);
    VisitsAreLogged(client, d, vs, d', snap, today, audit, |s.book.audit|);
  }

  lemma DayIsWithin<C>(past: seq<AuditEntry>, vs: seq<Visit<C>>, day: int, audit: seq<AuditEntry>)
    requires forall i | 0 <= i < |past| :: past[i].day < day
    requires GoesOn(past + Entries(vs, day), day + 1, audit)
    ensures EntriesAt(audit, |past|, vs, day) && DayAt(audit, day, |past|, |past| + |vs|)
  {
    var es := Entries(vs, day);
    assert forall i | 0 <= i < |past| :: audit[i] == (past + es)[i] == past[i];
    assert forall k | 0 <= k < |vs| :: audit[|past| + k] == (past + es)[|past| + k] == es[k] == EntryOf(vs[k], day);
    forall i | 0 <= i < |audit| ensures audit[i].day == day <==> |past| <= i < |past| + |vs| {
      if |past| <= i < |past| + |vs| {
        var k := i - |past|;
        assert audit[|past| + k] == EntryOf(vs[k], day);
      }
    }
  }

  // ---- Entries and notes

  predicate Tells(e: AuditEntry, c: CustomerId, n: Note) {
    && e.customer == c && e.day == n.day && e.invoice == n.invoice
    && match n
       case ContactNote(_, _, rung, overdue) => e.rung == rung && e.overdue == overdue && IsContact(rung)
       case EscalationNote(_, _) => e.rung.Human?
       case PaymentNote(_, _) => false
       case _ => IsContact(e.rung)
  }

  predicate Told(audit: seq<AuditEntry>, c: CustomerId, n: Note) {
    exists k | 0 <= k < |audit| :: Tells(audit[k], c, n)
  }

  /** A contact and an escalation are noted with the customer they concern. */
  predicate EntryNoted(book: Book, e: AuditEntry) {
    && (IsContact(e.rung) ==> ContactNote(e.day, e.invoice, e.rung, e.overdue) in Notes(book, e.customer))
    && (e.rung.Human? ==> EscalationNote(e.day, e.invoice) in Notes(book, e.customer))
  }

  ghost predicate DisputeNoted(book: Book, id: InvoiceId) {
    exists c, n :: n in Notes(book, c) && n.DisputeNote? && n.invoice == id
  }

  ghost predicate EntriesNoted(book: Book) {
    forall k | 0 <= k < |book.audit| :: EntryNoted(book, book.audit[k])
  }

  ghost predicate NotesTold(book: Book) {
    forall c, n | n in Notes(book, c) && !n.PaymentNote? :: Told(book.audit, c, n)
  }

  ghost predicate DisputesNoted(book: Book) {
    forall id :: id in book.disputes <==> DisputeNoted(book, id)
  }

  /** Entries and notes say the same, but for payments, and `disputes` holds what is noted as disputed. */
  ghost predicate Backed(book: Book) {
    EntriesNoted(book) && NotesTold(book) && DisputesNoted(book)
  }

  lemma VisitNotesEntries<C(!new)>(client: Client<C>, d: Desk<C>, v: Visit<C>, d': Desk<C>, today: int)
    requires ByVisit(client, d, v, d', today) && EntriesNoted(d.book)
    ensures EntriesNoted(d'.book)
  {
    forall k | 0 <= k < |d'.book.audit| ensures EntryNoted(d'.book, d'.book.audit[k]) {
      if k < |d.book.audit| {
        assert EntryNoted(d.book, d.book.audit[k]);
      }
    }
  }

  lemma ToldStill(audit: seq<AuditEntry>, e: AuditEntry, c: CustomerId, n: Note)
    ensures Told(audit + [e], c, n) <==> Told(audit, c, n) || Tells(e, c, n)
  {
    var audit' := audit + [e];
    assert audit'[|audit|] == e;
    if k :| 0 <= k < |audit| && Tells(audit[k], c, n) {
      assert audit'[k] == audit[k];
    }
  }

  lemma VisitTellsNotes<C(!new)>(client: Client<C>, d: Desk<C>, v: Visit<C>, d': Desk<C>, today: int)
    requires ByVisit(client, d, v, d', today) && NotesTold(d.book)
    ensures NotesTold(d'.book)
  {
    forall c, n | n in Notes(d'.book, c) && !n.PaymentNote? ensures Told(d'.book.audit, c, n) {
      ToldStill(d.book.audit, EntryOf(v, today), c, n);
    }
  }

  lemma VisitNotesDisputes<C(!new)>(client: Client<C>, d: Desk<C>, v: Visit<C>, d': Desk<C>, today: int)
    requires ByVisit(client, d, v, d', today) && DisputesNoted(d.book)
    ensures DisputesNoted(d'.book)
  {
    var c0, left := v.inv.customer, NotesLeft(client, v, today);
    forall id ensures id in d'.book.disputes <==> DisputeNoted(d'.book, id) {
      assert id in d.book.disputes <==> DisputeNoted(d.book, id);
      if DisputeNoted(d.book, id) {
        var c, n :| n in Notes(d.book, c) && n.DisputeNote? && n.invoice == id;
        assert n in Notes(d'.book, c);
      }
      if id in d'.book.disputes && id !in d.book.disputes {
        assert left[1] == DisputeNote(today, id) && left[1] in left && left[1] in Notes(d'.book, c0);
      }
    }
  }

  ghost function BackedBook<C>(): (C, Book) -> bool {
    (c, book) => Backed(book)
  }

  lemma BackedByTurns<C(!new)>(client: Client<C>, snap: Ledger, today: int)
    ensures KeptByTurns(client, snap, today, BackedBook())
  {
    forall s: Sitting<C>, id, known ensures TurnKeeps(client, snap, today, BackedBook(), s, id, known) {
      if id in snap && Backed(s.book) {
        TurnIsAVisit(client, s, snap[id], known, today);
        var v := Visit(s.c, snap[id], Decide(snap[id], known, today, s.contacted).rung);
        var s' := Turn(client, s, snap[id], known, today);
        var d, d' := Desk(s.c, s.book), Desk(s'.c, s'.book);
        VisitNotesEntries(client, d, v, d', today);
        VisitTellsNotes(client, d, v, d', today);
        VisitNotesDisputes(client, d, v, d', today);
      }
    }
  }

  lemma PaymentKeepsBacked(book: Book, c: CustomerId, n: Note)
    requires Backed(book) && n.PaymentNote?
    ensures Backed(Remember(book, c, n))
  {
    var b := Remember(book, c, n);
    forall k | 0 <= k < |b.audit| ensures EntryNoted(b, b.audit[k]) {
      assert EntryNoted(book, book.audit[k]);
    }
    forall id ensures id in b.disputes <==> DisputeNoted(b, id) {
      assert id in book.disputes <==> DisputeNoted(book, id);
      if DisputeNoted(book, id) {
        var d, m :| m in Notes(book, d) && m.DisputeNote? && m.invoice == id;
        assert m in Notes(b, d);
      }
      if DisputeNoted(b, id) {
        var d, m :| m in Notes(b, d) && m.DisputeNote? && m.invoice == id;
        assert m in Notes(book, d);
      }
    }
  }

  lemma {:induction false} SweepKeepsBacked(s: Sweep, l: Ledger, ids: seq<InvoiceId>, today: int)
    requires Backed(s.book)
    ensures Backed(Swept(s, l, ids, today).book)
  {
    if ids != [] {
      var front, id := ids[..|ids| - 1], ids[|ids| - 1];
      SweepKeepsBacked(s, l, front, today);
      if id in l {
        PaymentKeepsBacked(Swept(s, l, front, today).book, l[id].customer, PaymentNote(today, id));
      }
    }
  }

  ghost function BackedDaily<C>(): (Tally<C>, int, bool) -> bool {
    (s: Tally<C>, today, first) => Backed(s.book)
  }

  lemma DayKeepsBacked<C(!new)>(client: Client<C>, s: Tally<C>, today: int, first: bool)
    requires Backed(s.book)
    ensures Backed(AfterDay(client, s, today, first).book)
  {
    var c := client.resolve(s.c, today);
    var snap := client.ledger(c);
    BackedByTurns(client, snap, today);
    KeptByChase(client, Desk(c, s.book), snap, today, BackedBook());
    var d := Chased(client, Desk(c, s.book), snap, today);
    var now := client.ledger(d.c);
    SweepKeepsBacked(Sweep(d.book, Begun(s, snap, first).paid), now, IdsOf(now), today);
  }

  /**
   * Over a whole run, whatever the client answers: each contact and each escalation logged is noted
   * with its customer, each note but a payment is of a logged visit of its day, and the invoices
   * counted as disputed are those with a dispute noted.
   */
  lemma RunIsBackedByNotes<C(!new)>(client: Client<C>, c0: C, start: int, n: nat)
    ensures Backed(AfterDays(client, c0, start, n).book)
  {
    var keeps := BackedDaily<C>();
    forall s, today, first ensures DayKeeps(Daily(client), keeps, s, today, first) {
      if Backed(s.book) {
        DayKeepsBacked(client, s, today, first);
      }
    }
    KeptEveryDay(Unstarted(c0), Daily(client), keeps, start, n);
    assert keeps(AfterDays(client, c0, start, n), start + n, n == 0);
  }

  // ---- The sweep

  /** `id` is paid on the listing and was not known to be. */
  predicate NewlyPaid(l: Ledger, recorded: set<InvoiceId>, id: InvoiceId) {
    id in l && l[id].status.Paid? && id !in recorded
  }

  /** From `s` to `s'` exactly the newly paid of `ids` were noted, each with its customer and the day's date. */
  ghost predicate Noting(s: Sweep, s': Sweep, l: Ledger, ids: seq<InvoiceId>, today: int) {
    && s'.book == s.book.(memory := s'.book.memory)
    && (forall id :: id in s'.recorded <==> id in s.recorded || (id in ids && NewlyPaid(l, s.recorded, id)))
    && (forall c, n :: n in Notes(s'.book, c) <==>
          n in Notes(s.book, c)
          || (n.PaymentNote? && n.day == today && n.invoice in ids && NewlyPaid(l, s.recorded, n.invoice)
              && l[n.invoice].customer == c))
  }

  lemma NotesOne(s: Sweep, mid: Sweep, l: Ledger, front: seq<InvoiceId>, id: InvoiceId, today: int)
    requires Noting(s, mid, l, front, today) && id !in front && NewlyPaid(l, s.recorded, id)
    ensures Noting(s, Sweep(Remember(mid.book, l[id].customer, PaymentNote(today, id)), mid.recorded + {id}), l,
                   front + [id], today)
  {
    assert forall x :: x in front + [id] <==> x in front || x == id;
    var s' := Sweep(Remember(mid.book, l[id].customer, PaymentNote(today, id)), mid.recorded + {id});
    forall c, n ensures n in Notes(s'.book, c) <==>
                        n in Notes(mid.book, c) || (c == l[id].customer && n == PaymentNote(today, id))
    {
    }
  }

  lemma {:induction false} SweepNotesThePaid(s: Sweep, l: Ledger, ids: seq<InvoiceId>, today: int)
    requires Ascends(ids)
    ensures Noting(s, Swept(s, l, ids, today), l, ids, today)
  {
    if ids != [] {
      var front, id := ids[..|ids| - 1], ids[|ids| - 1];
      AscendingRest(ids);
      SweepNotesThePaid(s, l, front, today);
      assert ids == front + [id];
      assert forall x :: x in ids <==> x in front || x == id;
      var mid := Swept(s, l, front, today);
      assert id in mid.recorded <==> id in s.recorded;
      if NewlyPaid(l, s.recorded, id) {
        NotesOne(s, mid, l, front, id, today);
      }
    }
  }
}
