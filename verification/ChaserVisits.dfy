/**
 * A day's chase as one list of visits. Everyone on the listing is visited once, customer by customer
 * and by identifier; each visit follows the decision table, read with the notes of the day before,
 * and leaves one audit entry and its notes, also when nobody is contacted.
 */
module ChaserVisits {
  import opened ChaserPolicy
  import opened ChaserInvoice
  import opened ChaserRun
  import opened ChaserListing
  import opened ChaserLoop

  /** `c` is the client before the visit. */
  datatype Visit<C> = Visit(c: C, inv: Invoice, rung: Rung)

  function ClientAfter<C>(client: Client<C>, v: Visit<C>, today: int): C {
    if IsContact(v.rung) then client.contact(v.c, v.inv, today).0 else v.c
  }

  function EntryOf<C>(v: Visit<C>, today: int): AuditEntry {
    AuditEntry(today, v.inv.id, v.inv.customer, v.rung, v.inv.amount, today - v.inv.due)
  }

  function ReplyNotes(reply: Reply, inv: Invoice, today: int): seq<Note> {
    match reply
    case Silent => [NoResponseNote(today, inv.id)]
    case Disputing => [DisputeNote(today, inv.id)]
    case Promising(until) => [PromiseNote(today, inv.id, until)]
    case Other => []
  }

  /** A contact is noted with what came back; an escalation is noted; nothing else is. */
  function LeftBy(inv: Invoice, today: int, rung: Rung, reply: Reply): seq<Note> {
    if IsContact(rung) then [ContactNote(today, inv.id, rung, today - inv.due)] + ReplyNotes(reply, inv, today)
    else if rung.Human? then [EscalationNote(today, inv.id)]
    else []
  }

  function NotesLeft<C>(client: Client<C>, v: Visit<C>, today: int): seq<Note> {
    LeftBy(v.inv, today, v.rung, if IsContact(v.rung) then client.contact(v.c, v.inv, today).1 else Silent)
  }

  /** From `d` to `d'` by one visit. */
  ghost predicate ByVisit<C>(client: Client<C>, d: Desk<C>, v: Visit<C>, d': Desk<C>, today: int) {
    && v.c == d.c && d'.c == ClientAfter(client, v, today)
    && d'.book.audit == d.book.audit + [EntryOf(v, today)]
    && (forall c :: Notes(d'.book, c) ==
                    Notes(d.book, c) + if c == v.inv.customer then NotesLeft(client, v, today) else [])
    && d'.book.lastRung == (if IsContact(v.rung) then d.book.lastRung[v.inv.id := v.rung] else d.book.lastRung)
    && var reply := if IsContact(v.rung) then client.contact(v.c, v.inv, today).1 else Other;
       && d'.book.disputes == d.book.disputes + (if reply.Disputing? then {v.inv.id} else {})
       && d'.book.promisesMade == d.book.promisesMade + (if reply.Promising? then {v.inv.id} else {})
       && d'.book.promiseDates ==
          if reply.Promising? then d.book.promiseDates[v.inv.id := reply.until] else d.book.promiseDates
  }

  function NotesAbout<C>(client: Client<C>, vs: seq<Visit<C>>, c: CustomerId, today: int): seq<Note> {
    if vs == [] then []
    else
      var v := vs[|vs| - 1];
      NotesAbout(client, vs[..|vs| - 1], c, today) + if v.inv.customer == c then NotesLeft(client, v, today) else []
  }

  function Entries<C>(vs: seq<Visit<C>>, today: int): seq<AuditEntry> {
    seq(|vs|, k requires 0 <= k < |vs| => EntryOf(vs[k], today))
  }

  function ClientAt<C>(client: Client<C>, c: C, vs: seq<Visit<C>>, k: nat, today: int): C
    requires k <= |vs|
  {
    if k == 0 then c else ClientAfter(client, vs[k - 1], today)
  }

  /** From `d` to `d'` by the visits `vs`, each where the last one left the client. */
  ghost predicate Path<C>(client: Client<C>, d: Desk<C>, vs: seq<Visit<C>>, d': Desk<C>, today: int) {
    && (forall k | 0 <= k < |vs| :: vs[k].c == ClientAt(client, d.c, vs, k, today))
    && d'.c == ClientAt(client, d.c, vs, |vs|, today)
    && d'.book.audit == d.book.audit + Entries(vs, today)
    && forall c :: Notes(d'.book, c) == Notes(d.book, c) + NotesAbout(client, vs, c, today)
  }

  predicate ContactedIn<C>(vs: seq<Visit<C>>, c: CustomerId) {
    exists j | 0 <= j < |vs| :: vs[j].inv.customer == c && IsContact(vs[j].rung)
  }

  /** Visit `k` is to a listed invoice, with the rung the table gives on the notes in `book`. */
  predicate ByTheTable<C>(vs: seq<Visit<C>>, k: nat, book: Book, snap: Ledger, today: int)
    requires k < |vs|
  {
    var inv := vs[k].inv;
    && inv.id in snap && snap[inv.id] == inv
    && vs[k].rung == Decide(inv, FactsOf(book, inv.customer), today, ContactedIn(vs[..k], inv.customer)).rung
  }

  predicate AllByTheTable<C>(vs: seq<Visit<C>>, book: Book, snap: Ledger, today: int) {
    forall k | 0 <= k < |vs| :: ByTheTable(vs, k, book, snap, today)
  }

  predicate Precedes(a: Invoice, b: Invoice) {
    a.customer < b.customer || (a.customer == b.customer && a.id < b.id)
  }

  predicate InTurn<C>(vs: seq<Visit<C>>) {
    forall i, j | 0 <= i < j < |vs| :: Precedes(vs[i].inv, vs[j].inv)
  }

  predicate Visits<C>(vs: seq<Visit<C>>, id: InvoiceId) {
    exists k | 0 <= k < |vs| :: vs[k].inv.id == id
  }

  // ---- One visit

  lemma ContactLeavesNotes(book: Book, inv: Invoice, today: int, rung: Rung, reply: Reply, c: CustomerId)
    ensures Notes(Contacted(book, inv, today, rung, reply), c) ==
            Notes(book, c) + if c == inv.customer
                             then [ContactNote(today, inv.id, rung, today - inv.due)] + ReplyNotes(reply, inv, today)
                             else []
  {
    var n, more := ContactNote(today, inv.id, rung, today - inv.due), ReplyNotes(reply, inv, today);
    assert Notes(book, c) + [n] + more == Notes(book, c) + ([n] + more);
  }

  lemma VisitLeavesNotes(book: Book, inv: Invoice, today: int, rung: Rung, reply: Reply, c: CustomerId)
    ensures Notes(Visited(book, inv, today, rung, reply), c) ==
            Notes(book, c) + if c == inv.customer then LeftBy(inv, today, rung, reply) else []
  {
    if IsContact(rung) {
      ContactLeavesNotes(book, inv, today, rung, reply, c);
    }
  }

  lemma TurnLeavesNotes<C>(client: Client<C>, s: Sitting<C>, inv: Invoice, known: Facts, today: int, c: CustomerId)
    ensures var v := Visit(s.c, inv, Decide(inv, known, today, s.contacted).rung);
      Notes(Turn(client, s, inv, known, today).book, c) ==
      Notes(s.book, c) + if c == inv.customer then NotesLeft(client, v, today) else []
  {
    var rung := Decide(inv, known, today, s.contacted).rung;
    var reply := if IsContact(rung) then client.contact(s.c, inv, today).1 else Silent;
    VisitLeavesNotes(s.book, inv, today, rung, reply, c);
  }

  /** Whatever is decided, a turn logs it, and leaves the notes of the decision and of the reply. */
  lemma TurnIsAVisit<C>(client: Client<C>, s: Sitting<C>, inv: Invoice, known: Facts, today: int)
    ensures var v := Visit(s.c, inv, Decide(inv, known, today, s.contacted).rung);
      var s' := Turn(client, s, inv, known, today);
      ByVisit(client, Desk(s.c, s.book), v, Desk(s'.c, s'.book), today)
      && s'.contacted == (s.contacted || IsContact(v.rung))
  {
    forall c {
      TurnLeavesNotes(client, s, inv, known, today, c);
    }
  }

  lemma NotesAboutNext<C>(client: Client<C>, us: seq<Visit<C>>, v: Visit<C>, c: CustomerId, today: int)
    ensures NotesAbout(client, us + [v], c, today) ==
            NotesAbout(client, us, c, today) + if v.inv.customer == c then NotesLeft(client, v, today) else []
  {
    assert (us + [v])[..|us|] == us;
  }

  lemma NotesGoOn(was: seq<Note>, about: seq<Note>, left: seq<Note>, now: seq<Note>, next: seq<Note>)
    requires now == was + about && next == now + left
    ensures next == was + (about + left)
  {
  }

  lemma PathGoesOn<C>(client: Client<C>, d0: Desk<C>, us: seq<Visit<C>>, d: Desk<C>, v: Visit<C>, d': Desk<C>,
                            today: int)
    requires Path(client, d0, us, d, today) && ByVisit(client, d, v, d', today)
    ensures Path(client, d0, us + [v], d', today)
  {
    var vs := us + [v];
    assert Entries(vs, today) == Entries(us, today) + [EntryOf(v, today)];
    forall c ensures Notes(d'.book, c) == Notes(d0.book, c) + NotesAbout(client, vs, c, today) {
      NotesAboutNext(client, us, v, c, today);
      NotesGoOn(Notes(d0.book, c), NotesAbout(client, us, c, today),
                if c == v.inv.customer then NotesLeft(client, v, today) else [], Notes(d.book, c), Notes(d'.book, c));
    }
  }

  lemma ContactedInNext<C>(us: seq<Visit<C>>, v: Visit<C>, c: CustomerId)
    ensures ContactedIn(us + [v], c) <==> ContactedIn(us, c) || (v.inv.customer == c && IsContact(v.rung))
  {
    var vs := us + [v];
    assert vs[|us|] == v;
    if j :| 0 <= j < |us| && us[j].inv.customer == c && IsContact(us[j].rung) {
      assert vs[j] == us[j];
    }
  }

  lemma TableGoesOn<C>(us: seq<Visit<C>>, v: Visit<C>, book: Book, snap: Ledger, today: int)
    requires AllByTheTable(us, book, snap, today) && v.inv.id in snap && snap[v.inv.id] == v.inv
    requires v.rung == Decide(v.inv, FactsOf(book, v.inv.customer), today, ContactedIn(us, v.inv.customer)).rung
    ensures AllByTheTable(us + [v], book, snap, today)
  {
    var vs := us + [v];
    forall k | 0 <= k < |vs| ensures ByTheTable(vs, k, book, snap, today) {
      if k < |us| {
        assert vs[..k] == us[..k] && ByTheTable(us, k, book, snap, today);
      } else {
        assert vs[..k] == us;
      }
    }
  }

  // ---- One customer

  /** What holds between two invoices of `customer`, `us` being the visits so far. */
  ghost predicate Underway<C>(client: Client<C>, d0: Desk<C>, us: seq<Visit<C>>, s: Sitting<C>, snap: Ledger,
                                    customer: CustomerId, today: int)
  {
    && Path(client, d0, us, Desk(s.c, s.book), today) && AllByTheTable(us, d0.book, snap, today)
    && s.contacted == ContactedIn(us, customer)
  }

  /** The visits so far, then those to `ids`. */
  ghost predicate Continues<C>(us: seq<Visit<C>>, vs: seq<Visit<C>>, snap: Ledger, ids: seq<InvoiceId>) {
    && |vs| == |us| + |ids| && us == vs[..|us|]
    && forall k | 0 <= k < |ids| :: ids[k] in snap && vs[|us| + k].inv == snap[ids[k]]
  }

  predicate OfCustomer(ids: seq<InvoiceId>, snap: Ledger, customer: CustomerId) {
    forall k | 0 <= k < |ids| :: ids[k] in snap && snap[ids[k]].customer == customer
  }

  lemma TurnVisits<C>(client: Client<C>, d0: Desk<C>, us: seq<Visit<C>>, s: Sitting<C>, snap: Ledger,
                            inv: Invoice, known: Facts, today: int) returns (v: Visit<C>)
    requires Underway(client, d0, us, s, snap, inv.customer, today) && inv.id in snap && snap[inv.id] == inv
    requires known == FactsOf(d0.book, inv.customer)
    ensures v.inv == inv
    ensures Underway(client, d0, us + [v], Turn(client, s, inv, known, today), snap, inv.customer, today)
  {
    var s' := Turn(client, s, inv, known, today);
    v := Visit(s.c, inv, Decide(inv, known, today, s.contacted).rung);
    TurnIsAVisit(client, s, inv, known, today);
    PathGoesOn(client, d0, us, Desk(s.c, s.book), v, Desk(s'.c, s'.book), today);
    TableGoesOn(us, v, d0.book, snap, today);
    ContactedInNext(us, v, inv.customer);
  }

  lemma ContinuesNext<C>(us: seq<Visit<C>>, vs: seq<Visit<C>>, v: Visit<C>, snap: Ledger, ids: seq<InvoiceId>)
    requires ids != [] && Continues(us, vs, snap, ids[..|ids| - 1])
    requires ids[|ids| - 1] in snap && v.inv == snap[ids[|ids| - 1]]
    ensures Continues(us, vs + [v], snap, ids)
  {
    assert (vs + [v])[..|us|] == vs[..|us|];
    forall k | 0 <= k < |ids| ensures ids[k] in snap && (vs + [v])[|us| + k].inv == snap[ids[k]] {
      if k < |ids| - 1 {
        assert ids[..|ids| - 1][k] == ids[k] && (vs + [v])[|us| + k] == vs[|us| + k];
      }
    }
  }

  lemma {:induction false} TurnsVisit<C>(
    client: Client<C>, d0: Desk<C>, us: seq<Visit<C>>, s: Sitting<C>, snap: Ledger, ids: seq<InvoiceId>,
    customer: CustomerId, known: Facts, today: int)
    returns (vs: seq<Visit<C>>)
    requires Underway(client, d0, us, s, snap, customer, today) && known == FactsOf(d0.book, customer)
    requires OfCustomer(ids, snap, customer) && WellKeyed(snap)
    ensures Continues(us, vs, snap, ids)
    ensures Underway(client, d0, vs, Turns(client, s, snap, ids, known, today), snap, customer, today)
  {
    if ids == [] {
      vs := us;
    } else {
      var front, id := ids[..|ids| - 1], ids[|ids| - 1];
      var before := TurnsVisit(client, d0, us, s, snap, front, customer, known, today);
      var mid := Turns(client, s, snap, front, known, today);
      var v := TurnVisits(client, d0, before, mid, snap, snap[id], known, today);
      vs := before + [v];
      ContinuesNext(us, before, v, snap, ids);
    }
  }

  // ---- One day

  lemma {:induction false} NothingAboutOthers<C>(client: Client<C>, vs: seq<Visit<C>>, c: CustomerId, today: int)
    requires forall k | 0 <= k < |vs| :: vs[k].inv.customer != c
    ensures NotesAbout(client, vs, c, today) == []
  {
    if vs != [] {
      NothingAboutOthers(client, vs[..|vs| - 1], c, today);
    }
  }

  lemma UnvisitedFacts<C>(client: Client<C>, d0: Desk<C>, us: seq<Visit<C>>, d: Desk<C>, customer: CustomerId,
                                today: int)
    requires Path(client, d0, us, d, today)
    requires forall k | 0 <= k < |us| :: us[k].inv.customer != customer
    ensures FactsOf(d.book, customer) == FactsOf(d0.book, customer)
  {
    NothingAboutOthers(client, us, customer, today);
    assert Notes(d.book, customer) == Notes(d0.book, customer) + NotesAbout(client, us, customer, today);
    assert Notes(d.book, customer) == Notes(d0.book, customer);
  }

  /** The visits `vs` of `snap` to everyone of `customers`, in turn. */
  ghost predicate Rounds<C>(client: Client<C>, d0: Desk<C>, vs: seq<Visit<C>>, d: Desk<C>, snap: Ledger,
                                  customers: seq<CustomerId>, today: int)
  {
    && Path(client, d0, vs, d, today) && AllByTheTable(vs, d0.book, snap, today) && InTurn(vs)
    && forall id :: Visits(vs, id) <==> id in snap && snap[id].customer in customers
  }

  lemma CustomersOfVisits<C>(client: Client<C>, d0: Desk<C>, vs: seq<Visit<C>>, d: Desk<C>, snap: Ledger,
                                   customers: seq<CustomerId>, today: int)
    requires Rounds(client, d0, vs, d, snap, customers, today)
    ensures forall k | 0 <= k < |vs| :: vs[k].inv.customer in customers
  {
    forall k | 0 <= k < |vs| ensures vs[k].inv.customer in customers {
      assert ByTheTable(vs, k, d0.book, snap, today) && Visits(vs, vs[k].inv.id);
    }
  }

  lemma CallVisits<C>(client: Client<C>, d0: Desk<C>, us: seq<Visit<C>>, d: Desk<C>, snap: Ledger,
                            ids: seq<InvoiceId>, customer: CustomerId, today: int)
    returns (vs: seq<Visit<C>>)
    requires Path(client, d0, us, d, today) && AllByTheTable(us, d0.book, snap, today)
    requires OfCustomer(ids, snap, customer) && WellKeyed(snap)
    requires forall k | 0 <= k < |us| :: us[k].inv.customer != customer
    ensures Continues(us, vs, snap, ids)
    ensures Path(client, d0, vs, Call(client, d, snap, ids, customer, today), today)
    ensures AllByTheTable(vs, d0.book, snap, today)
  {
    UnvisitedFacts(client, d0, us, d, customer, today);
    var known := FactsOf(d.book, customer);
    vs := TurnsVisit(client, d0, us, Sitting(d.c, d.book, false), snap, ids, customer, known, today);
  }

  lemma StillInTurn<C>(us: seq<Visit<C>>, vs: seq<Visit<C>>, snap: Ledger, ids: seq<InvoiceId>, customer: CustomerId)
    requires Continues(us, vs, snap, ids) && InTurn(us) && WellKeyed(snap)
    requires Ascends(ids) && OfCustomer(ids, snap, customer)
    requires forall k | 0 <= k < |us| :: us[k].inv.customer < customer
    ensures InTurn(vs)
  {
    forall i, j | 0 <= i < j < |vs| ensures Precedes(vs[i].inv, vs[j].inv) {
      if j < |us| {
        assert vs[i] == us[i] && vs[j] == us[j];
      } else {
        var y := j - |us|;
        assert vs[|us| + y].inv == snap[ids[y]];
        if i < |us| {
          assert vs[i] == us[i];
        } else {
          var x := i - |us|;
          assert vs[|us| + x].inv == snap[ids[x]] && ids[x] < ids[y];
        }
      }
    }
  }

  lemma VisitsContinue<C>(us: seq<Visit<C>>, vs: seq<Visit<C>>, snap: Ledger, ids: seq<InvoiceId>, id: InvoiceId)
    requires Continues(us, vs, snap, ids) && WellKeyed(snap)
    ensures Visits(vs, id) <==> Visits(us, id) || id in ids
  {
    if k :| 0 <= k < |us| && us[k].inv.id == id {
      assert vs[k] == us[k];
    }
    if j :| 0 <= j < |ids| && ids[j] == id {
      assert vs[|us| + j].inv == snap[ids[j]];
    }
    if k :| 0 <= k < |vs| && vs[k].inv.id == id {
      if k < |us| {
        assert us[k] == vs[k];
      } else {
        var j := k - |us|;
        assert vs[|us| + j].inv == snap[ids[j]];
      }
    }
  }

  lemma {:induction false} RoundVisits<C>(
    client: Client<C>, d0: Desk<C>, snap: Ledger, ids: seq<InvoiceId>, customers: seq<CustomerId>, today: int)
    returns (vs: seq<Visit<C>>)
    requires WellKeyed(snap) && ids == IdsOf(snap) && Ascends(customers)
    ensures Rounds(client, d0, vs, Round(client, d0, snap, ids, customers, today), snap, customers, today)
  {
    if customers == [] {
      vs := [];
    } else {
      var front, customer := customers[..|customers| - 1], customers[|customers| - 1];
      var us := RoundVisits(client, d0, snap, ids, front, today);
      vs := NextCustomer(client, d0, us, Round(client, d0, snap, ids, front, today), snap, ids, customers, today);
    }
  }

  lemma NextCustomer<C>(
    client: Client<C>, d0: Desk<C>, us: seq<Visit<C>>, d: Desk<C>, snap: Ledger, ids: seq<InvoiceId>,
    customers: seq<CustomerId>, today: int)
    returns (vs: seq<Visit<C>>)
    requires WellKeyed(snap) && ids == IdsOf(snap) && Ascends(customers) && customers != []
    requires Rounds(client, d0, us, d, snap, customers[..|customers| - 1], today)
    ensures var customer := customers[|customers| - 1];
      Rounds(client, d0, vs, Call(client, d, snap, GroupOf(ids, snap, customer), customer, today), snap, customers,
             today)
  {
    var front, customer := customers[..|customers| - 1], customers[|customers| - 1];
    var group := GroupOf(ids, snap, customer);
    CustomersOfVisits(client, d0, us, d, snap, front, today);
    EarlierCustomers(us, customers);
    GroupListed(snap, customer);
    vs := CallVisits(client, d0, us, d, snap, group, customer, today);
    StillInTurn(us, vs, snap, group, customer);
    forall id ensures Visits(vs, id) <==> id in snap && snap[id].customer in customers {
      VisitsContinue(us, vs, snap, group, id);
      assert Visits(us, id) <==> id in snap && snap[id].customer in front;
      assert forall c :: c in customers <==> c in front || c == customer;
    }
  }

  lemma {:induction false} IndexOf(ids: seq<int>, x: int) returns (i: nat)
    requires x in ids
    ensures i < |ids| && ids[i] == x
  {
    i := 0;
    if ids[0] != x {
      assert ids == [ids[0]] + ids[1..];
      i := IndexOf(ids[1..], x);
      i := i + 1;
    }
  }

  lemma EarlierCustomers<C>(us: seq<Visit<C>>, customers: seq<CustomerId>)
    requires Ascends(customers) && customers != []
    requires forall k | 0 <= k < |us| :: us[k].inv.customer in customers[..|customers| - 1]
    ensures forall k | 0 <= k < |us| :: us[k].inv.customer < customers[|customers| - 1]
  {
    forall k | 0 <= k < |us| ensures us[k].inv.customer < customers[|customers| - 1] {
      var front := customers[..|customers| - 1];
      var i := IndexOf(front, us[k].inv.customer);
    }
  }

  lemma GroupListed(snap: Ledger, customer: CustomerId)
    ensures var group := GroupOf(IdsOf(snap), snap, customer);
      Ascends(group) && OfCustomer(group, snap, customer)
      && forall id :: id in group <==> id in snap && snap[id].customer == customer
  {
    var group := GroupOf(IdsOf(snap), snap, customer);
    IdsAre(snap);
    GroupAscends(IdsOf(snap), snap, customer);
    GroupIs(IdsOf(snap), snap, customer);
    assert forall k | 0 <= k < |group| :: group[k] in group;
  }

  lemma CustomersAreAll(snap: Ledger)
    ensures Ascends(CustomersIn(snap)) && forall id | id in snap :: snap[id].customer in CustomersIn(snap)
  {
    var ids := IdsOf(snap);
    SortedIdsAre(CustomersOf(ids, snap));
    IdsAre(snap);
    forall id | id in snap ensures snap[id].customer in CustomersIn(snap) {
      GroupIs(ids, snap, snap[id].customer);
      CustomersHaveGroups(ids, snap, snap[id].customer);
    }
  }

  /** The visits `vs` are what a day does between `d` and `d'`, to everyone on the listing and to nobody else. */
  ghost predicate DayOf<C>(client: Client<C>, d: Desk<C>, vs: seq<Visit<C>>, d': Desk<C>, snap: Ledger,
                                 today: int)
  {
    && Path(client, d, vs, d', today) && AllByTheTable(vs, d.book, snap, today) && InTurn(vs)
    && forall id :: Visits(vs, id) <==> id in snap
  }

  /** A day's chase is its visits, one to each invoice listed, whatever the client answers. */
  lemma EveryoneListedIsVisited<C>(client: Client<C>, d: Desk<C>, snap: Ledger, today: int)
    returns (vs: seq<Visit<C>>)
    requires WellKeyed(snap)
    ensures DayOf(client, d, vs, Chased(client, d, snap, today), snap, today)
  {
    CustomersAreAll(snap);
    vs := RoundVisits(client, d, snap, IdsOf(snap), CustomersIn(snap), today);
  }
}
