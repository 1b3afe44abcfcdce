/**
 * The chase loop as functions of the client and the book: one invoice, one customer, one day, a whole
 * run; and what is kept by every turn of it is kept by all of it.
 */
module ChaserLoop {
  import opened Wrappers
  import opened ChaserPolicy
  import opened ChaserInvoice
  import opened ChaserRun
  import opened ChaserListing

  /** Between two invoices of one customer. */
  datatype Sitting<C> = Sitting(c: C, book: Book, contacted: bool)

  /** Between two customers. */
  datatype Desk<C> = Desk(c: C, book: Book)

  datatype Sweep = Sweep(book: Book, recorded: set<InvoiceId>)

  /** Between two days: the client, the book, the first and the last listing, and the invoices known as paid. */
  datatype Tally<C> = Tally(c: C, book: Book, initial: Ledger, final: Ledger, paid: set<InvoiceId>)

  /** One invoice's turn. */
  function Turn<C>(client: Client<C>, s: Sitting<C>, inv: Invoice, known: Facts, today: int): Sitting<C> {
    var rung := Decide(inv, known, today, s.contacted).rung;
    if IsContact(rung) then
      var answer := client.contact(s.c, inv, today);
      Sitting(answer.0, Visited(s.book, inv, today, rung, answer.1), true)
    else Sitting(s.c, Visited(s.book, inv, today, rung, Silent), s.contacted)
  }

  function Turns<C>(client: Client<C>, s: Sitting<C>, snap: Ledger, ids: seq<InvoiceId>, known: Facts,
                    today: int): Sitting<C>
  {
    if ids == [] then s
    else
      var front, id := ids[..|ids| - 1], ids[|ids| - 1];
      var before := Turns(client, s, snap, front, known, today);
      if id in snap then Turn(client, before, snap[id], known, today) else before
  }

  /** One customer's turn: the facts are recalled once, before its invoices are gone through. */
  function Call<C>(client: Client<C>, d: Desk<C>, snap: Ledger, ids: seq<InvoiceId>, customer: CustomerId,
                   today: int): Desk<C>
  {
    var s := Turns(client, Sitting(d.c, d.book, false), snap, ids, FactsOf(d.book, customer), today);
    Desk(s.c, s.book)
  }

  function Round<C>(client: Client<C>, d: Desk<C>, snap: Ledger, ids: seq<InvoiceId>, customers: seq<CustomerId>,
                    today: int): Desk<C>
  {
    if customers == [] then d
    else
      var customer := customers[|customers| - 1];
      var group := GroupOf(ids, snap, customer);
      Call(client, Round(client, d, snap, ids, customers[..|customers| - 1], today), snap, group, customer, today)
  }

  function CustomersIn(l: Ledger): seq<CustomerId> {
    SortedIds(CustomersOf(IdsOf(l), l))
  }

  /** Everyone on the day's listing, customer by customer. */
  function Chased<C>(client: Client<C>, d: Desk<C>, snap: Ledger, today: int): Desk<C> {
    Round(client, d, snap, IdsOf(snap), CustomersIn(snap), today)
  }

  /** Notes a payment for each of `ids` that is paid and not known to be. */
  function Swept(s: Sweep, l: Ledger, ids: seq<InvoiceId>, today: int): Sweep
  {
    if ids == [] then s
    else
      var before, id := Swept(s, l, ids[..|ids| - 1], today), ids[|ids| - 1];
      if id in l && l[id].status.Paid? && id !in before.recorded
      then Sweep(Remember(before.book, l[id].customer, PaymentNote(today, id)), before.recorded + {id})
      else before
  }

  function PaidIn(l: Ledger): set<InvoiceId> {
    set id | id in l && l[id].status.Paid?
  }

  /** What a day starts from: the first day's listing is the initial one, and what is paid on it is known. */
  function Begun<C>(s: Tally<C>, snap: Ledger, first: bool): Tally<C> {
    if first then s.(initial := snap, paid := PaidIn(snap)) else s
  }

  function AfterDay<C>(client: Client<C>, s: Tally<C>, today: int, first: bool): Tally<C> {
    var c := client.resolve(s.c, today);
    var snap := client.ledger(c);
    var begun := Begun(s, snap, first);
    var chased := Chased(client, Desk(c, s.book), snap, today);
    var now := client.ledger(chased.c);
    var swept := Swept(Sweep(chased.book, begun.paid), now, IdsOf(now), today);
    Tally(chased.c, swept.book, begun.initial, now, swept.recorded)
  }

  function Daily<C>(client: Client<C>): (Tally<C>, int, bool) -> Tally<C> {
    (s, today, first) => AfterDay(client, s, today, first)
  }

  /** A state after `n` days from `start`; the first day is told that it is. */
  function After<S>(s: S, day: (S, int, bool) -> S, start: int, n: nat): S {
    if n == 0 then s else day(After(s, day, start, n - 1), start + n - 1, n == 1)
  }

  lemma AfterNext<S>(s0: S, day: (S, int, bool) -> S, start: int, k: nat, s: S, today: int, first: bool, next: S)
    requires s == After(s0, day, start, k) && today == start + k && (first <==> k == 0) && next == day(s, today, first)
    ensures next == After(s0, day, start, k + 1)
  {
  }

  function Unstarted<C>(c0: C): Tally<C> {
    Tally(c0, BLANK, map[], map[], {})
  }

  /** The state of a run at the end of its `n` days. */
  function AfterDays<C>(client: Client<C>, c0: C, start: int, n: nat): Tally<C> {
    After(Unstarted(c0), Daily(client), start, n)
  }

  predicate DayKeeps<S>(day: (S, int, bool) -> S, keeps: (S, int, bool) -> bool, s: S, today: int, first: bool) {
    keeps(s, today, first) ==> keeps(day(s, today, first), today + 1, false)
  }

  /** What every day keeps holds from day `k` on, if it holds then. */
  lemma {:induction false} KeptFrom<S(!new)>(s: S, day: (S, int, bool) -> S, keeps: (S, int, bool) -> bool, start: int,
                                             k: nat, n: nat)
    requires k <= n && keeps(After(s, day, start, k), start + k, k == 0)
    requires forall t, today, first :: DayKeeps(day, keeps, t, today, first)
    ensures keeps(After(s, day, start, n), start + n, n == 0)
  {
    if k < n {
      KeptFrom(s, day, keeps, start, k, n - 1);
      assert DayKeeps(day, keeps, After(s, day, start, n - 1), start + n - 1, n == 1);
    }
  }

  lemma KeptEveryDay<S(!new)>(s: S, day: (S, int, bool) -> S, keeps: (S, int, bool) -> bool, start: int, n: nat)
    requires keeps(s, start, true) && forall t, today, first :: DayKeeps(day, keeps, t, today, first)
    ensures keeps(After(s, day, start, n), start + n, n == 0)
  {
    KeptFrom(s, day, keeps, start, 0, n);
  }

  // ---- What every turn keeps, a whole day keeps

  ghost predicate TurnKeeps<C(!new)>(client: Client<C>, snap: Ledger, today: int, keeps: (C, Book) -> bool,
                                     s: Sitting<C>, id: InvoiceId, known: Facts)
  {
    id in snap && keeps(s.c, s.book) ==>
      keeps(Turn(client, s, snap[id], known, today).c, Turn(client, s, snap[id], known, today).book)
  }

  ghost predicate KeptByTurns<C(!new)>(client: Client<C>, snap: Ledger, today: int, keeps: (C, Book) -> bool) {
    forall s, id, known :: TurnKeeps(client, snap, today, keeps, s, id, known)
  }

  lemma {:induction false} KeptByCall<C(!new)>(client: Client<C>, s: Sitting<C>, snap: Ledger, ids: seq<InvoiceId>,
                                               known: Facts,
                                               today: int, keeps: (C, Book) -> bool)
    requires KeptByTurns(client, snap, today, keeps) && keeps(s.c, s.book)
    ensures keeps(Turns(client, s, snap, ids, known, today).c, Turns(client, s, snap, ids, known, today).book)
  {
    if ids != [] {
      var front, id := ids[..|ids| - 1], ids[|ids| - 1];
      KeptByCall(client, s, snap, front, known, today, keeps);
      assert TurnKeeps(client, snap, today, keeps, Turns(client, s, snap, front, known, today), id, known);
    }
  }

  lemma {:induction false} KeptByRound<C(!new)>(client: Client<C>, d: Desk<C>, snap: Ledger, ids: seq<InvoiceId>,
                                                customers: seq<CustomerId>, today: int, keeps: (C, Book) -> bool)
    requires KeptByTurns(client, snap, today, keeps) && keeps(d.c, d.book)
    ensures keeps(Round(client, d, snap, ids, customers, today).c, Round(client, d, snap, ids, customers, today).book)
  {
    if customers != [] {
      var front, customer := customers[..|customers| - 1], customers[|customers| - 1];
      KeptByRound(client, d, snap, ids, front, today, keeps);
      var before, group := Round(client, d, snap, ids, front, today), GroupOf(ids, snap, customer);
      KeptByCall(client, Sitting(before.c, before.book, false), snap, group, FactsOf(before.book, customer), today,
                 keeps);
    }
  }

  lemma KeptByChase<C(!new)>(client: Client<C>, d: Desk<C>, snap: Ledger, today: int, keeps: (C, Book) -> bool)
    requires KeptByTurns(client, snap, today, keeps) && keeps(d.c, d.book)
    ensures keeps(Chased(client, d, snap, today).c, Chased(client, d, snap, today).book)
  {
    KeptByRound(client, d, snap, IdsOf(snap), CustomersIn(snap), today, keeps);
  }
}
