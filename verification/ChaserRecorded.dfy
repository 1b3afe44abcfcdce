/**
 * The recorded client: customers answer by script, promises fall due, invoices get paid. Its state as a
 * value, the object that updates it in place, and the money accounting of a run against it.
 */
module ChaserRecorded {
  import opened Wrappers
  import opened ChaserPolicy
  import opened ChaserInvoice
  import opened ChaserRun
  import opened ChaserListing
  import opened ChaserLoop
  import opened ChaserStanding
  import opened ChaserDays
  import opened ChaserAgent
  import opened ChaserReport

  datatype Behavior =
    | PaysAfterFirstContact
    | PromiseThenPay
    | PromiseThenMiss
    | RaisesDispute
    | Unreachable
    | AlreadyPaid

  datatype Pending = Pending(date: int, keep: bool)

  datatype World = World(behaviors: map<CustomerId, Behavior>, invoices: Ledger, pending: map<InvoiceId, Pending>,
                         replied: set<InvoiceId>)

  function MarkedPaid(l: Ledger, id: InvoiceId, day: int): Ledger {
    if id in l then l[id := l[id].(status := Paid, paidOn := Some(day))] else l
  }

  function AfterDue(w: World, id: InvoiceId, due: seq<InvoiceId>): Invoice
    requires id in w.invoices
  {
    if id in due && id in w.pending && w.pending[id].keep
    then w.invoices[id].(status := Paid, paidOn := Some(w.pending[id].date)) else w.invoices[id]
  }

  /** The promises of `due` leave the pending list, and the kept ones are paid on their date. */
  function SettledFor(w: World, due: seq<InvoiceId>): World {
    w.(pending := map id | id in w.pending && id !in due :: w.pending[id],
       invoices := map id | id in w.invoices :: AfterDue(w, id, due))
  }

  function DueBy(w: World, asOf: int): set<InvoiceId> {
    set id | id in w.pending && w.pending[id].date <= asOf
  }

  function Resolved(w: World, asOf: int): World {
    SettledFor(w, SortedIds(DueBy(w, asOf)))
  }

  lemma SettleOne(w: World, done: seq<InvoiceId>, id: InvoiceId)
    requires id in w.pending && id in w.invoices && id !in done
    ensures var s, t := SettledFor(w, done), SettledFor(w, done + [id]);
      && id in s.pending && s.pending[id] == w.pending[id] && t.pending == s.pending - {id}
      && t.invoices == if w.pending[id].keep then MarkedPaid(s.invoices, id, w.pending[id].date) else s.invoices
  {
  }

  lemma SettledForNone(w: World)
    ensures SettledFor(w, []) == w
  {
    assert SettledFor(w, []).pending == w.pending;
    assert SettledFor(w, []).invoices == w.invoices;
  }

  function BehaviorOf(w: World, c: CustomerId): Behavior {
    if c in w.behaviors then w.behaviors[c] else Unreachable
  }

  /** A customer's answer to a contact; a promise or a dispute is given once per invoice, then silence. */
  function Answered(w: World, inv: Invoice, asOf: int): (World, Reply) {
    match BehaviorOf(w, inv.customer)
    case PaysAfterFirstContact => (w.(invoices := MarkedPaid(w.invoices, inv.id, asOf)), Other)
    case PromiseThenPay =>
      if inv.id in w.replied then (w, Silent)
      else (w.(replied := w.replied + {inv.id}, pending := w.pending[inv.id := Pending(asOf + 6, true)]),
            Promising(asOf + 6))
    case PromiseThenMiss =>
      if inv.id in w.replied then (w, Silent)
      else (w.(replied := w.replied + {inv.id}, pending := w.pending[inv.id := Pending(asOf + 5, false)]),
            Promising(asOf + 5))
    case RaisesDispute =>
      if inv.id in w.replied then (w, Silent) else (w.(replied := w.replied + {inv.id}), Disputing)
    case Unreachable => (w, Silent)
    case AlreadyPaid => (w, Silent)
  }

  function Recorded(): Client<World> {
    Client((w: World) => w.invoices, Resolved, Answered)
  }

  class RecordedRazorpay {
    const behaviors: map<CustomerId, Behavior>
    var invoices: Ledger
    var pending: map<InvoiceId, Pending>
    var replied: set<InvoiceId>

    /** Promises are only ever pending for invoices the client holds. */
    predicate Valid()
      reads this
    {
      pending.Keys <= invoices.Keys
    }

    constructor (behaviors: map<CustomerId, Behavior>, invoices: Ledger)
      ensures Valid() && View() == World(behaviors, invoices, map[], {})
    {
      this.behaviors, this.invoices := behaviors, invoices;
      pending, replied := map[], {};
    }

    function View(): World
      reads this
    {
      World(behaviors, invoices, pending, replied)
    }

    method MarkPaid(id: InvoiceId, day: int)
      requires id in invoices
      modifies this`invoices
      ensures invoices == MarkedPaid(old(invoices), id, day)
    {
      invoices := invoices[id := invoices[id].(status := Paid, paidOn := Some(day))];
    }

    /** The due promises are listed first, then settled one by one; their order makes no difference. */
    method ResolvePending(asOf: int)
      requires Valid()
      modifies this`invoices, this`pending
      ensures Valid() && View() == Resolved(old(View()), asOf)
    {
      var was := View();
      var due := SortedIds(DueBy(was, asOf));
      SortedIdsAre(DueBy(was, asOf));
      SortedIdsHold(DueBy(was, asOf));
      SettledForNone(was);
      for i := 0 to |due|
        invariant View() == SettledFor(was, due[..i])
      {
        var id := due[i];
        SettleOne(was, due[..i], id);
        assert due[..i + 1] == due[..i] + [id];
        var promise := pending[id];
        pending := pending - {id};
        if promise.keep {
          MarkPaid(id, promise.date);
        }
      }
      assert due[..|due|] == due;
    }

    method Contact(inv: Invoice, asOf: int) returns (reply: Reply)
      requires Valid() && inv.id in invoices && inv.customer in behaviors
      modifies this
      ensures Valid() && (View(), reply) == Answered(old(View()), inv, asOf)
    {
      var behavior := behaviors[inv.customer];
      if behavior.PaysAfterFirstContact? {
        MarkPaid(inv.id, asOf);
        return Other;
      }
      if behavior.PromiseThenPay? || behavior.PromiseThenMiss? {
        if inv.id in replied {
          return Silent;
        }
        replied := replied + {inv.id};
        var offset := if behavior.PromiseThenPay? then 6 else 5;
        pending := pending[inv.id := Pending(asOf + offset, behavior.PromiseThenPay?)];
        return Promising(asOf + offset);
      }
      if behavior.RaisesDispute? {
        if inv.id in replied {
          return Silent;
        }
        replied := replied + {inv.id};
        return Disputing;
      }
      return Silent;
    }
  }

  // ---- How each script plays out

  predicate PaidOn(w: World, id: InvoiceId, day: int) {
    id in w.invoices && w.invoices[id].status.Paid? && w.invoices[id].paidOn == Some(day)
  }

  /** Between `w` and `w'` no other invoice and no other pending promise changed. */
  ghost predicate OnlyAboutOne(w: World, w': World, id: InvoiceId) {
    && w'.behaviors == w.behaviors && w'.invoices.Keys == w.invoices.Keys
    && (forall x | x in w.invoices && x != id :: w'.invoices[x] == w.invoices[x])
    && (forall x | x != id ::
          (x in w.pending <==> x in w'.pending) && (x in w.pending ==> w'.pending[x] == w.pending[x]))
  }

  /**
   * The first contact about an open invoice, by the customer's script, and what the days after it
   * bring: paid at once; promised for six days on and paid then; promised for five days on and never
   * paid; disputed; or nothing. After a promise or a dispute the customer is silent.
   */
  lemma ScriptsPlayOut(w: World, id: InvoiceId, day: int, later: int)
    requires id in w.invoices && w.invoices[id].id == id && w.invoices[id].status.Open?
    requires id !in w.replied && id !in w.pending && later >= day
    ensures var inv := w.invoices[id];
      var (w', reply) := Answered(w, inv, day);
      var done := Resolved(w', later);
      && OnlyAboutOne(w, w', id)
      && match BehaviorOf(w, inv.customer)
         case PaysAfterFirstContact => reply == Other && PaidOn(w', id, day) && PaidOn(done, id, day)
         case PromiseThenPay =>
           && reply == Promising(day + 6) && w'.invoices == w.invoices && Answered(w', inv, later) == (w', Silent)
           && if later >= day + 6 then PaidOn(done, id, day + 6) && id !in done.pending
              else done.invoices[id] == inv && id in done.pending
         case PromiseThenMiss =>
           && reply == Promising(day + 5) && w'.invoices == w.invoices && Answered(w', inv, later) == (w', Silent)
           && done.invoices[id] == inv && (id in done.pending <==> later < day + 5)
         case RaisesDispute =>
           reply == Disputing && done.invoices[id] == inv && Answered(w', inv, later) == (w', Silent)
         case _ => reply == Silent && w' == w && done.invoices[id] == inv
  {
    var w' := Answered(w, w.invoices[id], day).0;
    SortedIdsAre(DueBy(w', later));
    assert id in SortedIds(DueBy(w', later)) <==> id in DueBy(w', later);
  }

  // ---- The recorded client is an honest one, and pays only for contacts

  lemma ResolvedMoves(w: World, day: int)
    ensures Moves(w.invoices, Resolved(w, day).invoices)
  {
  }

  lemma AnsweredMoves(w: World, inv: Invoice, day: int)
    ensures Moves(w.invoices, Answered(w, inv, day).0.invoices)
  {
  }

  lemma RecordedIsHonest()
    ensures Honest(Recorded())
  {
    var client := Recorded();
    forall w, day ensures Moves(client.ledger(w), client.ledger(client.resolve(w, day))) {
      ResolvedMoves(w, day);
    }
    forall w, inv, day ensures Moves(client.ledger(w), client.ledger(client.contact(w, inv, day).0)) {
      AnsweredMoves(w, inv, day);
    }
  }

  /** No invoice was added since `first`, and every one paid since, or promised, was contacted. */
  ghost predicate FundedBy(first: Ledger, w: World, contacted: set<InvoiceId>) {
    && (forall id :: id in w.invoices <==> id in first)
    && (forall id | id in w.invoices && id in first && w.invoices[id].status.Paid? && first[id].status.Open? ::
           id in contacted)
    && (forall id | id in w.pending :: id in contacted)
  }

  ghost function Funds(first: Ledger): (World, set<InvoiceId>) -> bool {
    (w, contacted) => FundedBy(first, w, contacted)
  }

  lemma RecordedPaysForContacts(first: Ledger)
    ensures KeptByContacts(Recorded(), Funds(first))
  {
    var funds := Funds(first);
    forall w, s, day | funds(w, s) ensures funds(Recorded().resolve(w, day), s) {
      ResolvedIsFunded(first, w, s, day);
    }
    forall w, s, inv, day | funds(w, s) ensures funds(Recorded().contact(w, inv, day).0, s + {inv.id}) {
      AnsweredIsFunded(first, w, s, inv, day);
    }
  }

  lemma ResolvedIsFunded(first: Ledger, w: World, s: set<InvoiceId>, day: int)
    requires FundedBy(first, w, s)
    ensures FundedBy(first, Resolved(w, day), s)
  {
  }

  lemma AnsweredIsFunded(first: Ledger, w: World, s: set<InvoiceId>, inv: Invoice, day: int)
    requires FundedBy(first, w, s)
    ensures FundedBy(first, Answered(w, inv, day).0, s + {inv.id})
  {
  }

  lemma NothingPendingResolves(behaviors: map<CustomerId, Behavior>, invoices: Ledger, day: int)
    ensures Resolved(World(behaviors, invoices, map[], {}), day).invoices == invoices
  {
  }

  /** The state of a recorded run at the end of its `n` days. */
  function RecordedRun(behaviors: map<CustomerId, Behavior>, invoices: Ledger, start: int, n: nat): Tally<World> {
    AfterDays(Recorded(), World(behaviors, invoices, map[], {}), start, n)
  }

  /** What a run of the recorded client leaves: the general promises, and payments only for contacts. */
  ghost predicate Settles(invoices: Ledger, s: Tally<World>, start: int, end: int) {
    Standing(Recorded(), s, start, end) && s.initial == invoices && FundedBy(invoices, s.c, s.book.lastRung.Keys)
  }

  lemma RecordedRunSettles(behaviors: map<CustomerId, Behavior>, invoices: Ledger, start: int, n: nat)
    requires WellKeyed(invoices) && n > 0
    ensures Settles(invoices, RecordedRun(behaviors, invoices, start, n), start, start + n)
  {
    var w := World(behaviors, invoices, map[], {});
    RecordedIsHonest();
    RecordedPaysForContacts(invoices);
    NothingPendingResolves(behaviors, invoices, start);
    assert Funds(invoices)(w, {});
    RunStands(Recorded(), w, start, n);
    RunKeepsFunds(Recorded(), Funds(invoices), w, start, n);
    FirstListing(Recorded(), w, start, n);
  }

  lemma CreditedRungs(book: Book, l: Ledger, id: InvoiceId)
    requires AllOk(book, l) && WellKeyed(l) && id in l && id in book.lastRung
    ensures IsContact(book.lastRung[id])
  {
    assert OkAt(book, l, id) && LastAt(book, id);
  }

  lemma {:induction false} NothingAdded(ids: seq<InvoiceId>, initial: Ledger, final: Ledger)
    requires forall id | id in final :: id in initial
    ensures Added(ids, initial, final) == 0
  {
    if ids != [] {
      NothingAdded(ids[..|ids| - 1], initial, final);
    }
  }

  /** Money is conserved over every recorded run, and every rupee recovered is credited to a contact. */
  lemma RecordedRunAccounts(behaviors: map<CustomerId, Behavior>, invoices: Ledger, start: int, n: nat)
    requires WellKeyed(invoices) && n > 0
    ensures var s := RecordedRun(behaviors, invoices, start, n);
      var ids := IdsOf(s.final);
      && Owing(IdsOf(invoices), invoices) ==
         Recovered(ids, invoices, s.final) + RowTotal(Exceptions(ids, s.final, s.book.audit))
      && Recovered(ids, invoices, s.final) ==
         RecoveredBy(ids, invoices, s.final, s.book.lastRung, Some(Gentle)) +
         RecoveredBy(ids, invoices, s.final, s.book.lastRung, Some(Firm)) +
         RecoveredBy(ids, invoices, s.final, s.book.lastRung, Some(PaymentLink))
      && (forall id | Collected(id, invoices, s.final) :: id in s.book.lastRung)
      && (forall id :: !Unlisted(id, invoices, s.final))
  {
    var s := RecordedRun(behaviors, invoices, start, n);
    RecordedRunSettles(behaviors, invoices, start, n);
    SettledAccounts(invoices, s, start, start + n);
  }

  lemma SettledAccounts(invoices: Ledger, s: Tally<World>, start: int, end: int)
    requires Settles(invoices, s, start, end)
    ensures var ids := IdsOf(s.final);
      && Owing(IdsOf(invoices), invoices) ==
         Recovered(ids, invoices, s.final) + RowTotal(Exceptions(ids, s.final, s.book.audit))
      && Recovered(ids, invoices, s.final) ==
         RecoveredBy(ids, invoices, s.final, s.book.lastRung, Some(Gentle)) +
         RecoveredBy(ids, invoices, s.final, s.book.lastRung, Some(Firm)) +
         RecoveredBy(ids, invoices, s.final, s.book.lastRung, Some(PaymentLink))
      && (forall id | Collected(id, invoices, s.final) :: id in s.book.lastRung)
      && (forall id :: !Unlisted(id, invoices, s.final))
  {
    var ids := IdsOf(s.final);
    assert Recorded().ledger(s.c) == s.c.invoices;
    IdsAre(s.final);
    MoneyIsConserved(invoices, s.final, s.book.audit);
    NothingAdded(ids, invoices, s.final);
    forall k | 0 <= k < |ids| && ids[k] in s.book.lastRung ensures IsContact(s.book.lastRung[ids[k]]) {
      CreditedRungs(s.book, s.final, ids[k]);
    }
    CreditsAddUp(ids, invoices, s.final, s.book.lastRung);
    NothingUncredited(ids, invoices, s.final, s.book.lastRung);
  }

  predicate Balances(rep: Report) {
    && rep.outstandingStart == rep.recovered + RowTotal(rep.exceptions)
    && rep.recovered == Read(rep.recoveredByRung, Some(Gentle)) + Read(rep.recoveredByRung, Some(Firm)) +
                        Read(rep.recoveredByRung, Some(PaymentLink))
    && None !in rep.recoveredByRung
  }

  /** The report of a recorded run balances. */
  lemma RecordedReportBalances(behaviors: map<CustomerId, Behavior>, invoices: Ledger, start: int, n: nat, r: RunResult,
                               rep: Report)
    requires WellKeyed(invoices) && n > 0 && Accounts(r, rep)
    requires var s := RecordedRun(behaviors, invoices, start, n); r == RunResult(s.book, invoices, s.final)
    ensures Balances(rep)
  {
    RecordedRunAccounts(behaviors, invoices, start, n);
    assert !Earned(IdsOf(r.final), invoices, r.final, r.book.lastRung, None);
  }

  lemma EmptyReportBalances(r: RunResult, rep: Report)
    requires r == RunResult(BLANK, map[], map[]) && Accounts(r, rep)
    ensures Balances(rep)
  {
    assert SortedIds({}) == [];
  }

  /** A recorded run and its report, which there always is. */
  method RunRecorded(behaviors: map<CustomerId, Behavior>, invoices: Ledger, start: int, days: nat)
    returns (r: RunResult, rep: Report)
    requires WellKeyed(invoices)
    ensures var s := RecordedRun(behaviors, invoices, start, days); r == RunResult(s.book, s.initial, s.final)
    ensures days > 0 ==> r.initial == invoices && Moves(invoices, r.final)
    ensures Accounts(r, rep) && Balances(rep)
  {
    var s := Run(Recorded(), World(behaviors, invoices, map[], {}), start, days);
    r := RunResult(s.book, s.initial, s.final);
    var built := BuildReport(r);
    if days > 0 {
      RecordedRunSettles(behaviors, invoices, start, days);
      RecordedRunAccounts(behaviors, invoices, start, days);
      rep := built.value;
      RecordedReportBalances(behaviors, invoices, start, days, r, rep);
    } else {
      assert r.final == map[];
      rep := built.value;
      EmptyReportBalances(r, rep);
    }
  }
}
