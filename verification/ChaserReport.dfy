/** The report on a run, and what a whole run promises. */
module ChaserReport {
  import opened Wrappers
  import opened ChaserPolicy
  import opened ChaserInvoice
  import opened ChaserRun
  import opened ChaserListing
  import opened ChaserLoop
  import opened ChaserDays

  datatype Row = Row(invoice: InvoiceId, customer: CustomerId, amount: int, lastAction: Option<Rung>)

  /**
   * Recoveries are keyed by the rung last contacted; None stands for "no_contact". Wording and
   * promise tallies are left out.
   */
  datatype Report = Report(contactsByRung: map<Rung, nat>, outstandingStart: int, recovered: int,
                           recoveredByRung: map<Option<Rung>, int>, disputes: nat, exceptions: seq<Row>)

  // ---- Sums, over listings in identifier order

  function Owing(ids: seq<InvoiceId>, l: Ledger): int {
    if ids == [] then 0
    else
      var id := ids[|ids| - 1];
      Owing(ids[..|ids| - 1], l) + if id in l && l[id].status.Open? then l[id].amount else 0
  }

  predicate Collected(id: InvoiceId, initial: Ledger, final: Ledger) {
    id in final && final[id].status.Paid? && id in initial && initial[id].status.Open?
  }

  function Recovered(ids: seq<InvoiceId>, initial: Ledger, final: Ledger): int {
    if ids == [] then 0
    else
      var id := ids[|ids| - 1];
      Recovered(ids[..|ids| - 1], initial, final) + if Collected(id, initial, final) then final[id].amount else 0
  }

  /** What is owed on invoices that were not on the first listing. */
  function Added(ids: seq<InvoiceId>, initial: Ledger, final: Ledger): int {
    if ids == [] then 0
    else
      var id := ids[|ids| - 1];
      Added(ids[..|ids| - 1], initial, final) +
      if id in final && final[id].status.Open? && id !in initial then final[id].amount else 0
  }

  function Credit(lastRung: map<InvoiceId, Rung>, id: InvoiceId): Option<Rung> {
    if id in lastRung then Some(lastRung[id]) else None
  }

  function RecoveredBy(ids: seq<InvoiceId>, initial: Ledger, final: Ledger, lastRung: map<InvoiceId, Rung>,
                       key: Option<Rung>): int
  {
    if ids == [] then 0
    else
      var id := ids[|ids| - 1];
      RecoveredBy(ids[..|ids| - 1], initial, final, lastRung, key) +
      if Collected(id, initial, final) && Credit(lastRung, id) == key then final[id].amount else 0
  }

  ghost predicate Earned(ids: seq<InvoiceId>, initial: Ledger, final: Ledger, lastRung: map<InvoiceId, Rung>,
                         key: Option<Rung>)
  {
    exists k | 0 <= k < |ids| :: Collected(ids[k], initial, final) && Credit(lastRung, ids[k]) == key
  }

  function LastAction(audit: seq<AuditEntry>, id: InvoiceId): Option<Rung> {
    if audit == [] then None
    else if audit[|audit| - 1].invoice == id then Some(audit[|audit| - 1].rung)
    else LastAction(audit[..|audit| - 1], id)
  }

  function Exceptions(ids: seq<InvoiceId>, final: Ledger, audit: seq<AuditEntry>): seq<Row> {
    if ids == [] then []
    else
      var id := ids[|ids| - 1];
      Exceptions(ids[..|ids| - 1], final, audit) +
      if id in final && final[id].status.Open?
      then [Row(id, final[id].customer, final[id].amount, LastAction(audit, id))] else []
  }

  function RowTotal(rows: seq<Row>): int {
    if rows == [] then 0 else RowTotal(rows[..|rows| - 1]) + rows[|rows| - 1].amount
  }

  function ContactsAt(audit: seq<AuditEntry>, r: Rung): nat {
    if audit == [] then 0 else ContactsAt(audit[..|audit| - 1], r) + if audit[|audit| - 1].rung == r then 1 else 0
  }

  function ContactCounts(audit: seq<AuditEntry>): map<Rung, nat> {
    map[Gentle := ContactsAt(audit, Gentle), Firm := ContactsAt(audit, Firm),
                             PaymentLink := ContactsAt(audit, PaymentLink)]
  }

  function Read(m: map<Option<Rung>, int>, key: Option<Rung>): int {
    if key in m then m[key] else 0
  }

  // ---- The report

  method CountContacts(audit: seq<AuditEntry>) returns (counts: map<Rung, nat>)
    ensures counts == ContactCounts(audit)
  {
    var gentle, firm, link := 0, 0, 0;
    for i := 0 to |audit|
      invariant gentle == ContactsAt(audit[..i], Gentle)
      invariant firm == ContactsAt(audit[..i], Firm)
      invariant link == ContactsAt(audit[..i], PaymentLink)
    {
      assert audit[..i + 1][..i] == audit[..i];
      match audit[i].rung {
        case Gentle => gentle := gentle + 1;
        case Firm => firm := firm + 1;
        case PaymentLink => link := link + 1;
        case _ =>
      }
    }
    assert audit[..|audit|] == audit;
    counts := map[Gentle := gentle, Firm := firm, PaymentLink := link];
  }

  /** The source looks every paid invoice up on the first listing, and fails on one that is not there. */
  predicate Unlisted(id: InvoiceId, initial: Ledger, final: Ledger) {
    id in final && final[id].status.Paid? && id !in initial
  }

  method SumRecoveries(ids: seq<InvoiceId>, initial: Ledger, final: Ledger, lastRung: map<InvoiceId, Rung>)
    returns (failed: bool, total: int, byRung: map<Option<Rung>, int>)
    requires forall k | 0 <= k < |ids| :: ids[k] in final
    ensures failed <==> exists k | 0 <= k < |ids| :: Unlisted(ids[k], initial, final)
    ensures !failed ==> total == Recovered(ids, initial, final)
    ensures !failed ==> forall key :: Read(byRung, key) == RecoveredBy(ids, initial, final, lastRung, key)
    ensures !failed ==> forall key | key in byRung :: Earned(ids, initial, final, lastRung, key)
  {
    failed, total, byRung := false, 0, map[];
    for i := 0 to |ids|
      invariant forall k | 0 <= k < i :: !Unlisted(ids[k], initial, final)
      invariant total == Recovered(ids[..i], initial, final)
      invariant forall key :: Read(byRung, key) == RecoveredBy(ids[..i], initial, final, lastRung, key)
      invariant forall key | key in byRung :: Earned(ids, initial, final, lastRung, key)
      invariant !failed
    {
      assert ids[..i + 1][..i] == ids[..i];
      var id := ids[i];
      if final[id].status.Paid? {
        if id !in initial {
          assert Unlisted(ids[i], initial, final);
          failed := true;
          return;
        }
        if initial[id].status.Open? {
          var key := Credit(lastRung, id);
          byRung := byRung[key := Read(byRung, key) + final[id].amount];
          total := total + final[id].amount;
        }
      }
    }
    assert ids[..|ids|] == ids;
  }

  method ListExceptions(ids: seq<InvoiceId>, final: Ledger, latest: map<InvoiceId, Rung>, ghost audit: seq<AuditEntry>)
    returns (rows: seq<Row>)
    requires forall k | 0 <= k < |ids| :: ids[k] in final
    requires forall id :: LastAction(audit, id) == Credit(latest, id)
    ensures rows == Exceptions(ids, final, audit)
  {
    rows := [];
    for i := 0 to |ids|
      invariant rows == Exceptions(ids[..i], final, audit)
    {
      assert ids[..i + 1][..i] == ids[..i];
      var inv := final[ids[i]];
      if inv.status.Paid? {
        continue;
      }
      rows := rows + [Row(ids[i], inv.customer, inv.amount, Credit(latest, ids[i]))];
    }
    assert ids[..|ids|] == ids;
  }

  method LatestActions(audit: seq<AuditEntry>) returns (latest: map<InvoiceId, Rung>)
    ensures forall id :: LastAction(audit, id) == Credit(latest, id)
  {
    latest := map[];
    for i := 0 to |audit|
      invariant forall id :: LastAction(audit[..i], id) == Credit(latest, id)
    {
      assert audit[..i + 1][..i] == audit[..i];
      latest := latest[audit[i].invoice := audit[i].rung];
    }
    assert audit[..|audit|] == audit;
  }

  method SumOwing(ids: seq<InvoiceId>, l: Ledger) returns (total: int)
    requires forall k | 0 <= k < |ids| :: ids[k] in l
    ensures total == Owing(ids, l)
  {
    total := 0;
    for i := 0 to |ids|
      invariant total == Owing(ids[..i], l)
    {
      assert ids[..i + 1][..i] == ids[..i];
      if l[ids[i]].status.Open? {
        total := total + l[ids[i]].amount;
      }
    }
    assert ids[..|ids|] == ids;
  }

  /** The report's money is the run's, listing by listing. */
  ghost predicate Accounts(r: RunResult, rep: Report) {
    var ids := IdsOf(r.final);
    && rep.outstandingStart == Owing(IdsOf(r.initial), r.initial)
    && rep.recovered == Recovered(ids, r.initial, r.final)
    && (forall key :: Read(rep.recoveredByRung, key) == RecoveredBy(ids, r.initial, r.final, r.book.lastRung, key))
    && (forall key | key in rep.recoveredByRung :: Earned(ids, r.initial, r.final, r.book.lastRung, key))
    && rep.exceptions == Exceptions(ids, r.final, r.book.audit)
  }

  /** There is no report exactly when an invoice first listed during the run was paid at its end. */
  method BuildReport(r: RunResult) returns (rep: Option<Report>)
    ensures rep.None? <==> exists id :: Unlisted(id, r.initial, r.final)
    ensures rep.Some? ==> Accounts(r, rep.value)
    ensures rep.Some? ==>
              rep.value.disputes == |r.book.disputes| && rep.value.contactsByRung == ContactCounts(r.book.audit)
  {
    var ids, first := IdsOf(r.final), IdsOf(r.initial);
    IdsAre(r.final);
    IdsAre(r.initial);
    var counts := CountContacts(r.book.audit);
    var owing := SumOwing(first, r.initial);
    var failed, total, byRung := SumRecoveries(ids, r.initial, r.final, r.book.lastRung);
    UnlistedIsFound(r.initial, r.final);
    if failed {
      return None;
    }
    var latest := LatestActions(r.book.audit);
    var rows := ListExceptions(ids, r.final, latest, r.book.audit);
    rep := Some(Report(counts, owing, total, byRung, |r.book.disputes|, rows));
  }

  lemma UnlistedIsFound(initial: Ledger, final: Ledger)
    ensures (exists id :: Unlisted(id, initial, final)) <==>
            exists k | 0 <= k < |IdsOf(final)| :: Unlisted(IdsOf(final)[k], initial, final)
  {
    IdsAre(final);
    if id :| Unlisted(id, initial, final) {
      assert id in IdsOf(final);
    }
  }

  // ---- The exceptions, read off the listing and the log

  /** The last entry about an invoice is its last action; without one it has none. */
  lemma {:induction false} LastActionIs(audit: seq<AuditEntry>, id: InvoiceId, k: int)
    requires -1 <= k < |audit| && (k >= 0 ==> audit[k].invoice == id)
    requires forall j | k < j < |audit| :: audit[j].invoice != id
    ensures LastAction(audit, id) == if k >= 0 then Some(audit[k].rung) else None
  {
    if k < |audit| - 1 {
      LastActionIs(audit[..|audit| - 1], id, k);
    }
  }

  /** One row for every open invoice of `ids` and no other, in order, as the listing has it. */
  ghost predicate RowsOfOpen(rows: seq<Row>, ids: seq<InvoiceId>, final: Ledger, audit: seq<AuditEntry>) {
    && (forall i, j | 0 <= i < j < |rows| :: rows[i].invoice < rows[j].invoice)
    && (forall i | 0 <= i < |rows| ::
          var r := rows[i];
          && r.invoice in ids && r.invoice in final && final[r.invoice].status.Open?
          && r == Row(r.invoice, final[r.invoice].customer, final[r.invoice].amount, LastAction(audit, r.invoice)))
    && (forall id | id in ids && id in final && final[id].status.Open? ::
          exists i :: 0 <= i < |rows| && rows[i].invoice == id)
  }

  lemma OneMoreRow(rows: seq<Row>, front: seq<InvoiceId>, id: InvoiceId, final: Ledger, audit: seq<AuditEntry>)
    requires RowsOfOpen(rows, front, final, audit) && id in final && final[id].status.Open?
    requires forall i | 0 <= i < |rows| :: rows[i].invoice < id
    ensures var more := rows + [Row(id, final[id].customer, final[id].amount, LastAction(audit, id))];
      RowsOfOpen(more, front + [id], final, audit)
  {
    var more := rows + [Row(id, final[id].customer, final[id].amount, LastAction(audit, id))];
    assert more[|rows|].invoice == id;
    forall x | x in front && x in final && final[x].status.Open?
      ensures exists i :: 0 <= i < |more| && more[i].invoice == x
    {
      var i :| 0 <= i < |rows| && rows[i].invoice == x;
      assert more[i].invoice == x;
    }
  }

  lemma NoMoreRow(rows: seq<Row>, front: seq<InvoiceId>, id: InvoiceId, final: Ledger, audit: seq<AuditEntry>)
    requires RowsOfOpen(rows, front, final, audit) && !(id in final && final[id].status.Open?)
    ensures RowsOfOpen(rows + [], front + [id], final, audit)
  {
    assert rows + [] == rows;
  }

  lemma {:induction false} ExceptionsAre(ids: seq<InvoiceId>, final: Ledger, audit: seq<AuditEntry>)
    requires Ascends(ids)
    ensures RowsOfOpen(Exceptions(ids, final, audit), ids, final, audit)
  {
    if ids != [] {
      var front, id := ids[..|ids| - 1], ids[|ids| - 1];
      var before := Exceptions(front, final, audit);
      AscendingRest(ids);
      ExceptionsAre(front, final, audit);
      assert ids == front + [id];
      if id in final && final[id].status.Open? {
        forall i | 0 <= i < |before| ensures before[i].invoice < id {
          EarlierIds(ids, before[i].invoice);
        }
        OneMoreRow(before, front, id, final, audit);
      } else {
        NoMoreRow(before, front, id, final, audit);
      }
    }
  }

  lemma EarlierIds(ids: seq<InvoiceId>, x: InvoiceId)
    requires Ascends(ids) && ids != [] && x in ids[..|ids| - 1]
    ensures x < ids[|ids| - 1]
  {
    var i :| 0 <= i < |ids[..|ids| - 1]| && ids[..|ids| - 1][i] == x;
  }

  // ---- The counts, from the contacts of each invoice

  function AtRung(c: seq<Contact>, r: Rung): nat {
    if c == [] then 0 else AtRung(c[..|c| - 1], r) + if c[|c| - 1].rung == r then 1 else 0
  }

  function ByInvoice(audit: seq<AuditEntry>, ids: seq<InvoiceId>, r: Rung): nat {
    if ids == [] then 0
    else ByInvoice(audit, ids[..|ids| - 1], r) + AtRung(Contacts(audit, ids[|ids| - 1]), r)
  }

  lemma AtRungNext(audit: seq<AuditEntry>, e: AuditEntry, id: InvoiceId, r: Rung)
    requires IsContact(r)
    ensures AtRung(Contacts(audit + [e], id), r) ==
            AtRung(Contacts(audit, id), r) + if e.invoice == id && e.rung == r then 1 else 0
  {
    LogAppends(audit, e, id, e.customer);
    var c := Contacts(audit, id);
    if e.invoice == id && IsContact(e.rung) {
      assert (c + [Contact(e.day, e.rung)])[..|c|] == c;
    } else {
      assert c + [] == c;
    }
  }

  function Occurs(ids: seq<InvoiceId>, x: InvoiceId): nat {
    if ids == [] then 0 else Occurs(ids[..|ids| - 1], x) + if ids[|ids| - 1] == x then 1 else 0
  }

  lemma {:induction false} OccursOnce(ids: seq<InvoiceId>, k: int)
    requires Ascends(ids) && -1 <= k < |ids|
    ensures k >= 0 ==> Occurs(ids, ids[k]) == 1
    ensures forall x | k == -1 && (forall j | 0 <= j < |ids| :: ids[j] < x) :: Occurs(ids, x) == 0
  {
    if ids != [] {
      var last := |ids| - 1;
      var front := ids[..last];
      OccursOnce(front, if k == last then -1 else k);
      assert forall j | 0 <= j < last :: front[j] == ids[j];
    }
  }

  lemma {:induction false} ByInvoiceNext(audit: seq<AuditEntry>, e: AuditEntry, ids: seq<InvoiceId>, r: Rung)
    requires IsContact(r)
    ensures ByInvoice(audit + [e], ids, r) ==
            ByInvoice(audit, ids, r) + if e.rung == r then Occurs(ids, e.invoice) else 0
  {
    if ids != [] {
      ByInvoiceNext(audit, e, ids[..|ids| - 1], r);
      AtRungNext(audit, e, ids[|ids| - 1], r);
    }
  }

  lemma {:induction false} NoneByInvoice(ids: seq<InvoiceId>, r: Rung)
    ensures ByInvoice([], ids, r) == 0
  {
    if ids != [] {
      NoneByInvoice(ids[..|ids| - 1], r);
    }
  }

  lemma ContactsNext(front: seq<AuditEntry>, e: AuditEntry, r: Rung)
    ensures ContactsAt(front + [e], r) == ContactsAt(front, r) + if e.rung == r then 1 else 0
  {
    assert (front + [e])[..|front|] == front;
  }

  function IndexOf(ids: seq<InvoiceId>, x: InvoiceId): (k: int)
    requires x in ids
    ensures 0 <= k < |ids| && ids[k] == x
  {
    if ids[|ids| - 1] == x then |ids| - 1
    else
      assert ids == ids[..|ids| - 1] + [ids[|ids| - 1]];
      IndexOf(ids[..|ids| - 1], x)
  }

  lemma {:induction false} CountsAddUp(audit: seq<AuditEntry>, ids: seq<InvoiceId>, r: Rung)
    requires IsContact(r) && forall k | 0 <= k < |audit| :: Occurs(ids, audit[k].invoice) == 1
    ensures ContactsAt(audit, r) == ByInvoice(audit, ids, r)
  {
    if audit == [] {
      NoneByInvoice(ids, r);
    } else {
      var front, e := audit[..|audit| - 1], audit[|audit| - 1];
      CountsAddUp(front, ids, r);
      ByInvoiceNext(front, e, ids, r);
      ContactsNext(front, e, r);
      assert Occurs(ids, audit[|audit| - 1].invoice) == 1;
      assert audit == front + [e];
    }
  }

  lemma AllOccurOnce(audit: seq<AuditEntry>, ids: seq<InvoiceId>)
    requires Ascends(ids) && forall k | 0 <= k < |audit| :: audit[k].invoice in ids
    ensures forall k | 0 <= k < |audit| :: Occurs(ids, audit[k].invoice) == 1
  {
    forall k | 0 <= k < |audit| ensures Occurs(ids, audit[k].invoice) == 1 {
      OccursOnce(ids, IndexOf(ids, audit[k].invoice));
    }
  }

  lemma CountsOfRungs(audit: seq<AuditEntry>, r: Rung)
    ensures r in ContactCounts(audit) <==> IsContact(r)
    ensures IsContact(r) ==> ContactCounts(audit)[r] == ContactsAt(audit, r)
  {
  }

  /** The report counts, at each of the three rungs, the contacts of every invoice listed at the end. */
  lemma RunCountsContacts<C(!new)>(client: Client<C>, c0: C, start: int, n: nat, r: Rung) returns (s: Tally<C>)
    requires Honest(client) && WellKeyed(client.ledger(c0)) && n > 0
    ensures s == AfterDays(client, c0, start, n)
    ensures r in ContactCounts(s.book.audit) <==> r in {Gentle, Firm, PaymentLink}
    ensures r in ContactCounts(s.book.audit) ==>
              ContactCounts(s.book.audit)[r] == ByInvoice(s.book.audit, IdsOf(s.final), r)
  {
    s := AfterDays(client, c0, start, n);
    RunStands(client, c0, start, n);
    IdsAre(s.final);
    CountsOfRungs(s.book.audit, r);
    AllOccurOnce(s.book.audit, IdsOf(s.final));
    if IsContact(r) {
      CountsAddUp(s.book.audit, IdsOf(s.final), r);
    }
  }

  // ---- Conservation of money

  lemma {:induction false} RowsSum(rows: seq<Row>, more: seq<Row>)
    requires |more| <= 1
    ensures RowTotal(rows + more) == RowTotal(rows) + if more == [] then 0 else more[0].amount
  {
    if more == [] {
      assert rows + more == rows;
    } else {
      assert (rows + more)[..|rows|] == rows;
    }
  }

  lemma {:induction false} SumsBalance(ids: seq<InvoiceId>, initial: Ledger, final: Ledger, audit: seq<AuditEntry>)
    requires Moves(initial, final)
    ensures Owing(ids, initial) + Added(ids, initial, final) ==
            Recovered(ids, initial, final) + RowTotal(Exceptions(ids, final, audit))
  {
    if ids != [] {
      var front, id := ids[..|ids| - 1], ids[|ids| - 1];
      SumsBalance(front, initial, final, audit);
      if id in initial {
        assert MovesOn(initial[id], final[id]);
      }
      RowsSum(Exceptions(front, final, audit),
              if id in final && final[id].status.Open?
              then [Row(id, final[id].customer, final[id].amount, LastAction(audit, id))] else []);
    }
  }

  function Kept(ids: seq<InvoiceId>, l: Ledger): seq<InvoiceId> {
    if ids == [] then []
    else Kept(ids[..|ids| - 1], l) + if ids[|ids| - 1] in l then [ids[|ids| - 1]] else []
  }

  lemma {:induction false} KeptHas(ids: seq<InvoiceId>, l: Ledger)
    ensures forall id :: id in Kept(ids, l) <==> id in ids && id in l
  {
    if ids != [] {
      KeptHas(ids[..|ids| - 1], l);
      assert ids == ids[..|ids| - 1] + [ids[|ids| - 1]];
    }
  }

  lemma {:induction false} KeptAscends(ids: seq<InvoiceId>, l: Ledger)
    requires Ascends(ids)
    ensures Ascends(Kept(ids, l)) && forall k | 0 <= k < |Kept(ids, l)| :: Kept(ids, l)[k] <= ids[|ids| - 1]
  {
    if ids != [] {
      var front := ids[..|ids| - 1];
      KeptAscends(front, l);
      assert front != [] ==> front[|front| - 1] < ids[|ids| - 1];
    }
  }

  lemma {:induction false} OwingSkips(ids: seq<InvoiceId>, l: Ledger)
    ensures Owing(ids, l) == Owing(Kept(ids, l), l)
  {
    if ids != [] {
      var front, id := ids[..|ids| - 1], ids[|ids| - 1];
      OwingSkips(front, l);
      if id in l {
        assert Kept(ids, l)[..|Kept(ids, l)| - 1] == Kept(front, l);
      } else {
        assert Kept(front, l) + [] == Kept(front, l);
      }
    }
  }

  lemma OwingOverAll(initial: Ledger, final: Ledger)
    requires Moves(initial, final)
    ensures Owing(IdsOf(final), initial) == Owing(IdsOf(initial), initial)
  {
    IdsAre(initial);
    IdsAre(final);
    KeptHas(IdsOf(final), initial);
    KeptAscends(IdsOf(final), initial);
    ListingUnique(Kept(IdsOf(final), initial), IdsOf(initial));
    OwingSkips(IdsOf(final), initial);
  }

  /** What was owed, at the start or on invoices added since, is what was recovered and what is listed as not. */
  lemma MoneyIsConserved(initial: Ledger, final: Ledger, audit: seq<AuditEntry>)
    requires Moves(initial, final)
    ensures var ids := IdsOf(final);
      Owing(IdsOf(initial), initial) + Added(ids, initial, final) ==
      Recovered(ids, initial, final) + RowTotal(Exceptions(ids, final, audit))
  {
    SumsBalance(IdsOf(final), initial, final, audit);
    OwingOverAll(initial, final);
  }

  /** Every recovery is credited once: to one of the three contact rungs, or to none. */
  lemma {:induction false} CreditsAddUp(ids: seq<InvoiceId>, initial: Ledger, final: Ledger, lastRung: map<InvoiceId,
                                        Rung>)
    requires forall k | 0 <= k < |ids| :: ids[k] in lastRung ==> IsContact(lastRung[ids[k]])
    ensures Recovered(ids, initial, final) ==
            RecoveredBy(ids, initial, final, lastRung, Some(Gentle)) +
            RecoveredBy(ids, initial, final, lastRung, Some(Firm)) +
            RecoveredBy(ids, initial, final, lastRung, Some(PaymentLink)) +
            RecoveredBy(ids, initial, final, lastRung, None)
  {
    if ids != [] {
      CreditsAddUp(ids[..|ids| - 1], initial, final, lastRung);
    }
  }

  lemma {:induction false} NothingUncredited(ids: seq<InvoiceId>, initial: Ledger, final: Ledger,
                                             lastRung: map<InvoiceId, Rung>)
    requires forall k | 0 <= k < |ids| && Collected(ids[k], initial, final) :: ids[k] in lastRung
    ensures RecoveredBy(ids, initial, final, lastRung, None) == 0
  {
    if ids != [] {
      NothingUncredited(ids[..|ids| - 1], initial, final, lastRung);
    }
  }

  // ---- What a whole run promises, whatever the client answered

  lemma InvoiceStands<C(!new)>(client: Client<C>, c0: C, start: int, n: nat, id: InvoiceId)
    requires Honest(client) && WellKeyed(client.ledger(c0)) && n > 0
    ensures var s := AfterDays(client, c0, start, n);
      && Standing(client, s, start, start + n)
      && (id in s.final ==> s.final[id].id == id && BookOk(s.book, s.final[id]))
  {
    RunStands(client, c0, start, n);
    assert OkAt(AfterDays(client, c0, start, n).book, AfterDays(client, c0, start, n).final, id);
  }

  /**
   * Contact limits: at most twelve in all and three in any 14 days for an invoice that is due when
   * it is first listed: by the start of the run, or after `k` days of it.
   */
  lemma RunKeepsContactLimits<C(!new)>(client: Client<C>, c0: C, start: int, k: nat, n: nat, id: InvoiceId, w: int)
    requires Honest(client) && WellKeyed(client.ledger(c0)) && k < n
    requires k > 0 ==> id !in AfterDays(client, c0, start, k).final
    requires id in AfterDays(client, c0, start, n).final && AfterDays(client, c0, start, n).final[id].due <= start + k
    ensures var c := Contacts(AfterDays(client, c0, start, n).book.audit, id); |c| <= 12 && CountIn(Days(c), w) <= 3
  {
    var s := AfterDays(client, c0, start, n);
    var inv := s.final[id];
    var f, c, humans := FactsOf(s.book, inv.customer), Contacts(s.book.audit, id), Humans(s.book.audit, id);
    InvoiceStands(client, c0, start, n, id);
    ContactedOnlyOnceListed(client, c0, start, k, n, id);
    AtMostTwelveContacts(f, c, humans, inv);
    ContactsArePaced(f, c, humans, inv, w);
  }

  /** No customer is contacted twice on one day, and an invoice's rungs never step down. */
  lemma RunClimbsTheLadder<C(!new)>(client: Client<C>, c0: C, start: int, n: nat, id: InvoiceId, customer: CustomerId)
    requires Honest(client) && WellKeyed(client.ledger(c0)) && n > 0 && id in AfterDays(client, c0, start, n).final
    ensures var book := AfterDays(client, c0, start, n).book;
      Rising(CustomerDays(book.audit, customer)) && Climbing(Contacts(book.audit, id)) && Humans(book.audit, id) <= 1
  {
    InvoiceStands(client, c0, start, n, id);
  }

  /** A dispute, an escalation and a recorded payment end contact; a promise suspends it until its date is past. */
  lemma RunRespectsAnswers<C(!new)>(client: Client<C>, c0: C, start: int, n: nat, id: InvoiceId, note: Note,
                                    contact: Contact)
    requires Honest(client) && WellKeyed(client.ledger(c0)) && n > 0
    requires var s := AfterDays(client, c0, start, n);
      && id in s.final && note in Notes(s.book, s.final[id].customer) && note.invoice == id
      && contact in Contacts(s.book.audit, id)
    ensures note.DisputeNote? || note.PaymentNote? ==> contact.day <= note.day
    ensures note.EscalationNote? ==> contact.day < note.day
    ensures note.PromiseNote? ==> contact.day <= note.day || contact.day > note.until
  {
    var s := AfterDays(client, c0, start, n);
    InvoiceStands(client, c0, start, n, id);
    NoteIsParsed(Notes(s.book, s.final[id].customer), note);
    var j :| 0 <= j < |Contacts(s.book.audit, id)| && Contacts(s.book.audit, id)[j] == contact;
  }

  /** An invoice that was paid on the first listing is never contacted, nor noted as paid. */
  lemma RunSparesThePaid<C(!new)>(client: Client<C>, c0: C, start: int, n: nat, id: InvoiceId)
    requires Honest(client) && WellKeyed(client.ledger(c0)) && n > 0 &&
             PaidFirst(AfterDays(client, c0, start, n).initial, id)
    ensures var s := AfterDays(client, c0, start, n);
      Contacts(s.book.audit, id) == [] && id in s.final && !HasPayment(FactsOf(s.book, s.final[id].customer), id)
  {
    var s := AfterDays(client, c0, start, n);
    InvoiceStands(client, c0, start, n, id);
    assert LastAt(s.book, id) && NotedAt(s.book, s.final, s.initial, s.paid, id);
  }

  lemma {:induction false} NoteIsParsed(notes: seq<Note>, n: Note)
    requires n in notes
    ensures var f := Parsed(notes);
      && (n.DisputeNote? ==> Dated(n.day, n.invoice) in f.disputes)
      && (n.PaymentNote? ==> Dated(n.day, n.invoice) in f.payments)
      && (n.EscalationNote? ==> Dated(n.day, n.invoice) in f.escalations)
      && (n.PromiseNote? ==> Pledge(n.day, n.invoice, n.until) in f.promises)
  {
    var front, last := notes[..|notes| - 1], notes[|notes| - 1];
    assert notes == front + [last];
    if n in front {
      NoteIsParsed(front, n);
    }
  }

  /** Payments are noted exactly for the invoices that are paid at the end and were not on the first listing. */
  lemma RunNotesPayments<C(!new)>(client: Client<C>, c0: C, start: int, n: nat, id: InvoiceId)
    requires Honest(client) && WellKeyed(client.ledger(c0)) && n > 0 && id in AfterDays(client, c0, start, n).final
    ensures var s := AfterDays(client, c0, start, n);
      HasPayment(FactsOf(s.book, s.final[id].customer), id) <==> s.final[id].status.Paid? && !PaidFirst(s.initial, id)
  {
    var s := AfterDays(client, c0, start, n);
    InvoiceStands(client, c0, start, n, id);
    assert NotedAt(s.book, s.final, s.initial, s.paid, id);
  }
}
