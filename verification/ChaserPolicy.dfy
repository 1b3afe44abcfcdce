/**
 * The chaser's decision table over the facts read back from a customer's notes. Days are numbered;
 * customers and invoices are numbered in the order of their identifiers.
 */
module ChaserPolicy {
  import opened Wrappers

  type InvoiceId = int
  type CustomerId = int

  datatype Status = Open | Paid

  datatype Invoice = Invoice(id: InvoiceId, customer: CustomerId, amount: int, due: int, status: Status,
                             paidOn: Option<int>)

  datatype Rung = Gentle | Firm | PaymentLink | Human
                | SkipPaid | SkipDispute | SkipEscalated | SkipPromise | SkipSameDay | SkipRateLimited

  datatype Action = Action(rung: Rung, brokePromise: bool)

  predicate IsContact(r: Rung) {
    r.Gentle? || r.Firm? || r.PaymentLink?
  }

  // ---- Notes, and the facts parsed back from them

  datatype Note =
    | ContactNote(day: int, invoice: InvoiceId, rung: Rung, overdue: int)
    | PromiseNote(day: int, invoice: InvoiceId, until: int)
    | DisputeNote(day: int, invoice: InvoiceId)
    | PaymentNote(day: int, invoice: InvoiceId)
    | NoResponseNote(day: int, invoice: InvoiceId)
    | EscalationNote(day: int, invoice: InvoiceId)

  datatype Dated = Dated(day: int, invoice: InvoiceId)
  datatype Pledge = Pledge(made: int, invoice: InvoiceId, until: int)

  datatype Facts = Facts(contacts: seq<Dated>, promises: seq<Pledge>, disputes: seq<Dated>, payments: seq<Dated>,
                         unanswered: seq<Dated>, escalations: seq<Dated>)

  const NOTHING := Facts([], [], [], [], [], [])

  /** A contact note prints the days overdue, and its pattern reads back digits only: no minus sign. */
  function AddNote(f: Facts, n: Note): Facts {
    match n
    case ContactNote(day, invoice, rung, overdue) =>
      if overdue >= 0 then f.(contacts := f.contacts + [Dated(day, invoice)]) else f
    case PromiseNote(day, invoice, until) => f.(promises := f.promises + [Pledge(day, invoice, until)])
    case DisputeNote(day, invoice) => f.(disputes := f.disputes + [Dated(day, invoice)])
    case PaymentNote(day, invoice) => f.(payments := f.payments + [Dated(day, invoice)])
    case NoResponseNote(day, invoice) => f.(unanswered := f.unanswered + [Dated(day, invoice)])
    case EscalationNote(day, invoice) => f.(escalations := f.escalations + [Dated(day, invoice)])
  }

  function Parsed(notes: seq<Note>): Facts {
    if notes == [] then NOTHING else AddNote(Parsed(notes[..|notes| - 1]), notes[|notes| - 1])
  }

  lemma ParsedAppends(notes: seq<Note>, n: Note)
    ensures Parsed(notes + [n]) == AddNote(Parsed(notes), n)
  {
    assert (notes + [n])[..|notes|] == notes;
  }

  method ParseFacts(contents: seq<Note>) returns (f: Facts)
    ensures f == Parsed(contents)
  {
    f := NOTHING;
    for i := 0 to |contents|
      invariant f == Parsed(contents[..i])
    {
      assert contents[..i + 1] == contents[..i] + [contents[i]];
      ParsedAppends(contents[..i], contents[i]);
      f := AddNote(f, contents[i]);
    }
    assert contents[..|contents|] == contents;
  }

  // ---- Queries

  predicate Mentions(s: seq<Dated>, id: InvoiceId) {
    exists k | 0 <= k < |s| :: s[k].invoice == id
  }

  function CountOf(s: seq<Dated>, id: InvoiceId): nat {
    if s == [] then 0 else CountOf(s[..|s| - 1], id) + if s[|s| - 1].invoice == id then 1 else 0
  }

  function InWindow(s: seq<Dated>, id: InvoiceId, today: int): nat {
    if s == [] then 0
    else
      var c := s[|s| - 1];
      InWindow(s[..|s| - 1], id, today) + if c.invoice == id && 0 <= today - c.day < 14 then 1 else 0
  }

  /** The promise made last; the earlier written of two made on one day. */
  function Latest(s: seq<Pledge>, id: InvoiceId): Option<Pledge> {
    if s == [] then None
    else
      var rest, p := Latest(s[..|s| - 1], id), s[|s| - 1];
      if p.invoice == id && (rest.None? || p.made > rest.value.made) then Some(p) else rest
  }

  predicate HasPayment(f: Facts, id: InvoiceId) { Mentions(f.payments, id) }
  predicate Disputed(f: Facts, id: InvoiceId) { Mentions(f.disputes, id) && !HasPayment(f, id) }
  predicate Escalated(f: Facts, id: InvoiceId) { Mentions(f.escalations, id) }

  predicate ContactedOn(f: Facts, day: int) {
    exists k | 0 <= k < |f.contacts| :: f.contacts[k].day == day
  }

  // ---- The decision table

  function BaseRung(overdue: int): Rung {
    if overdue <= 7 then Gentle else if overdue <= 21 then Firm else if overdue <= 45 then PaymentLink else Human
  }

  function Bump(r: Rung): Rung {
    match r
    case Gentle => Firm
    case Firm => PaymentLink
    case _ => Human
  }

  function Level(r: Rung): int {
    match r
    case Gentle => 0
    case Firm => 1
    case PaymentLink => 2
    case _ => 3
  }

  function Decide(inv: Invoice, f: Facts, today: int, contactedToday: bool): Action {
    if inv.status.Paid? then Action(SkipPaid, false)
    else if Disputed(f, inv.id) then Action(SkipDispute, false)
    else if Escalated(f, inv.id) then Action(SkipEscalated, false)
    else
      var overdue := today - inv.due;
      var promise := Latest(f.promises, inv.id);
      if promise.Some? && !HasPayment(f, inv.id) && promise.value.until >= today then Action(SkipPromise, false)
      else
        var broke := promise.Some? && !HasPayment(f, inv.id);
        var stepped := if broke then Bump(BaseRung(overdue)) else BaseRung(overdue);
        var rung := if CountOf(f.unanswered, inv.id) >= 3 then Human else stepped;
        if rung.Human? then Action(Human, broke)
        else if contactedToday || ContactedOn(f, today) then Action(SkipSameDay, false)
        else if InWindow(f.contacts, inv.id, today) >= 3 then Action(SkipRateLimited, false)
        else Action(rung, broke)
  }

  /** What a contact decision tells about the invoice: an independent reading of the table. */
  lemma ContactMeans(inv: Invoice, f: Facts, today: int, contactedToday: bool)
    ensures var a := Decide(inv, f, today, contactedToday);
      IsContact(a.rung) <==>
        && inv.status.Open?
        && !Escalated(f, inv.id) &&
           (HasPayment(f, inv.id) || (!Mentions(f.disputes, inv.id) && PromisesPassed(f, inv.id, today)))
        && CountOf(f.unanswered, inv.id) < 3
        && today - inv.due <= (if a.brokePromise then 21 else 45)
        && !contactedToday && !ContactedOn(f, today)
        && InWindow(f.contacts, inv.id, today) < 3
    ensures var a := Decide(inv, f, today, contactedToday); IsContact(a.rung) ==>
      Level(a.rung) ==
      (if today - inv.due <= 7 then 0 else if today - inv.due <= 21 then 1 else 2) + if a.brokePromise then 1 else 0
    ensures var a := Decide(inv, f, today, contactedToday); IsContact(a.rung) ==>
      (a.brokePromise <==> Latest(f.promises, inv.id).Some? && !HasPayment(f, inv.id))
  {
  }

  predicate PromisesPassed(f: Facts, id: InvoiceId, today: int) {
    Latest(f.promises, id).Some? ==> Latest(f.promises, id).value.until < today
  }

  /** Exactly when an invoice goes to a human. */
  lemma HumanMeans(inv: Invoice, f: Facts, today: int, contactedToday: bool)
    ensures Decide(inv, f, today, contactedToday).rung.Human? <==>
        && inv.status.Open? && !Disputed(f, inv.id) && !Escalated(f, inv.id)
        && (HasPayment(f, inv.id) || PromisesPassed(f, inv.id, today))
        && (CountOf(f.unanswered, inv.id) >= 3 || today - inv.due > 45 ||
            (Latest(f.promises, inv.id).Some? && !HasPayment(f, inv.id) && today - inv.due > 21))
  {
  }
}
