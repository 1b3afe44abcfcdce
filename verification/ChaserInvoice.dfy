/** What every step of a chaser run keeps about one invoice: its contacts, and the notes written about it. */
module ChaserInvoice {
  import opened Wrappers
  import opened ChaserPolicy

  datatype Contact = Contact(day: int, rung: Rung)

  /** What a reply is classified as: nothing came, a dispute, a date, or neither. */
  datatype Reply = Silent | Disputing | Promising(until: int) | Other

  function Days(c: seq<Contact>): (d: seq<int>)
    ensures |d| == |c|
    ensures forall k | 0 <= k < |c| :: d[k] == c[k].day
  {
    seq(|c|, k requires 0 <= k < |c| => c[k].day)
  }

  /** Contact days of an invoice as read back from the notes. */
  function ReadBack(s: seq<Dated>, id: InvoiceId): seq<int> {
    if s == [] then []
    else ReadBack(s[..|s| - 1], id) + if s[|s| - 1].invoice == id then [s[|s| - 1].day] else []
  }

  /** How many of the days lie in the 14 ending with `w`. */
  function CountIn(days: seq<int>, w: int): nat {
    if days == [] then 0 else CountIn(days[..|days| - 1], w) + if 0 <= w - days[|days| - 1] < 14 then 1 else 0
  }

  ghost predicate Sparse(days: seq<int>) {
    forall w :: CountIn(days, w) <= 3
  }

  // ---- The invariant

  predicate Climbing(c: seq<Contact>) {
    forall i, j | 0 <= i < j < |c| :: c[i].day < c[j].day && Level(c[i].rung) <= Level(c[j].rung)
  }

  predicate OnLadder(c: seq<Contact>, due: int) {
    forall k | 0 <= k < |c| :: IsContact(c[k].rung) && c[k].day - due <= 45
  }

  function DueRung(overdue: int, promised: bool): Rung {
    if promised then Bump(BaseRung(overdue)) else BaseRung(overdue)
  }

  /** The last rung is no higher than the ladder would now ask for on its own day. */
  predicate LastBounded(f: Facts, c: seq<Contact>, inv: Invoice) {
    c != [] ==> Level(c[|c| - 1].rung) <= Level(DueRung(c[|c| - 1].day - inv.due, Latest(f.promises, inv.id).Some?))
  }

  /** No contact came before the due date. */
  predicate NoneEarly(c: seq<Contact>, due: int) {
    c != [] ==> due <= c[0].day
  }

  /** Notes of contacts from the due date on are read back whole, and so the window rule bites. */
  ghost predicate Paced(f: Facts, c: seq<Contact>, inv: Invoice) {
    NoneEarly(c, inv.due) ==> ReadBack(f.contacts, inv.id) == Days(c) && Sparse(Days(c))
  }

  /** No contact after a dispute, from an escalation on, or after a payment was recorded. */
  predicate Settled(f: Facts, c: seq<Contact>, id: InvoiceId) {
    && (forall k, j | 0 <= k < |f.disputes| && 0 <= j < |c| && f.disputes[k].invoice == id ::
           c[j].day <= f.disputes[k].day)
    && (forall k, j | 0 <= k < |f.escalations| && 0 <= j < |c| && f.escalations[k].invoice == id ::
           c[j].day < f.escalations[k].day)
    && (forall k, j | 0 <= k < |f.payments| && 0 <= j < |c| && f.payments[k].invoice == id ::
           c[j].day <= f.payments[k].day)
  }

  /** Every promise answers a contact, one a day, and is waited out before the next contact. */
  ghost predicate PromisesAwaited(f: Facts, c: seq<Contact>, id: InvoiceId) {
    && (forall k | 0 <= k < |f.promises| && f.promises[k].invoice == id :: f.promises[k].made in Days(c))
    && (forall k, l | 0 <= k < l < |f.promises| && f.promises[k].invoice == id && f.promises[l].invoice == id ::
          f.promises[k].made != f.promises[l].made)
    && (forall k, j | 0 <= k < |f.promises| && 0 <= j < |c| && f.promises[k].invoice == id ::
          c[j].day <= f.promises[k].made || c[j].day > f.promises[k].until)
  }

  predicate Closed(f: Facts, humans: nat, inv: Invoice) {
    humans == CountOf(f.escalations, inv.id) <= 1 && (HasPayment(f, inv.id) ==> inv.status.Paid?)
  }

  ghost predicate InvoiceOk(f: Facts, c: seq<Contact>, humans: nat, inv: Invoice) {
    && Climbing(c)
    && OnLadder(c, inv.due)
    && LastBounded(f, c, inv)
    && Paced(f, c, inv)
    && Settled(f, c, inv.id)
    && PromisesAwaited(f, c, inv.id)
    && Closed(f, humans, inv)
  }

  lemma NothingYet(inv: Invoice)
    ensures InvoiceOk(NOTHING, [], 0, inv)
  {
    assert Days([]) == [];
  }

  /** What holds of an invoice no note or entry speaks about. */
  lemma {:induction false} NothingAbout(notes: seq<Note>, inv: Invoice)
    requires forall n | n in notes :: n.invoice != inv.id
    ensures InvoiceOk(Parsed(notes), [], 0, inv)
  {
    if notes == [] {
      NothingYet(inv);
    } else {
      var front, last := notes[..|notes| - 1], notes[|notes| - 1];
      NothingAbout(front, inv);
      OthersNoteKeepsOk(Parsed(front), [], 0, inv, last);
    }
  }

  // ---- Facts that agree about one invoice

  ghost predicate SameFor(f: Facts, g: Facts, id: InvoiceId) {
    && (HasPayment(f, id) <==> HasPayment(g, id))
    && (Mentions(f.disputes, id) <==> Mentions(g.disputes, id))
    && (Escalated(f, id) <==> Escalated(g, id))
    && CountOf(f.unanswered, id) == CountOf(g.unanswered, id)
    && Latest(f.promises, id) == Latest(g.promises, id)
    && ReadBack(f.contacts, id) == ReadBack(g.contacts, id)
  }

  lemma MentionsAppend(s: seq<Dated>, d: Dated, id: InvoiceId)
    ensures Mentions(s + [d], id) <==> Mentions(s, id) || d.invoice == id
  {
    var t := s + [d];
    assert t[|s|] == d;
    if k :| 0 <= k < |s| && s[k].invoice == id {
      assert t[k].invoice == id;
    }
  }

  lemma AppendsUnfold(s: seq<Dated>, d: Dated, id: InvoiceId)
    ensures CountOf(s + [d], id) == CountOf(s, id) + if d.invoice == id then 1 else 0
    ensures ReadBack(s + [d], id) == ReadBack(s, id) + if d.invoice == id then [d.day] else []
  {
    assert (s + [d])[..|s|] == s;
  }

  lemma LatestAppends(s: seq<Pledge>, p: Pledge, id: InvoiceId)
    ensures var rest := Latest(s, id);
      Latest(s + [p], id) == if p.invoice == id && (rest.None? || p.made > rest.value.made) then Some(p) else rest
  {
    assert (s + [p])[..|s|] == s;
  }

  /** A note about another invoice changes nothing read about this one. */
  lemma OthersNoteKeepsSame(f: Facts, g: Facts, n: Note, id: InvoiceId)
    requires SameFor(f, g, id) && n.invoice != id
    ensures SameFor(f, AddNote(g, n), id)
  {
    var d := Dated(n.day, n.invoice);
    match n
    case ContactNote(_, _, _, _) => AppendsUnfold(g.contacts, d, id);
    case PromiseNote(_, _, until) => LatestAppends(g.promises, Pledge(n.day, n.invoice, until), id);
    case DisputeNote(_, _) => MentionsAppend(g.disputes, d, id);
    case PaymentNote(_, _) => MentionsAppend(g.payments, d, id);
    case NoResponseNote(_, _) => AppendsUnfold(g.unanswered, d, id);
    case EscalationNote(_, _) => MentionsAppend(g.escalations, d, id);
  }

  lemma OthersNoteSettled(f: Facts, c: seq<Contact>, id: InvoiceId, n: Note)
    requires Settled(f, c, id) && n.invoice != id
    ensures Settled(AddNote(f, n), c, id)
  {
  }

  lemma OthersNoteAwaited(f: Facts, c: seq<Contact>, id: InvoiceId, n: Note)
    requires PromisesAwaited(f, c, id) && n.invoice != id
    ensures PromisesAwaited(AddNote(f, n), c, id)
  {
    var g := AddNote(f, n);
    forall k | 0 <= k < |g.promises| && g.promises[k].invoice == id
      ensures k < |f.promises| && g.promises[k] == f.promises[k]
    {
    }
  }

  lemma OthersNoteKeepsOk(f: Facts, c: seq<Contact>, humans: nat, inv: Invoice, n: Note)
    requires InvoiceOk(f, c, humans, inv) && n.invoice != inv.id
    ensures InvoiceOk(AddNote(f, n), c, humans, inv)
  {
    OthersNoteSettled(f, c, inv.id, n);
    OthersNoteAwaited(f, c, inv.id, n);
    assert LastBounded(AddNote(f, n), c, inv) && Paced(AddNote(f, n), c, inv) && Closed(AddNote(f, n), humans, inv) by {
      assert SameFor(f, f, inv.id);
      OthersNoteKeepsSame(f, f, n, inv.id);
      AppendsUnfold(f.escalations, Dated(n.day, n.invoice), inv.id);
    }
  }

  lemma {:induction false} WindowIsCount(s: seq<Dated>, id: InvoiceId, today: int)
    ensures InWindow(s, id, today) == CountIn(ReadBack(s, id), today)
  {
    if s != [] {
      WindowIsCount(s[..|s| - 1], id, today);
      var front, x := ReadBack(s[..|s| - 1], id), s[|s| - 1];
      if x.invoice == id {
        assert (front + [x.day])[..|front|] == front;
      } else {
        assert front + [] == front;
      }
    }
  }

  lemma CountAppends(days: seq<int>, t: int, w: int)
    ensures CountIn(days + [t], w) == CountIn(days, w) + if 0 <= w - t < 14 then 1 else 0
  {
    assert (days + [t])[..|days|] == days;
  }

  lemma {:induction false} CountShrinks(days: seq<int>, t: int, w: int)
    requires t <= w && forall k | 0 <= k < |days| :: days[k] < t
    ensures CountIn(days, w) <= CountIn(days, t)
  {
    if days != [] {
      CountShrinks(days[..|days| - 1], t, w);
    }
  }

  /** A fourth contact is never within 14 days of the first. */
  lemma SparseGrows(days: seq<int>, t: int)
    requires Sparse(days) && CountIn(days, t) < 3 && forall k | 0 <= k < |days| :: days[k] < t
    ensures Sparse(days + [t])
  {
    forall w ensures CountIn(days + [t], w) <= 3 {
      CountAppends(days, t, w);
      if t <= w {
        CountShrinks(days, t, w);
      }
    }
  }

  lemma {:induction false} LatestIsLatest(s: seq<Pledge>, id: InvoiceId)
    ensures Latest(s, id).None? ==> forall k | 0 <= k < |s| :: s[k].invoice != id
    ensures Latest(s, id).Some? ==> Latest(s, id).value in s && Latest(s, id).value.invoice == id
    ensures Latest(s, id).Some? ==>
              forall k | 0 <= k < |s| && s[k].invoice == id :: s[k].made <= Latest(s, id).value.made
  {
    if s != [] {
      var front := s[..|s| - 1];
      LatestIsLatest(front, id);
      assert s == front + [s[|s| - 1]];
    }
  }

  // ---- Steps on the invoice itself

  /** The notes a contact leaves, and its reply. */
  function AfterContact(f: Facts, inv: Invoice, today: int, rung: Rung, reply: Reply): Facts {
    var g := AddNote(f, ContactNote(today, inv.id, rung, today - inv.due));
    match reply
    case Silent => AddNote(g, NoResponseNote(today, inv.id))
    case Disputing => AddNote(g, DisputeNote(today, inv.id))
    case Promising(until) => AddNote(g, PromiseNote(today, inv.id, until))
    case Other => g
  }

  predicate Earlier(c: seq<Contact>, today: int) {
    forall k | 0 <= k < |c| :: c[k].day < today
  }

  lemma BaseClimbs(d: int, d': int, promised: bool, promised': bool)
    requires d <= d' && (promised ==> promised')
    ensures Level(DueRung(d, promised)) <= Level(DueRung(d', promised'))
  {
  }

  lemma LatestAfterContact(f: Facts, inv: Invoice, today: int, rung: Rung, reply: Reply)
    ensures Latest(f.promises, inv.id).Some? ==> Latest(AfterContact(f, inv, today, rung, reply).promises, inv.id).Some?
  {
    if reply.Promising? {
      LatestAppends(f.promises, Pledge(today, inv.id, reply.until), inv.id);
    }
  }

  /** What a decision to contact says about the invoice's facts. */
  predicate MayContact(f: Facts, inv: Invoice, today: int, rung: Rung) {
    && IsContact(rung) && today - inv.due <= 45
    && !HasPayment(f, inv.id) && !Mentions(f.disputes, inv.id) && !Escalated(f, inv.id)
    && PromisesPassed(f, inv.id, today)
    && CountIn(ReadBack(f.contacts, inv.id), today) < 3
    && rung == DueRung(today - inv.due, Latest(f.promises, inv.id).Some?)
  }

  lemma DecidedToContact(f: Facts, humans: nat, inv: Invoice, today: int, known: Facts, local: bool)
    requires Closed(f, humans, inv) && SameFor(known, f, inv.id) && IsContact(Decide(inv, known, today, local).rung)
    ensures MayContact(f, inv, today, Decide(inv, known, today, local).rung)
  {
    ContactMeans(inv, known, today, local);
    WindowIsCount(known.contacts, inv.id, today);
  }

  lemma ClimbAppend(c: seq<Contact>, x: Contact)
    requires Climbing(c) && Earlier(c, x.day) && (c != [] ==> Level(c[|c| - 1].rung) <= Level(x.rung))
    ensures Climbing(c + [x])
  {
    assert forall i | 0 <= i < |c| :: Level(c[i].rung) <= Level(c[|c| - 1].rung);
  }

  /** The new last contact is on the rung its own day asks for. */
  lemma ContactBounded(f: Facts, c: seq<Contact>, inv: Invoice, today: int, rung: Rung, reply: Reply)
    requires MayContact(f, inv, today, rung)
    ensures LastBounded(AfterContact(f, inv, today, rung, reply), c + [Contact(today, rung)], inv)
  {
    LatestAfterContact(f, inv, today, rung, reply);
    var promised := Latest(f.promises, inv.id).Some?;
    var promised' := Latest(AfterContact(f, inv, today, rung, reply).promises, inv.id).Some?;
    BaseClimbs(today - inv.due, today - inv.due, promised, promised');
  }

  lemma ContactClimbs(f: Facts, c: seq<Contact>, inv: Invoice, today: int, rung: Rung, reply: Reply)
    requires Climbing(c) && OnLadder(c, inv.due) && LastBounded(f, c, inv)
    requires MayContact(f, inv, today, rung) && Earlier(c, today)
    ensures var c' := c + [Contact(today, rung)];
      Climbing(c') && OnLadder(c', inv.due) && LastBounded(AfterContact(f, inv, today, rung, reply), c', inv)
  {
    var promised := Latest(f.promises, inv.id).Some?;
    if c != [] {
      BaseClimbs(c[|c| - 1].day - inv.due, today - inv.due, promised, promised);
    }
    ClimbAppend(c, Contact(today, rung));
    ContactBounded(f, c, inv, today, rung, reply);
  }

  lemma DaysAppend(c: seq<Contact>, x: Contact)
    ensures Days(c + [x]) == Days(c) + [x.day]
  {
  }

  lemma ContactIsReadBack(f: Facts, inv: Invoice, today: int, rung: Rung, reply: Reply)
    requires inv.due <= today
    ensures ReadBack(AfterContact(f, inv, today, rung, reply).contacts, inv.id) ==
            ReadBack(f.contacts, inv.id) + [today]
  {
    AppendsUnfold(f.contacts, Dated(today, inv.id), inv.id);
  }

  lemma NoneEarlyBefore(c: seq<Contact>, x: Contact, due: int)
    requires Earlier(c, x.day) && NoneEarly(c + [x], due)
    ensures NoneEarly(c, due) && due <= x.day
  {
    assert c != [] ==> (c + [x])[0] == c[0];
  }

  lemma ContactPaced(f: Facts, c: seq<Contact>, inv: Invoice, today: int, rung: Rung, reply: Reply)
    requires Paced(f, c, inv) && MayContact(f, inv, today, rung) && Earlier(c, today)
    ensures Paced(AfterContact(f, inv, today, rung, reply), c + [Contact(today, rung)], inv)
  {
    if NoneEarly(c + [Contact(today, rung)], inv.due) {
      NoneEarlyBefore(c, Contact(today, rung), inv.due);
      ContactIsReadBack(f, inv, today, rung, reply);
      DaysAppend(c, Contact(today, rung));
      SparseGrows(Days(c), today);
    }
  }

  lemma ContactSettled(f: Facts, c: seq<Contact>, humans: nat, inv: Invoice, today: int, rung: Rung, reply: Reply)
    requires Settled(f, c, inv.id) && Closed(f, humans, inv) && MayContact(f, inv, today, rung) && Earlier(c, today)
    ensures var g := AfterContact(f, inv, today, rung, reply);
      Settled(g, c + [Contact(today, rung)], inv.id) && Closed(g, humans, inv)
  {
  }

  lemma PromisesArePast(f: Facts, c: seq<Contact>, id: InvoiceId, today: int)
    requires PromisesAwaited(f, c, id) && Earlier(c, today) && PromisesPassed(f, id, today)
    ensures forall k | 0 <= k < |f.promises| && f.promises[k].invoice == id ::
      f.promises[k].made < today && f.promises[k].until < today
  {
    LatestIsLatest(f.promises, id);
    forall k | 0 <= k < |f.promises| && f.promises[k].invoice == id
      ensures f.promises[k].made < today && f.promises[k].until < today
    {
      var last := Latest(f.promises, id).value;
      var l :| 0 <= l < |f.promises| && f.promises[l] == last;
      assert f.promises[k].made in Days(c) && last.made in Days(c);
      var j :| 0 <= j < |c| && c[j].day == last.made;
    }
  }

  lemma ContactOutlastsPromises(f: Facts, c: seq<Contact>, id: InvoiceId, today: int, rung: Rung)
    requires PromisesAwaited(f, c, id) && Earlier(c, today) && PromisesPassed(f, id, today)
    ensures PromisesAwaited(f, c + [Contact(today, rung)], id)
  {
    PromisesArePast(f, c, id, today);
    DaysAppend(c, Contact(today, rung));
  }

  lemma PromiseAwaited(f: Facts, c: seq<Contact>, id: InvoiceId, today: int, until: int)
    requires PromisesAwaited(f, c, id) && c != [] && c[|c| - 1].day == today && Earlier(c[..|c| - 1], today)
    requires forall k | 0 <= k < |f.promises| && f.promises[k].invoice == id :: f.promises[k].made < today
    ensures PromisesAwaited(AddNote(f, PromiseNote(today, id, until)), c, id)
  {
    assert Days(c)[|c| - 1] == today;
    assert forall j | 0 <= j < |c| - 1 :: c[j] == c[..|c| - 1][j];
  }

  lemma ContactAwaits(f: Facts, c: seq<Contact>, inv: Invoice, today: int, rung: Rung, reply: Reply)
    requires PromisesAwaited(f, c, inv.id) && MayContact(f, inv, today, rung) && Earlier(c, today)
    ensures PromisesAwaited(AfterContact(f, inv, today, rung, reply), c + [Contact(today, rung)], inv.id)
  {
    var c' := c + [Contact(today, rung)];
    ContactOutlastsPromises(f, c, inv.id, today, rung);
    var g := AddNote(f, ContactNote(today, inv.id, rung, today - inv.due));
    assert PromisesAwaited(g, c', inv.id);
    if reply.Promising? {
      PromisesArePast(f, c, inv.id, today);
      assert c'[..|c|] == c;
      PromiseAwaited(g, c', inv.id, today, reply.until);
    }
  }

  lemma ContactKeepsOk(f: Facts, c: seq<Contact>, humans: nat, inv: Invoice, today: int, known: Facts, local: bool,
                       reply: Reply)
    requires InvoiceOk(f, c, humans, inv) && SameFor(known, f, inv.id) && Earlier(c, today)
    requires IsContact(Decide(inv, known, today, local).rung)
    ensures var rung := Decide(inv, known, today, local).rung;
      InvoiceOk(AfterContact(f, inv, today, rung, reply), c + [Contact(today, rung)], humans, inv)
  {
    var rung := Decide(inv, known, today, local).rung;
    DecidedToContact(f, humans, inv, today, known, local);
    ContactClimbs(f, c, inv, today, rung, reply);
    ContactPaced(f, c, inv, today, rung, reply);
    ContactSettled(f, c, humans, inv, today, rung, reply);
    ContactAwaits(f, c, inv, today, rung, reply);
  }

  lemma {:induction false} MentionedIsCounted(s: seq<Dated>, id: InvoiceId)
    ensures Mentions(s, id) <==> CountOf(s, id) > 0
  {
    if s != [] {
      var front := s[..|s| - 1];
      MentionedIsCounted(front, id);
      assert s == front + [s[|s| - 1]];
      MentionsAppend(front, s[|s| - 1], id);
    }
  }

  lemma EscalatedOnce(f: Facts, id: InvoiceId, today: int)
    requires !Escalated(f, id)
    ensures CountOf(f.escalations, id) == 0
    ensures CountOf(AddNote(f, EscalationNote(today, id)).escalations, id) == 1
  {
    MentionedIsCounted(f.escalations, id);
    AppendsUnfold(f.escalations, Dated(today, id), id);
  }

  lemma EscalationKeepsOk(f: Facts, c: seq<Contact>, humans: nat, inv: Invoice, today: int, known: Facts, local: bool)
    requires InvoiceOk(f, c, humans, inv) && SameFor(known, f, inv.id) && Earlier(c, today)
    requires Decide(inv, known, today, local).rung.Human?
    ensures InvoiceOk(AddNote(f, EscalationNote(today, inv.id)), c, humans + 1, inv)
  {
    HumanMeans(inv, known, today, local);
    EscalatedOnce(f, inv.id, today);
  }

  lemma PaymentKeepsOk(f: Facts, c: seq<Contact>, humans: nat, inv: Invoice, today: int)
    requires InvoiceOk(f, c, humans, inv) && inv.status.Paid? && forall k | 0 <= k < |c| :: c[k].day <= today
    ensures InvoiceOk(AddNote(f, PaymentNote(today, inv.id)), c, humans, inv)
  {
  }

  // ---- What it promises

  /** 46 days are covered by four windows of 14. */
  lemma {:induction false} SpanCount(days: seq<int>, from: int)
    requires forall k | 0 <= k < |days| :: from <= days[k] < from + 46
    ensures |days| ==
            CountIn(days, from + 13) + CountIn(days, from + 27) + CountIn(days, from + 41) + CountIn(days, from + 55)
  {
    if days != [] {
      SpanCount(days[..|days| - 1], from);
    }
  }

  /** An invoice first contacted due or overdue is contacted at most twelve times. */
  lemma AtMostTwelveContacts(f: Facts, c: seq<Contact>, humans: nat, inv: Invoice)
    requires InvoiceOk(f, c, humans, inv) && NoneEarly(c, inv.due)
    ensures |c| <= 12
  {
    SpanCount(Days(c), inv.due);
  }

  /** ... at most three of them in any 14 consecutive days, never twice a day, never on a lower rung than before. */
  lemma ContactsArePaced(f: Facts, c: seq<Contact>, humans: nat, inv: Invoice, w: int)
    requires InvoiceOk(f, c, humans, inv)
    ensures NoneEarly(c, inv.due) ==> CountIn(Days(c), w) <= 3
    ensures forall i, j | 0 <= i < j < |c| :: c[i].day < c[j].day && Level(c[i].rung) <= Level(c[j].rung)
  {
  }
}
