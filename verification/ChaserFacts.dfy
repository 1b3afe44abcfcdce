/** The decision table read off the notes themselves: what was written decides what is done next. */
module ChaserFacts {
  import opened Wrappers
  import opened ChaserPolicy

  /** The places in `notes` where `p` holds. */
  ghost function Places(p: Note -> bool, notes: seq<Note>): set<int> {
    set k | 0 <= k < |notes| && p(notes[k])
  }

  lemma PlacesNext(p: Note -> bool, notes: seq<Note>, n: Note)
    ensures |Places(p, notes + [n])| == |Places(p, notes)| + if p(n) then 1 else 0
  {
    var more := notes + [n];
    assert forall k | 0 <= k < |notes| :: more[k] == notes[k];
    assert more[|notes|] == n;
    assert Places(p, more) == Places(p, notes) + if p(n) then {|notes|} else {};
  }

  ghost function Unanswered(id: InvoiceId): Note -> bool {
    (n: Note) => n.NoResponseNote? && n.invoice == id
  }

  /** Contacts from the due date on, in the fourteen days that end with `today`. */
  ghost function Recent(id: InvoiceId, today: int): Note -> bool {
    (n: Note) => n.ContactNote? && n.overdue >= 0 && n.invoice == id && today - 14 < n.day <= today
  }

  lemma CountsNext(s: seq<Dated>, d: Dated, id: InvoiceId, today: int)
    ensures CountOf(s + [d], id) == CountOf(s, id) + if d.invoice == id then 1 else 0
    ensures InWindow(s + [d], id, today) ==
            InWindow(s, id, today) + if d.invoice == id && today - 14 < d.day <= today then 1 else 0
  {
    assert (s + [d])[..|s|] == s;
  }

  lemma {:induction false} CountsAreNotes(notes: seq<Note>, id: InvoiceId, today: int)
    ensures CountOf(Parsed(notes).unanswered, id) == |Places(Unanswered(id), notes)|
    ensures InWindow(Parsed(notes).contacts, id, today) == |Places(Recent(id, today), notes)|
  {
    if notes == [] {
      assert Places(Unanswered(id), notes) == {} && Places(Recent(id, today), notes) == {};
    } else {
      var front, n := notes[..|notes| - 1], notes[|notes| - 1];
      assert notes == front + [n];
      CountsAreNotes(front, id, today);
      PlacesNext(Unanswered(id), front, n);
      PlacesNext(Recent(id, today), front, n);
      CountsNext(Parsed(front).unanswered, Dated(n.day, n.invoice), id, today);
      CountsNext(Parsed(front).contacts, Dated(n.day, n.invoice), id, today);
    }
  }

  // ---- Which facts there are

  ghost predicate Paid(notes: seq<Note>, id: InvoiceId) {
    exists n :: n in notes && n.PaymentNote? && n.invoice == id
  }

  ghost predicate DisputeWritten(notes: seq<Note>, id: InvoiceId) {
    exists n :: n in notes && n.DisputeNote? && n.invoice == id
  }

  ghost predicate HandedOver(notes: seq<Note>, id: InvoiceId) {
    exists n :: n in notes && n.EscalationNote? && n.invoice == id
  }

  ghost predicate ContactRead(notes: seq<Note>, day: int) {
    exists n :: n in notes && n.ContactNote? && n.overdue >= 0 && n.day == day
  }

  lemma MentionsNext(s: seq<Dated>, d: Dated, id: InvoiceId)
    ensures Mentions(s + [d], id) <==> Mentions(s, id) || d.invoice == id
  {
    var t := s + [d];
    assert t[|s|] == d;
    if k :| 0 <= k < |s| && s[k].invoice == id {
      assert t[k].invoice == id;
    }
  }

  lemma ContactedNext(f: Facts, d: Dated, day: int)
    ensures ContactedOn(f.(contacts := f.contacts + [d]), day) <==> ContactedOn(f, day) || d.day == day
  {
    var g := f.(contacts := f.contacts + [d]);
    assert g.contacts[|f.contacts|] == d;
    if k :| 0 <= k < |f.contacts| && f.contacts[k].day == day {
      assert g.contacts[k].day == day;
    }
  }

  lemma {:induction false} FactsAreNotes(notes: seq<Note>, id: InvoiceId, day: int)
    ensures HasPayment(Parsed(notes), id) <==> Paid(notes, id)
    ensures Mentions(Parsed(notes).disputes, id) <==> DisputeWritten(notes, id)
    ensures Escalated(Parsed(notes), id) <==> HandedOver(notes, id)
    ensures ContactedOn(Parsed(notes), day) <==> ContactRead(notes, day)
  {
    if notes != [] {
      var front, n := notes[..|notes| - 1], notes[|notes| - 1];
      var f, d := Parsed(front), Dated(n.day, n.invoice);
      assert forall m :: m in notes <==> m in front || m == n by { assert notes == front + [n]; }
      FactsAreNotes(front, id, day);
      MentionsNext(f.payments, d, id);
      MentionsNext(f.disputes, d, id);
      MentionsNext(f.escalations, d, id);
      ContactedNext(f, d, day);
      assert Paid(notes, id) <==> Paid(front, id) || (n.PaymentNote? && n.invoice == id);
      assert DisputeWritten(notes, id) <==> DisputeWritten(front, id) || (n.DisputeNote? && n.invoice == id);
      assert HandedOver(notes, id) <==> HandedOver(front, id) || (n.EscalationNote? && n.invoice == id);
      assert ContactRead(notes, day) <==>
             ContactRead(front, day) || (n.ContactNote? && n.overdue >= 0 && n.day == day);
    }
  }

  // ---- The promise that counts

  predicate PromiseAbout(n: Note, id: InvoiceId) {
    n.PromiseNote? && n.invoice == id
  }

  /** Place `k` holds the promise made on the latest day, and the first written of that day. */
  predicate Standing(notes: seq<Note>, id: InvoiceId, k: nat) {
    && k < |notes| && PromiseAbout(notes[k], id)
    && (forall j | 0 <= j < k && PromiseAbout(notes[j], id) :: notes[j].day < notes[k].day)
    && (forall j | k < j < |notes| && PromiseAbout(notes[j], id) :: notes[j].day <= notes[k].day)
  }

  predicate PromiseIs(notes: seq<Note>, id: InvoiceId, p: Option<Pledge>) {
    if p.None? then forall k | 0 <= k < |notes| :: !PromiseAbout(notes[k], id)
    else exists k | 0 <= k < |notes| ::
      Standing(notes, id, k) && notes[k].day == p.value.made && notes[k].until == p.value.until
  }

  lemma LatestNext(s: seq<Pledge>, p: Pledge, id: InvoiceId)
    ensures var rest := Latest(s, id);
      Latest(s + [p], id) == if p.invoice == id && (rest.None? || p.made > rest.value.made) then Some(p) else rest
  {
    assert (s + [p])[..|s|] == s;
  }

  lemma PromiseIsNext(front: seq<Note>, n: Note, id: InvoiceId, rest: Option<Pledge>, p: Option<Pledge>)
    requires PromiseIs(front, id, rest)
    requires p == if PromiseAbout(n, id) && (rest.None? || n.day > rest.value.made)
                  then Some(Pledge(n.day, id, n.until)) else rest
    ensures PromiseIs(front + [n], id, p)
  {
    var notes := front + [n];
    assert forall k | 0 <= k < |front| :: notes[k] == front[k];
    assert notes[|front|] == n;
    if rest.Some? {
      var k :| 0 <= k < |front| && Standing(front, id, k) && front[k].day == rest.value.made
               && front[k].until == rest.value.until;
      if p == rest {
        assert Standing(notes, id, k);
      }
    }
    if p != rest {
      assert Standing(notes, id, |front|);
    }
  }

  lemma {:induction false} LatestIsStanding(notes: seq<Note>, id: InvoiceId)
    ensures PromiseIs(notes, id, Latest(Parsed(notes).promises, id))
  {
    if notes != [] {
      var front, n := notes[..|notes| - 1], notes[|notes| - 1];
      var f := Parsed(front);
      LatestIsStanding(front, id);
      if n.PromiseNote? {
        LatestNext(f.promises, Pledge(n.day, n.invoice, n.until), id);
      }
      PromiseIsNext(front, n, id, Latest(f.promises, id), Latest(Parsed(notes).promises, id));
      assert notes == front + [n];
    }
  }

  lemma OneStanding(notes: seq<Note>, id: InvoiceId, j: nat, k: nat)
    requires Standing(notes, id, j) && Standing(notes, id, k)
    ensures j == k
  {
  }

  ghost predicate Promised(notes: seq<Note>, id: InvoiceId) {
    exists n :: n in notes && PromiseAbout(n, id)
  }

  /** The promise that counts is not past. */
  ghost predicate Awaited(notes: seq<Note>, id: InvoiceId, today: int) {
    exists k | 0 <= k < |notes| :: Standing(notes, id, k) && notes[k].until >= today
  }

  lemma PromiseFacts(notes: seq<Note>, id: InvoiceId, today: int)
    ensures var p := Latest(Parsed(notes).promises, id);
      && (p.Some? <==> Promised(notes, id))
      && (p.Some? && p.value.until >= today <==> Awaited(notes, id, today))
  {
    LatestIsStanding(notes, id);
    var p := Latest(Parsed(notes).promises, id);
    if p.Some? {
      var k :| 0 <= k < |notes| && Standing(notes, id, k) && notes[k].day == p.value.made
               && notes[k].until == p.value.until;
      assert notes[k] in notes;
      if j :| 0 <= j < |notes| && Standing(notes, id, j) && notes[j].until >= today {
        OneStanding(notes, id, j, k);
      }
    }
  }

  // ---- What is done next

  lemma FactsFromNotes(notes: seq<Note>, id: InvoiceId, today: int, f: Facts)
    requires f == Parsed(notes)
    ensures HasPayment(f, id) <==> Paid(notes, id)
    ensures Mentions(f.disputes, id) <==> DisputeWritten(notes, id)
    ensures Escalated(f, id) <==> HandedOver(notes, id)
    ensures ContactedOn(f, today) <==> ContactRead(notes, today)
    ensures CountOf(f.unanswered, id) == |Places(Unanswered(id), notes)|
    ensures InWindow(f.contacts, id, today) == |Places(Recent(id, today), notes)|
    ensures var p := Latest(f.promises, id);
      (p.Some? <==> Promised(notes, id)) && (p.Some? && p.value.until >= today <==> Awaited(notes, id, today))
  {
    CountsAreNotes(notes, id, today);
    FactsAreNotes(notes, id, today);
    PromiseFacts(notes, id, today);
  }

  /** Neither paid, disputed nor handed over, and no promise to wait for. */
  ghost predicate Chaseable(inv: Invoice, notes: seq<Note>, today: int) {
    && inv.status.Open? && !HandedOver(notes, inv.id)
    && (Paid(notes, inv.id) || (!DisputeWritten(notes, inv.id) && !Awaited(notes, inv.id, today)))
  }

  /** A promise was made, and is past with nothing paid. */
  ghost predicate Broken(inv: Invoice, notes: seq<Note>) {
    Promised(notes, inv.id) && !Paid(notes, inv.id)
  }

  /** What the table reads of the notes. */
  datatype Reading = Reading(paid: bool, disputed: bool, handed: bool, met: bool, promised: bool, awaited: bool,
                             silent: bool, often: bool)

  predicate Reads(f: Facts, id: InvoiceId, today: int, r: Reading) {
    && (HasPayment(f, id) <==> r.paid) && (Mentions(f.disputes, id) <==> r.disputed) && (Escalated(f, id) <==> r.handed)
    && (ContactedOn(f, today) <==> r.met) && (CountOf(f.unanswered, id) >= 3 <==> r.silent)
    && (InWindow(f.contacts, id, today) >= 3 <==> r.often)
    && (Latest(f.promises, id).Some? <==> r.promised)
    && (Latest(f.promises, id).Some? && Latest(f.promises, id).value.until >= today <==> r.awaited)
  }

  lemma DecisionFrom(inv: Invoice, f: Facts, today: int, contactedToday: bool, r: Reading)
    requires Reads(f, inv.id, today, r)
    ensures var rung := Decide(inv, f, today, contactedToday).rung;
      var overdue, broken := today - inv.due, r.promised && !r.paid;
      var open := inv.status.Open? && !r.handed && (r.paid || (!r.disputed && !r.awaited));
      && (rung.Human? <==> open && (r.silent || overdue > (if broken then 21 else 45)))
      && (IsContact(rung) <==>
            open && !r.silent && overdue <= (if broken then 21 else 45) && !contactedToday && !r.met && !r.often)
      && (IsContact(rung) ==>
            rung == if overdue <= 7 then (if broken then Firm else Gentle)
                    else if overdue <= 21 then (if broken then PaymentLink else Firm)
                    else PaymentLink)
  {
  }

  lemma SkipsFrom(inv: Invoice, f: Facts, today: int, contactedToday: bool, r: Reading)
    requires Reads(f, inv.id, today, r)
    ensures var rung := Decide(inv, f, today, contactedToday).rung;
      var open := inv.status.Open? && !r.handed && (r.paid || (!r.disputed && !r.awaited));
      && (rung == SkipPaid <==> inv.status.Paid?)
      && (rung == SkipDispute <==> inv.status.Open? && r.disputed && !r.paid)
      && (rung == SkipEscalated <==> inv.status.Open? && !(r.disputed && !r.paid) && r.handed)
      && (rung == SkipPromise <==>
            inv.status.Open? && !(r.disputed && !r.paid) && !r.handed && r.awaited && !r.paid)
      && (rung == SkipSameDay <==> open && !rung.Human? && (contactedToday || r.met))
      && (rung == SkipRateLimited <==> open && !rung.Human? && !contactedToday && !r.met && r.often)
  {
  }

  ghost function ReadingOf(notes: seq<Note>, id: InvoiceId, today: int): Reading {
    Reading(Paid(notes, id), DisputeWritten(notes, id), HandedOver(notes, id), ContactRead(notes, today),
            Promised(notes, id), Awaited(notes, id, today), |Places(Unanswered(id), notes)| >= 3,
            |Places(Recent(id, today), notes)| >= 3)
  }

  lemma ReadsTheNotes(notes: seq<Note>, id: InvoiceId, today: int)
    ensures Reads(Parsed(notes), id, today, ReadingOf(notes, id, today))
  {
    FactsFromNotes(notes, id, today, Parsed(notes));
  }

  /**
   * The table in terms of the notes: who is contacted, on which rung, and who goes to a human. The
   * rung is that of the days overdue, 7, 21 and 45 being the last of each, and one more for a broken
   * promise.
   */
  lemma DecisionFromNotes(inv: Invoice, notes: seq<Note>, today: int, contactedToday: bool)
    ensures var rung := Decide(inv, Parsed(notes), today, contactedToday).rung;
      var overdue, broken := today - inv.due, Broken(inv, notes);
      var silent := |Places(Unanswered(inv.id), notes)| >= 3;
      && (rung.Human? <==> Chaseable(inv, notes, today) && (silent || overdue > (if broken then 21 else 45)))
      && (IsContact(rung) <==>
            && Chaseable(inv, notes, today) && !silent && overdue <= (if broken then 21 else 45)
            && !contactedToday && !ContactRead(notes, today) && |Places(Recent(inv.id, today), notes)| < 3)
      && (IsContact(rung) ==>
            rung == if overdue <= 7 then (if broken then Firm else Gentle)
                    else if overdue <= 21 then (if broken then PaymentLink else Firm)
                    else PaymentLink)
  {
    ReadsTheNotes(notes, inv.id, today);
    DecisionFrom(inv, Parsed(notes), today, contactedToday, ReadingOf(notes, inv.id, today));
  }

  /** Why nothing is done, when nothing is: the first reason that applies. */
  lemma SkipsFromNotes(inv: Invoice, notes: seq<Note>, today: int, contactedToday: bool)
    ensures var rung := Decide(inv, Parsed(notes), today, contactedToday).rung;
      var disputed := DisputeWritten(notes, inv.id) && !Paid(notes, inv.id);
      var awaited := Awaited(notes, inv.id, today) && !Paid(notes, inv.id);
      var met := contactedToday || ContactRead(notes, today);
      && (rung == SkipPaid <==> inv.status.Paid?)
      && (rung == SkipDispute <==> inv.status.Open? && disputed)
      && (rung == SkipEscalated <==> inv.status.Open? && !disputed && HandedOver(notes, inv.id))
      && (rung == SkipPromise <==> inv.status.Open? && !disputed && !HandedOver(notes, inv.id) && awaited)
      && (rung == SkipSameDay <==> Chaseable(inv, notes, today) && !rung.Human? && met)
      && (rung == SkipRateLimited <==>
            && Chaseable(inv, notes, today) && !rung.Human? && !met
            && |Places(Recent(inv.id, today), notes)| >= 3)
  {
    ReadsTheNotes(notes, inv.id, today);
    SkipsFrom(inv, Parsed(notes), today, contactedToday, ReadingOf(notes, inv.id, today));
  }
}
