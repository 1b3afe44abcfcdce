/**
 * What each statement of Extract comes to, and why a call writes a row of its own.
 *
 * A neighbour is passed over when it is the memory itself, of another type, or unrelated to it. A
 * call answers with, or upgrades, the first neighbour it does not pass over, and creates a row only
 * when there is none or when the upgrade did not happen.
 */
module WriteOutcomes {
  import opened Wrappers
  import opened Content
  import opened Dedup
  import opened MemoryStore
  import opened WriteProtocol
  import opened WriteRuns

  predicate PassedOver(lex: Lexicon, self: Id, m: Memory, n: Neighbour) {
    n.id == self || n.kind != m.kind || Subsumes(lex, m.content, n.content) == Unrelated
  }

  /** `p` is the nearest neighbour that is not passed over. */
  predicate Nearest(lex: Lexicon, self: Id, m: Memory, neighbours: seq<Neighbour>, p: nat) {
    && p < |neighbours| && !PassedOver(lex, self, m, neighbours[p])
    && forall q | 0 <= q < p :: PassedOver(lex, self, m, neighbours[q])
  }

  predicate NoneServes(lex: Lexicon, self: Id, m: Memory, neighbours: seq<Neighbour>) {
    forall n | n in neighbours :: PassedOver(lex, self, m, n)
  }

  /** Call `c` is working on `slot`. */
  predicate At(s: Sys, c: nat, slot: nat) {
    && Live(s, c) && !s.calls[c].pc.LookingUp? && !s.calls[c].pc.Done?
    && s.calls[c].pending[s.calls[c].pc.k] == slot
  }

  /** Everything of a call but where it stands and what it says of one slot. */
  predicate OnlySlot(call: Call, call': Call, slot: nat) {
    && call'.project == call.project && call'.memories == call.memories && call'.pending == call.pending
    && |call'.reported| == |call.reported|
    && forall x | 0 <= x < |call.reported| && x != slot ::
         call'.reported[x] == call.reported[x] && (x in call'.failed <==> x in call.failed)
  }

  /** `slot` is left behind, answered with `r` or, for none, given up. */
  predicate Settled(call: Call, call': Call, slot: nat, r: Option<Reported>)
    requires Position(call) && !call.pc.LookingUp? && !call.pc.Done? && slot < |call.reported|
  {
    && OnlySlot(call, call', slot)
    && call'.reported[slot] == (if r.Some? then r else call.reported[slot])
    && (slot in call'.failed <==> r.None? || slot in call.failed)
    && call'.pc == if call.pc.k == |call.pending| - 1 then Done else Searching(call.pc.k + 1)
  }

  // ---- One statement

  lemma PassedOverIffNoCandidate(lex: Lexicon, self: Id, m: Memory, n: Neighbour)
    ensures PassedOver(lex, self, m, n) <==> !Candidate(lex, self, m, n)
  {
  }

  /** `first` scans for `p`. */
  ghost predicate Scans(p: Neighbour -> bool, first: seq<Neighbour> -> Option<Neighbour>, s: seq<Neighbour>) {
    s != [] ==> first(s) == if p(s[0]) then Some(s[0]) else first(s[1..])
  }

  lemma {:induction false} ScanStopsAt(p: Neighbour -> bool, first: seq<Neighbour> -> Option<Neighbour>,
                                       s: seq<Neighbour>, k: nat)
    requires forall t :: Scans(p, first, t)
    requires k < |s| && p(s[k]) && forall q | 0 <= q < k :: !p(s[q])
    ensures first(s) == Some(s[k])
    decreases k
  {
    assert Scans(p, first, s);
    if k > 0 {
      ScanStopsAt(p, first, s[1..], k - 1);
    }
  }

  lemma NearestIsTaken(lex: Lexicon, self: Id, m: Memory, neighbours: seq<Neighbour>, p: nat)
    requires Nearest(lex, self, m, neighbours, p)
    ensures FirstCandidate(lex, self, m, neighbours) == Some(neighbours[p])
  {
    var chosen, first := (n: Neighbour) => Candidate(lex, self, m, n),
                         (s: seq<Neighbour>) => FirstCandidate(lex, self, m, s);
    PassedOverIffNoCandidate(lex, self, m, neighbours[p]);
    forall q | 0 <= q < p ensures !chosen(neighbours[q]) {
      PassedOverIffNoCandidate(lex, self, m, neighbours[q]);
    }
    forall t ensures Scans(chosen, first, t) {
    }
    ScanStopsAt(chosen, first, neighbours, p);
  }

  lemma NoneServesIffNoCandidate(lex: Lexicon, self: Id, m: Memory, neighbours: seq<Neighbour>)
    ensures FirstCandidate(lex, self, m, neighbours) == None <==> NoneServes(lex, self, m, neighbours)
  {
    forall n | n in neighbours ensures PassedOver(lex, self, m, n) <==> !Candidate(lex, self, m, n) {
      PassedOverIffNoCandidate(lex, self, m, n);
    }
  }

  /** A slot is answered with the row found under its key, or left pending, in conversation order. */
  lemma LookUpAnswersTheStored(lex: Lexicon, texts: set<string>, s: Sys, e: Event)
    requires Allowed(lex, texts, s, e) && e.LookUp?
    ensures var call, s' := s.calls[e.c], Apply(lex, texts, s, e);
      && s' == Sys(s.rows, s.calls[e.c := s'.calls[e.c]])
      && s'.calls[e.c].memories == call.memories && s'.calls[e.c].project == call.project
      && |s'.calls[e.c].reported| == |call.memories|
      && (forall slot | 0 <= slot < |call.memories| ::
            var key := ContentKey(lex.Hash(call.memories[slot].content), call.memories[slot].kind);
            && (key in e.found ==>
                  s'.calls[e.c].reported[slot] == Some(Reported(e.found[key].id, e.found[key].content)))
            && (key !in e.found ==> s'.calls[e.c].reported[slot] == None)
            && (slot in s'.calls[e.c].pending <==> key !in e.found))
      && (forall i, j | 0 <= i < j < |s'.calls[e.c].pending| ::
            s'.calls[e.c].pending[i] < s'.calls[e.c].pending[j])
      && s'.calls[e.c].pc == if s'.calls[e.c].pending == [] then Done else Searching(0)
  {
    RemainingSlots(lex, s.calls[e.c].memories, e.found);
  }

  /** A row is created exactly when every neighbour is passed over; else the nearest other one decides. */
  lemma SearchTakesTheNearest(lex: Lexicon, texts: set<string>, s: Sys, e: Event, slot: nat)
    requires Allowed(lex, texts, s, e) && e.Search? && At(s, e.c, slot)
    ensures var call, m, s' := s.calls[e.c], s.calls[e.c].memories[slot], Apply(lex, texts, s, e);
      && s' == Sys(s.rows, s.calls[e.c := call.(pc := s'.calls[e.c].pc)])
      && (s'.calls[e.c].pc == Creating(call.pc.k) <==> NoneServes(lex, Minted(e.c, slot), m, e.neighbours))
      && (forall p | 0 <= p < |e.neighbours| && Nearest(lex, Minted(e.c, slot), m, e.neighbours, p) ::
            var n := e.neighbours[p];
            s'.calls[e.c].pc ==
              if Subsumes(lex, m.content, n.content) == NewSubsumesOld
              then Upgrading(call.pc.k, n.id, n.content)
              else Answering(call.pc.k, n.id, n.content))
  {
    var self, m := Minted(e.c, slot), s.calls[e.c].memories[slot];
    NoneServesIffNoCandidate(lex, self, m, e.neighbours);
    forall p | 0 <= p < |e.neighbours| && Nearest(lex, self, m, e.neighbours, p)
      ensures FirstCandidate(lex, self, m, e.neighbours) == Some(e.neighbours[p])
    {
      NearestIsTaken(lex, self, m, e.neighbours, p);
    }
  }

  /** The slot is answered with the text that was read; the store is untouched. */
  lemma AnswerReports(lex: Lexicon, texts: set<string>, s: Sys, e: Event, slot: nat)
    requires Allowed(lex, texts, s, e) && e.Answer? && At(s, e.c, slot)
    ensures var call, s' := s.calls[e.c], Apply(lex, texts, s, e);
      && s' == Sys(s.rows, s.calls[e.c := s'.calls[e.c]])
      && Settled(call, s'.calls[e.c], slot, Some(Reported(call.pc.id, call.pc.read)))
  {
  }

  /** The row takes the fuller wording and answers the slot; failing that, a row will be created. */
  lemma UpgradeRewrites(lex: Lexicon, texts: set<string>, s: Sys, e: Event, slot: nat)
    requires Allowed(lex, texts, s, e) && e.Upgrade? && At(s, e.c, slot)
    ensures var call, m, s' := s.calls[e.c], s.calls[e.c].memories[slot], Apply(lex, texts, s, e);
      var expected := lex.Hash(call.pc.read);
      var intact := IsContentHash(expected) && call.pc.id in s.rows && s.rows[call.pc.id].hash == expected;
      && s'.calls == s.calls[e.c := s'.calls[e.c]]
      && s'.rows == (if intact && e.outcome != LostBefore
                     then s.rows[call.pc.id := Row(s.rows[call.pc.id].project, s.rows[call.pc.id].kind, m.content,
                                                   lex.Hash(m.content))]
                     else s.rows)
      && if intact && e.outcome == Confirmed
         then Settled(call, s'.calls[e.c], slot, Some(Reported(call.pc.id, m.content)))
         else s'.calls[e.c] == call.(pc := Creating(call.pc.k))
  {
  }

  lemma CreateAdds(lex: Lexicon, texts: set<string>, s: Sys, e: Event, slot: nat)
    requires Allowed(lex, texts, s, e) && e.Create? && At(s, e.c, slot)
    ensures var call, m, s' := s.calls[e.c], s.calls[e.c].memories[slot], Apply(lex, texts, s, e);
      && s'.calls == s.calls[e.c := s'.calls[e.c]]
      && s'.rows == (if e.outcome == LostBefore then s.rows
                     else s.rows[Minted(e.c, slot) := Row(call.project, m.kind, m.content, lex.Hash(m.content))])
      && Settled(call, s'.calls[e.c], slot,
                 if e.outcome == Confirmed then Some(Reported(Minted(e.c, slot), m.content)) else None)
  {
  }

  // ---- Whole runs

  /** The lookup of call `c` ran before `i` and found none of the memories still pending. */
  predicate LookedUp(lex: Lexicon, e: Event, c: nat, call: Call) {
    && Position(call) && e.LookUp? && e.c == c
    && forall slot | slot in call.pending ::
         ContentKey(lex.Hash(call.memories[slot].content), call.memories[slot].kind) !in e.found
  }

  /** A search for `slot` whose nearest neighbour not passed over is row `id`, then saying `read`. */
  predicate Chose(lex: Lexicon, s: Sys, e: Event, c: nat, slot: nat, id: Id, read: string) {
    && At(s, c, slot) && e.Search? && e.c == c
    && exists p :: 0 <= p < |e.neighbours| && e.neighbours[p].id == id && e.neighbours[p].content == read
                && Nearest(lex, Minted(c, slot), s.calls[c].memories[slot], e.neighbours, p)
  }

  /** A search for `slot` that passed every neighbour over. */
  predicate FoundNone(lex: Lexicon, s: Sys, e: Event, c: nat, slot: nat) {
    && At(s, c, slot) && e.Search? && e.c == c
    && NoneServes(lex, Minted(c, slot), s.calls[c].memories[slot], e.neighbours)
  }

  /** An upgrade for `slot` that was not confirmed, or found its row rewritten since it was read. */
  predicate NotUpgraded(lex: Lexicon, s: Sys, e: Event, c: nat, slot: nat) {
    && At(s, c, slot) && e.Upgrade? && e.c == c && s.calls[c].pc.Upgrading?
    && (e.outcome != Confirmed || !Swappable(s.rows, s.calls[c].pc.id, lex.Hash(s.calls[c].pc.read)))
  }

  predicate Fuller(lex: Lexicon, m: Memory, read: string) {
    Subsumes(lex, m.content, read) == NewSubsumesOld
  }

  ghost predicate Looked(lex: Lexicon, events: seq<Event>, i: nat, c: nat, call: Call) {
    i <= |events| && exists l :: 0 <= l < i && LookedUp(lex, events[l], c, call)
  }

  ghost predicate Chosen(lex: Lexicon, trace: seq<Sys>, events: seq<Event>, i: nat, c: nat, slot: nat, id: Id,
                         read: string) {
    i <= |events| < |trace| && exists j :: 0 <= j < i && Chose(lex, trace[j], events[j], c, slot, id, read)
  }

  ghost predicate Unserved(lex: Lexicon, trace: seq<Sys>, events: seq<Event>, i: nat, c: nat, slot: nat) {
    && i <= |events| < |trace|
    && exists j :: 0 <= j < i && (FoundNone(lex, trace[j], events[j], c, slot)
                                  || NotUpgraded(lex, trace[j], events[j], c, slot))
  }

  predicate Busy(call: Call) {
    Position(call) && !call.pc.LookingUp? && !call.pc.Done?
  }

  /** What brought call `c` to where it stands, in steps before `i`. */
  ghost predicate Caused(lex: Lexicon, trace: seq<Sys>, events: seq<Event>, i: nat, c: nat, call: Call) {
    && (!call.pc.LookingUp? ==> Looked(lex, events, i, c, call))
    && (Busy(call) ==> SlotCaused(lex, trace, events, i, c, call, call.pending[call.pc.k]))
  }

  ghost predicate SlotCaused(lex: Lexicon, trace: seq<Sys>, events: seq<Event>, i: nat, c: nat, call: Call, slot: nat)
    requires slot < |call.memories|
  {
    && (call.pc.Answering? || call.pc.Upgrading? ==>
          && (call.pc.Upgrading? <==> Fuller(lex, call.memories[slot], call.pc.read))
          && Chosen(lex, trace, events, i, c, slot, call.pc.id, call.pc.read))
    && (call.pc.Creating? ==> Unserved(lex, trace, events, i, c, slot))
  }

  lemma NearestExists(lex: Lexicon, self: Id, m: Memory, neighbours: seq<Neighbour>) returns (p: nat)
    requires !NoneServes(lex, self, m, neighbours)
    ensures Nearest(lex, self, m, neighbours, p)
  {
    p := FirstWhere((n: Neighbour) => !PassedOver(lex, self, m, n), neighbours, 0);
  }

  /** The lookup stays in the past, and the slots pending after it stay the same. */
  lemma StillLooked(lex: Lexicon, events: seq<Event>, h: nat, c: nat, call: Call, call': Call)
    requires h < |events| && Looked(lex, events, h, c, call) && Position(call')
    requires call'.pending == call.pending && call'.memories == call.memories
    ensures Looked(lex, events, h + 1, c, call')
  {
    var l :| 0 <= l < h && LookedUp(lex, events[l], c, call);
    assert LookedUp(lex, events[l], c, call');
  }

  lemma LookUpIsCaused(lex: Lexicon, texts: set<string>, trace: seq<Sys>, events: seq<Event>, h: nat, c: nat)
    requires h < |events| < |trace| && Live(trace[h], c) && Live(trace[h + 1], c)
    requires Allowed(lex, texts, trace[h], events[h]) && trace[h + 1] == Apply(lex, texts, trace[h], events[h])
    requires events[h].LookUp? && events[h].c == c
    ensures Caused(lex, trace, events, h + 1, c, trace[h + 1].calls[c])
  {
    LookUpAnswersTheStored(lex, texts, trace[h], events[h]);
    assert LookedUp(lex, events[h], c, trace[h + 1].calls[c]);
  }

  lemma NearestIsChosen(lex: Lexicon, s: Sys, e: Event, c: nat, slot: nat, p: nat)
    requires At(s, c, slot) && e.Search? && e.c == c
    requires Nearest(lex, Minted(c, slot), s.calls[c].memories[slot], e.neighbours, p)
    ensures Chose(lex, s, e, c, slot, e.neighbours[p].id, e.neighbours[p].content)
  {
  }

  lemma SearchIsCaused(lex: Lexicon, texts: set<string>, trace: seq<Sys>, events: seq<Event>, h: nat, c: nat,
                       slot: nat)
    requires h < |events| < |trace| && Steps(lex, texts, trace[h], events[h], trace[h + 1])
    requires events[h].Search? && events[h].c == c && At(trace[h], c, slot)
    ensures At(trace[h + 1], c, slot)
    ensures SlotCaused(lex, trace, events, h + 1, c, trace[h + 1].calls[c], slot)
  {
    var s, e := trace[h], events[h];
    var call, self, m := s.calls[c], Minted(c, slot), s.calls[c].memories[slot];
    SearchTakesTheNearest(lex, texts, s, e, slot);
    if NoneServes(lex, self, m, e.neighbours) {
      assert FoundNone(lex, s, e, c, slot);
    } else {
      var p := NearestExists(lex, self, m, e.neighbours);
      var n := e.neighbours[p];
      NearestIsChosen(lex, s, e, c, slot, p);
      assert trace[h + 1].calls[c].pc == if Fuller(lex, m, n.content) then Upgrading(call.pc.k, n.id, n.content)
                                         else Answering(call.pc.k, n.id, n.content);
    }
  }

  lemma UpgradeIsCaused(lex: Lexicon, texts: set<string>, trace: seq<Sys>, events: seq<Event>, h: nat, c: nat,
                        slot: nat)
    requires h < |events| < |trace| && Steps(lex, texts, trace[h], events[h], trace[h + 1])
    requires events[h].Upgrade? && events[h].c == c && At(trace[h], c, slot)
    ensures var call' := trace[h + 1].calls[c];
      && (call'.pc == Done || (Busy(call') && call'.pc.Searching?) || At(trace[h + 1], c, slot))
      && !call'.pc.Answering? && !call'.pc.Upgrading?
      && (call'.pc.Creating? ==> Unserved(lex, trace, events, h + 1, c, slot))
  {
    UpgradeRewrites(lex, texts, trace[h], events[h], slot);
    if trace[h + 1].calls[c].pc.Creating? {
      assert NotUpgraded(lex, trace[h], events[h], c, slot);
    }
  }

  /** Once a slot is left behind the next one has still to be searched for. */
  lemma SettlingIsCaused(lex: Lexicon, texts: set<string>, trace: seq<Sys>, events: seq<Event>, h: nat, c: nat,
                         slot: nat)
    requires h < |events| < |trace| && Steps(lex, texts, trace[h], events[h], trace[h + 1])
    requires events[h].Answer? || events[h].Create?
    requires events[h].c == c && At(trace[h], c, slot)
    ensures c < |trace[h + 1].calls| && trace[h + 1].calls[c].pc in {Done, Searching(trace[h].calls[c].pc.k + 1)}
  {
  }

  lemma PendingIsFixed(lex: Lexicon, texts: set<string>, s: Sys, e: Event)
    requires Allowed(lex, texts, s, e) && !e.StoreDirectly? && !e.LookUp?
    ensures var call' := Apply(lex, texts, s, e).calls[e.c];
      Busy(s.calls[e.c]) && call'.pending == s.calls[e.c].pending && call'.memories == s.calls[e.c].memories
  {
  }

  /** One statement of the call itself. */
  lemma OwnStepIsCaused(lex: Lexicon, texts: set<string>, trace: seq<Sys>, events: seq<Event>, h: nat, c: nat,
                        call': Call)
    requires h < |events| < |trace| && Live(trace[h], c) && Live(trace[h + 1], c)
    requires Steps(lex, texts, trace[h], events[h], trace[h + 1]) && !events[h].StoreDirectly? && events[h].c == c
    requires Caused(lex, trace, events, h, c, trace[h].calls[c]) && call' == trace[h + 1].calls[c]
    ensures Caused(lex, trace, events, h + 1, c, call')
  {
    if events[h].LookUp? {
      LookUpIsCaused(lex, texts, trace, events, h, c);
    } else {
      var call := trace[h].calls[c];
      PendingIsFixed(lex, texts, trace[h], events[h]);
      StillLooked(lex, events, h, c, call, call');
      var slot := call.pending[call.pc.k];
      match events[h]
      case Search(_, _) => SearchIsCaused(lex, texts, trace, events, h, c, slot);
      case Upgrade(_, _) => UpgradeIsCaused(lex, texts, trace, events, h, c, slot);
      case _ => SettlingIsCaused(lex, texts, trace, events, h, c, slot);
    }
  }

  /** Any statement, the call's own or another's. */
  lemma StepIsCaused(lex: Lexicon, texts: set<string>, trace: seq<Sys>, events: seq<Event>, h: nat, c: nat)
    requires h < |events| < |trace| && Live(trace[h], c) && Live(trace[h + 1], c)
    requires Steps(lex, texts, trace[h], events[h], trace[h + 1])
    requires Caused(lex, trace, events, h, c, trace[h].calls[c])
    ensures Caused(lex, trace, events, h + 1, c, trace[h + 1].calls[c])
  {
    if !events[h].StoreDirectly? && events[h].c == c {
      OwnStepIsCaused(lex, texts, trace, events, h, c, trace[h + 1].calls[c]);
    } else {
      assert trace[h + 1].calls[c] == trace[h].calls[c];
    }
  }

  lemma FreshIsCaused(lex: Lexicon, texts: set<string>, trace: seq<Sys>, events: seq<Event>, c: nat)
    requires Run(lex, texts, trace, events) && c < |trace[0].calls|
    ensures Caused(lex, trace, events, 0, c, trace[0].calls[c])
  {
    assert Fresh(trace[0].calls[c]);
  }

  lemma {:induction false} EveryStandHasACause(lex: Lexicon, texts: set<string>, trace: seq<Sys>, events: seq<Event>,
                                               i: nat, c: nat)
    requires Run(lex, texts, trace, events) && i < |trace| && c < |trace[i].calls|
    ensures Live(trace[i], c) && Caused(lex, trace, events, i, c, trace[i].calls[c])
  {
    CallsAreLive(lex, texts, trace, events, i, c);
    if i == 0 {
      FreshIsCaused(lex, texts, trace, events, c);
    } else {
      var h := i - 1;
      assert Steps(lex, texts, trace[h], events[h], trace[h + 1]);
      EveryStandHasACause(lex, texts, trace, events, h, c);
      StepIsCaused(lex, texts, trace, events, h, c);
    }
  }

  lemma CallsAreLive(lex: Lexicon, texts: set<string>, trace: seq<Sys>, events: seq<Event>, i: nat, c: nat)
    requires Run(lex, texts, trace, events) && i < |trace| && c < |trace[i].calls|
    ensures Live(trace[i], c)
  {
    RunKeepsInv(lex, texts, trace, events, i);
    assert CallAt(lex, texts, trace[i], c);
  }

  /** Call `c` had reason to write `slot` as a row of its own. */
  ghost predicate New(lex: Lexicon, trace: seq<Sys>, events: seq<Event>, i: nat, c: nat, slot: nat) {
    && i < |trace| && At(trace[i], c, slot)
    && Looked(lex, events, i, c, trace[i].calls[c]) && Unserved(lex, trace, events, i, c, slot)
  }

  /**
   * A row is created only for a memory whose fingerprint the lookup did not find and whose search
   * passed every neighbour over, or whose upgrade was not confirmed or met a rewritten row.
   */
  lemma CreatesOnlyTheNew(lex: Lexicon, texts: set<string>, trace: seq<Sys>, events: seq<Event>, i: nat, slot: nat)
    requires Run(lex, texts, trace, events) && i < |events| && events[i].Create?
    requires At(trace[i], events[i].c, slot)
    ensures New(lex, trace, events, i, events[i].c, slot)
  {
    assert Steps(lex, texts, trace[i], events[i], trace[i + 1]);
    EveryStandHasACause(lex, texts, trace, events, i, events[i].c);
  }

  /** Step `i` created the row of `slot`, for a reason. */
  ghost predicate Wrote(lex: Lexicon, trace: seq<Sys>, events: seq<Event>, i: nat, c: nat, slot: nat) {
    && i < |events| < |trace| && events[i].Create? && events[i].c == c && events[i].outcome != LostBefore
    && New(lex, trace, events, i, c, slot)
  }

  lemma OnlyCreateMints(lex: Lexicon, texts: set<string>, s: Sys, e: Event, c: nat, slot: nat)
    requires Allowed(lex, texts, s, e) && Minted(c, slot) !in s.rows
    requires Minted(c, slot) in RowsAfter(lex, texts, s, e)
    ensures e.Create? && e.c == c && e.outcome != LostBefore && At(s, c, slot)
  {
  }

  /** At step `h` the row of `slot` was there, is not there yet, or was written for a reason. */
  ghost predicate RowStep(lex: Lexicon, trace: seq<Sys>, events: seq<Event>, h: nat, c: nat, slot: nat) {
    h + 1 < |trace| && Minted(c, slot) in trace[h + 1].rows ==>
      Minted(c, slot) in trace[h].rows || Wrote(lex, trace, events, h, c, slot)
  }

  lemma RowsStep(lex: Lexicon, texts: set<string>, trace: seq<Sys>, events: seq<Event>, h: nat, c: nat, slot: nat)
    requires Run(lex, texts, trace, events)
    ensures RowStep(lex, trace, events, h, c, slot)
  {
    if h + 1 < |trace| && Minted(c, slot) in trace[h + 1].rows && Minted(c, slot) !in trace[h].rows {
      assert Steps(lex, texts, trace[h], events[h], trace[h + 1]);
      OnlyCreateMints(lex, texts, trace[h], events[h], c, slot);
      CreatesOnlyTheNew(lex, texts, trace, events, h, slot);
    }
  }

  lemma {:induction false} RowsFromSteps(lex: Lexicon, trace: seq<Sys>, events: seq<Event>, j: nat, c: nat, slot: nat)
    requires forall h: nat :: RowStep(lex, trace, events, h, c, slot)
    requires j < |trace| && Minted(c, slot) in trace[j].rows && Minted(c, slot) !in trace[0].rows
    ensures exists i :: 0 <= i < j && Wrote(lex, trace, events, i, c, slot)
  {
    assert RowStep(lex, trace, events, j - 1, c, slot);
    if Minted(c, slot) in trace[j - 1].rows {
      RowsFromSteps(lex, trace, events, j - 1, c, slot);
    }
  }

  /** Every row a call ever added to the store it added for a reason. */
  lemma RowsAreOnlyTheNew(lex: Lexicon, texts: set<string>, trace: seq<Sys>, events: seq<Event>, j: nat, c: nat,
                          slot: nat)
    requires Run(lex, texts, trace, events) && j < |trace| && Minted(c, slot) in trace[j].rows
    ensures exists i :: 0 <= i < j && Wrote(lex, trace, events, i, c, slot)
  {
    forall h: nat ensures RowStep(lex, trace, events, h, c, slot) {
      RowsStep(lex, texts, trace, events, h, c, slot);
    }
    RowsFromSteps(lex, trace, events, j, c, slot);
  }

  /** How the answer `r` of `slot` came about at step `h`. */
  ghost predicate Answered(lex: Lexicon, trace: seq<Sys>, events: seq<Event>, h: nat, c: nat, slot: nat, r: Reported)
    requires h < |events| < |trace| && Live(trace[h], c) && slot < |trace[h].calls[c].memories|
  {
    var call, m := trace[h].calls[c], trace[h].calls[c].memories[slot];
    match events[h]
    case LookUp(d, found) =>
      var key := ContentKey(lex.Hash(m.content), m.kind);
      d == c && key in found && r == Reported(found[key].id, found[key].content)
    case Answer(d) =>
      && d == c && At(trace[h], c, slot) && !Fuller(lex, m, r.content)
      && Chosen(lex, trace, events, h, c, slot, r.id, r.content)
    case Upgrade(d, outcome) =>
      && d == c && At(trace[h], c, slot) && outcome == Confirmed
      && call.pc.Upgrading? && r == Reported(call.pc.id, m.content)
      && Fuller(lex, m, call.pc.read) && Swappable(trace[h].rows, r.id, lex.Hash(call.pc.read))
      && Chosen(lex, trace, events, h, c, slot, r.id, call.pc.read)
    case Create(d, outcome) =>
      d == c && outcome == Confirmed && r == Reported(Minted(c, slot), m.content)
      && New(lex, trace, events, h, c, slot)
    case _ => false
  }

  lemma OwnAnswer(lex: Lexicon, texts: set<string>, trace: seq<Sys>, events: seq<Event>, h: nat, c: nat, slot: nat)
    requires h < |events| < |trace| && Live(trace[h], c) && Live(trace[h + 1], c)
    requires Steps(lex, texts, trace[h], events[h], trace[h + 1])
    requires Caused(lex, trace, events, h, c, trace[h].calls[c])
    requires slot < |trace[h].calls[c].reported| && slot < |trace[h + 1].calls[c].reported|
    requires trace[h + 1].calls[c].reported[slot].Some?
    requires trace[h + 1].calls[c].reported[slot] != trace[h].calls[c].reported[slot]
    ensures Answered(lex, trace, events, h, c, slot, trace[h + 1].calls[c].reported[slot].value)
  {
    var s, e := trace[h], events[h];
    assert !e.StoreDirectly? && e.c == c;
    if e.LookUp? {
      LookUpAnswersTheStored(lex, texts, s, e);
    } else {
      var at := s.calls[c].pending[s.calls[c].pc.k];
      if e.Search? {
        SearchTakesTheNearest(lex, texts, s, e, at);
      } else if e.Answer? {
        AnswerReports(lex, texts, s, e, at);
      } else if e.Upgrade? {
        UpgradeRewrites(lex, texts, s, e, at);
      } else {
        CreateAdds(lex, texts, s, e, at);
      }
    }
  }

  /**
   * Every answer has one of four sources: the row under the memory's fingerprint, the nearest row
   * saying as much, the nearest row saying less once it took the memory's wording, or a new row.
   */
  lemma {:induction false} AnswersHaveSources(lex: Lexicon, texts: set<string>, trace: seq<Sys>, events: seq<Event>,
                                              i: nat, c: nat, slot: nat) returns (h: nat)
    requires Run(lex, texts, trace, events) && i < |trace|
    requires c < |trace[i].calls| && slot < |trace[i].calls[c].reported| && trace[i].calls[c].reported[slot].Some?
    ensures h < i && Live(trace[h], c) && slot < |trace[h].calls[c].memories|
    ensures Answered(lex, trace, events, h, c, slot, trace[i].calls[c].reported[slot].value)
  {
    CallsAreLive(lex, texts, trace, events, i, c);
    if i > 0 {
      h := i - 1;
      assert Steps(lex, texts, trace[h], events[h], trace[h + 1]);
      StepKeepsMemories(lex, texts, trace[h], events[h], c);
      EveryStandHasACause(lex, texts, trace, events, h, c);
      if trace[h].calls[c].reported[slot] == trace[i].calls[c].reported[slot] {
        h := AnswersHaveSources(lex, texts, trace, events, h, c, slot);
      } else {
        OwnAnswer(lex, texts, trace, events, h, c, slot);
      }
    } else {
      NothingReportedYet(lex, texts, trace, events, c);
    }
  }

  lemma StepKeepsMemories(lex: Lexicon, texts: set<string>, s: Sys, e: Event, c: nat)
    requires Allowed(lex, texts, s, e) && c < |Apply(lex, texts, s, e).calls|
    ensures c < |s.calls| && Apply(lex, texts, s, e).calls[c].memories == s.calls[c].memories
  {
  }

  lemma NothingReportedYet(lex: Lexicon, texts: set<string>, trace: seq<Sys>, events: seq<Event>, c: nat)
    requires Run(lex, texts, trace, events) && c < |trace[0].calls|
    ensures forall x | 0 <= x < |trace[0].calls[c].reported| :: trace[0].calls[c].reported[x] == None
  {
    assert Fresh(trace[0].calls[c]);
  }

  // ---- A restatement is never written

  /** Row `id` is up to date and states `m` in the same tokens. */
  predicate States(lex: Lexicon, rows: Rows, project: string, id: Id, m: Memory) {
    && id in rows && rows[id].project == project && rows[id].kind == m.kind
    && rows[id].hash == lex.Hash(rows[id].content) == lex.Hash(m.content) != ""
  }

  lemma RestatementIsFound(lex: Lexicon, texts: set<string>, rows: Rows, project: string, memories: seq<Memory>,
                           found: map<ContentKey, Hit>, slot: nat, id: Id)
    requires RowsInv(lex, texts, rows) && SoundLookup(lex, rows, project, Hashes(lex, memories), found)
    requires CompleteLookup(lex, rows, project, Hashes(lex, memories), found)
    requires slot < |memories| && States(lex, rows, project, id, memories[slot])
    ensures LookupKey(lex, memories[slot]) in found
    ensures States(lex, rows, project, found[LookupKey(lex, memories[slot])].id, memories[slot])
  {
    var hashes := Hashes(lex, memories);
    assert hashes[slot] in hashes;
    assert Matches(lex, rows, project, hashes, id);
  }

  /** Between `s` and `s'` call `c` was answered `slot` with a row that states it. */
  predicate AnsweredAsStated(lex: Lexicon, s: Sys, s': Sys, c: nat, slot: nat) {
    && c < |s.calls| == |s'.calls| && slot < |s.calls[c].memories| == |s'.calls[c].reported|
    && s'.calls[c].reported[slot].Some?
    && States(lex, s.rows, s.calls[c].project, s'.calls[c].reported[slot].value.id, s.calls[c].memories[slot])
  }

  lemma RestatementIsAnswered(lex: Lexicon, texts: set<string>, s: Sys, e: Event, slot: nat, id: Id)
    requires RowsInv(lex, texts, s.rows) && Allowed(lex, texts, s, e) && e.LookUp? && e.found != map[]
    requires slot < |s.calls[e.c].memories|
    requires States(lex, s.rows, s.calls[e.c].project, id, s.calls[e.c].memories[slot])
    ensures AnsweredAsStated(lex, s, Apply(lex, texts, s, e), e.c, slot)
  {
    var call := s.calls[e.c];
    RestatementIsFound(lex, texts, s.rows, call.project, call.memories, e.found, slot, id);
    LookUpAnswersTheStored(lex, texts, s, e);
  }

  predicate Started(s: Sys, c: nat) {
    c < |s.calls| && !s.calls[c].pc.LookingUp?
  }

  predicate StaysStarted(trace: seq<Sys>, h: nat, c: nat) {
    h + 1 < |trace| && Started(trace[h], c) ==> Started(trace[h + 1], c)
  }

  lemma StepStaysStarted(lex: Lexicon, texts: set<string>, trace: seq<Sys>, events: seq<Event>, h: nat, c: nat)
    requires Run(lex, texts, trace, events)
    ensures StaysStarted(trace, h, c)
  {
    if h + 1 < |trace| {
      assert Steps(lex, texts, trace[h], events[h], trace[h + 1]);
    }
  }

  lemma {:induction false} StartedFromSteps(trace: seq<Sys>, i: nat, j: nat, c: nat)
    requires forall h: nat :: StaysStarted(trace, h, c)
    requires i <= j < |trace| && Started(trace[i], c)
    ensures Started(trace[j], c)
    decreases j
  {
    if i < j {
      StartedFromSteps(trace, i, j - 1, c);
      assert StaysStarted(trace, j - 1, c);
    }
  }

  lemma StartedForGood(lex: Lexicon, texts: set<string>, trace: seq<Sys>, events: seq<Event>, i: nat, j: nat, c: nat)
    requires Run(lex, texts, trace, events) && i <= j < |trace| && Started(trace[i], c)
    ensures Started(trace[j], c)
  {
    forall h: nat ensures StaysStarted(trace, h, c) {
      StepStaysStarted(lex, texts, trace, events, h, c);
    }
    StartedFromSteps(trace, i, j, c);
  }

  /** A slot being worked on has no answer. */
  lemma WorkedOnUnanswered(lex: Lexicon, texts: set<string>, trace: seq<Sys>, events: seq<Event>, i: nat, c: nat,
                           slot: nat)
    requires Run(lex, texts, trace, events) && i < |trace| && At(trace[i], c, slot)
    ensures trace[i].calls[c].reported[slot] == None
  {
    RunKeepsInv(lex, texts, trace, events, i);
    assert CallAt(lex, texts, trace[i], c);
    assert Ahead(trace[i].calls[c], Cursor(trace[i].calls[c]), slot);
  }

  /** Only the lookup looks up: what it answered is not worked on before it or after it. */
  lemma AnsweredIsNotWorkedOn(lex: Lexicon, texts: set<string>, trace: seq<Sys>, events: seq<Event>, l: nat, i: nat,
                              c: nat, slot: nat)
    requires Run(lex, texts, trace, events) && l < |events| && i < |trace| && Live(trace[l], c)
    requires trace[l].calls[c].pc.LookingUp? && c < |trace[l + 1].calls| && slot < |trace[l + 1].calls[c].reported|
    requires trace[l + 1].calls[c].reported[slot].Some?
    ensures !At(trace[i], c, slot)
  {
    if At(trace[i], c, slot) {
      WorkedOnUnanswered(lex, texts, trace, events, i, c, slot);
      if l < i {
        RunExtends(lex, texts, trace, events, l + 1, i, c);
      } else {
        StartedForGood(lex, texts, trace, events, i, l, c);
      }
    }
  }

  /**
   * Saying again what the store already states in the same tokens adds nothing: when the lookup
   * found anything at all, the memory is answered with such a row and is never written.
   */
  lemma RestatementIsNeverWritten(lex: Lexicon, texts: set<string>, trace: seq<Sys>, events: seq<Event>, l: nat,
                                  j: nat, slot: nat, id: Id)
    requires Run(lex, texts, trace, events) && l < |events| && j < |trace|
    requires events[l].LookUp? && events[l].found != map[] && Live(trace[l], events[l].c)
    requires slot < |trace[l].calls[events[l].c].memories|
    requires States(lex, trace[l].rows, trace[l].calls[events[l].c].project, id,
                    trace[l].calls[events[l].c].memories[slot])
    ensures AnsweredAsStated(lex, trace[l], trace[l + 1], events[l].c, slot)
    ensures Minted(events[l].c, slot) !in trace[j].rows
  {
    var c := events[l].c;
    RunKeepsInv(lex, texts, trace, events, l);
    assert Steps(lex, texts, trace[l], events[l], trace[l + 1]);
    RestatementIsAnswered(lex, texts, trace[l], events[l], slot, id);
    if Minted(c, slot) in trace[j].rows {
      RowsAreOnlyTheNew(lex, texts, trace, events, j, c, slot);
      var i :| 0 <= i < j && Wrote(lex, trace, events, i, c, slot);
      AnsweredIsNotWorkedOn(lex, texts, trace, events, l, i, c, slot);
    }
  }
}
