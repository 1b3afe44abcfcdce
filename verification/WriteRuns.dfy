/** Whole runs of the write protocol: what a call reports stays true in every later state. */
module WriteRuns {
  import opened Wrappers
  import opened Content
  import opened Dedup
  import opened MemoryStore
  import opened WriteProtocol

  predicate Fresh(call: Call) {
    call.project != "" && call.pc == LookingUp && call.failed == {} && call.pending == []
    && call.reported == seq(|call.memories|, _ => None)
  }

  /** Any store, and any number of calls about to start. */
  ghost predicate Initial(lex: Lexicon, texts: set<string>, s: Sys) {
    && lex.CollisionFree(texts) && RowsInv(lex, texts, s.rows)
    && (forall id | id in s.rows :: id.Seeded?)
    && (forall c | 0 <= c < |s.calls| :: Fresh(s.calls[c]) && forall m | m in s.calls[c].memories :: m.content in texts)
  }

  ghost predicate Run(lex: Lexicon, texts: set<string>, trace: seq<Sys>, events: seq<Event>) {
    && |trace| == |events| + 1 && Initial(lex, texts, trace[0])
    && (forall i | 0 <= i < |events| :: Steps(lex, texts, trace[i], events[i], trace[i + 1]))
  }

  predicate Steps(lex: Lexicon, texts: set<string>, s: Sys, e: Event, s': Sys) {
    Allowed(lex, texts, s, e) && s' == Apply(lex, texts, s, e)
  }

  lemma {:induction false} RunKeepsInv(lex: Lexicon, texts: set<string>, trace: seq<Sys>, events: seq<Event>, i: nat)
    requires Run(lex, texts, trace, events) && i < |trace|
    ensures Inv(lex, texts, trace[i])
  {
    if i == 0 {
      forall c: nat ensures CallAt(lex, texts, trace[0], c) {
        if c < |trace[0].calls| {
          assert Fresh(trace[0].calls[c]);
        }
      }
    } else {
      RunKeepsInv(lex, texts, trace, events, i - 1);
      assert Steps(lex, texts, trace[i - 1], events[i - 1], trace[i - 1 + 1]);
      StepKeepsInv(lex, texts, trace[i - 1], events[i - 1]);
    }
  }

  /** What a call has reported it keeps reporting, and its memories and project are fixed. */
  predicate Extends(call: Call, call': Call) {
    && call'.project == call.project && call'.memories == call.memories
    && |call'.reported| == |call.reported| == |call.memories|
    && (forall slot | 0 <= slot < |call.reported| && call.reported[slot].Some? ::
           call'.reported[slot] == call.reported[slot])
  }

  /** Only slots nobody has answered yet are written. */
  lemma ActingExtends(lex: Lexicon, texts: set<string>, s: Sys, e: Event)
    requires Allowed(lex, texts, s, e) && !e.StoreDirectly? && SlotsInv(s.calls[e.c])
    ensures Extends(s.calls[e.c], CallAfter(lex, texts, s, e))
  {
    var call := s.calls[e.c];
    if !e.LookUp? {
      assert Ahead(call, Cursor(call), call.pending[call.pc.k]);
    }
  }

  lemma StepExtends(lex: Lexicon, texts: set<string>, s: Sys, e: Event, c: nat)
    requires Inv(lex, texts, s) && Allowed(lex, texts, s, e) && c < |s.calls|
    ensures |Apply(lex, texts, s, e).calls| == |s.calls|
    ensures Extends(s.calls[c], Apply(lex, texts, s, e).calls[c])
  {
    assert CallAt(lex, texts, s, c);
    if !e.StoreDirectly? && e.c == c {
      ActingExtends(lex, texts, s, e);
    }
  }

  lemma RunStepExtends(lex: Lexicon, texts: set<string>, trace: seq<Sys>, events: seq<Event>, j: nat, c: nat)
    requires Run(lex, texts, trace, events) && j + 1 < |trace| && c < |trace[j].calls|
    ensures c < |trace[j + 1].calls| && Extends(trace[j].calls[c], trace[j + 1].calls[c])
  {
    RunKeepsInv(lex, texts, trace, events, j);
    assert Steps(lex, texts, trace[j], events[j], trace[j + 1]);
    StepExtends(lex, texts, trace[j], events[j], c);
  }

  lemma RunExtendsItself(lex: Lexicon, texts: set<string>, trace: seq<Sys>, events: seq<Event>, i: nat, c: nat)
    requires Run(lex, texts, trace, events) && i < |trace| && c < |trace[i].calls|
    ensures Extends(trace[i].calls[c], trace[i].calls[c])
  {
    RunKeepsInv(lex, texts, trace, events, i);
    assert CallAt(lex, texts, trace[i], c);
  }

  lemma {:induction false} RunExtends(lex: Lexicon, texts: set<string>, trace: seq<Sys>, events: seq<Event>, i: nat,
                                      j: nat, c: nat)
    requires Run(lex, texts, trace, events) && i <= j < |trace| && c < |trace[i].calls|
    ensures c < |trace[j].calls| && Extends(trace[i].calls[c], trace[j].calls[c])
    decreases j
  {
    if i == j {
      RunExtendsItself(lex, texts, trace, events, i, c);
    } else {
      RunExtends(lex, texts, trace, events, i, j - 1, c);
      RunStepExtends(lex, texts, trace, events, j - 1, c);
      ExtendsTransitive(trace[i].calls[c], trace[j - 1].calls[c], trace[j].calls[c]);
    }
  }

  lemma ExtendsTransitive(a: Call, b: Call, c: Call)
    requires Extends(a, b) && Extends(b, c)
    ensures Extends(a, c)
  {
    forall slot | 0 <= slot < |a.reported| && a.reported[slot].Some? ensures c.reported[slot] == a.reported[slot] {
      assert b.reported[slot] == a.reported[slot];
    }
  }

  /**
   * No reported fact ever vanishes. In every interleaving, from the moment a call reports a memory
   * and in every later state, the reported row is there, with the call's project and the memory's
   * type, saying both what was reported and what the conversation stated.
   */
  lemma NoReportedFactVanishes(lex: Lexicon, texts: set<string>, trace: seq<Sys>, events: seq<Event>, i: nat, j: nat,
                               c: nat, slot: nat)
    requires Run(lex, texts, trace, events) && i <= j < |trace|
    requires c < |trace[i].calls| && slot < |trace[i].calls[c].reported| && trace[i].calls[c].reported[slot].Some?
    ensures slot < |trace[i].calls[c].memories|
    ensures Represents(lex, trace[j].rows, trace[i].calls[c].project, trace[i].calls[c].memories[slot],
                       trace[i].calls[c].reported[slot].value)
  {
    RunExtends(lex, texts, trace, events, i, j, c);
    RunKeepsInv(lex, texts, trace, events, j);
    assert CallAt(lex, texts, trace[j], c);
  }

  /** A finished call has answered every slot, except those whose row could not be created. */
  lemma EverySlotIsAccountedFor(lex: Lexicon, texts: set<string>, trace: seq<Sys>, events: seq<Event>, i: nat, c: nat,
                                slot: nat)
    requires Run(lex, texts, trace, events) && i < |trace|
    requires c < |trace[i].calls| && trace[i].calls[c].pc == Done && slot < |trace[i].calls[c].memories|
    ensures slot < |trace[i].calls[c].reported|
    ensures trace[i].calls[c].reported[slot].Some? <==> slot !in trace[i].calls[c].failed
  {
    RunKeepsInv(lex, texts, trace, events, i);
    assert CallAt(lex, texts, trace[i], c);
  }

  function ToMemories(extracted: seq<Extracted>): seq<Memory> {
    seq(|extracted|, i requires 0 <= i < |extracted| => Memory(extracted[i].kind, extracted[i].content))
  }

  /**
   * From the extractor's output to the store: each extracted fact, including those folded away
   * before anything was written, is said by some row of its project and type from the moment its
   * call finishes, unless the one row that had to be created for it failed to be.
   */
  lemma EveryExtractedFactSurvives(
    lex: Lexicon, texts: set<string>, trace: seq<Sys>, events: seq<Event>, i: nat, j: nat, c: nat,
    extracted: seq<Extracted>, x: nat)
    returns (slot: nat)
    requires Run(lex, texts, trace, events) && i <= j < |trace|
    requires c < |trace[i].calls| && trace[i].calls[c].pc == Done
    requires trace[i].calls[c].memories == ToMemories(Fold(lex, extracted)) && x < |extracted|
    ensures slot < |trace[i].calls[c].memories|
    ensures slot in trace[i].calls[c].failed
         || exists id ::
              Holds(lex, trace[j].rows, trace[i].calls[c].project, extracted[x].kind, id, extracted[x].content)
  {
    var call := trace[i].calls[c];
    var cover, founder := FoldLosesNothing(lex, extracted);
    slot := cover[x];
    var survivor := Fold(lex, extracted)[slot];
    assert StandsFor(lex, survivor, extracted[x]);
    EverySlotIsAccountedFor(lex, texts, trace, events, i, c, slot);
    if slot !in call.failed {
      NoReportedFactVanishes(lex, texts, trace, events, i, j, c, slot);
      var id := call.reported[slot].value.id;
      SaysAllTransitive(lex, trace[j].rows[id].content, survivor.content, extracted[x].content);
      assert Holds(lex, trace[j].rows, call.project, extracted[x].kind, id, extracted[x].content);
    }
  }

  /** Statements a call still has to issue: it never waits for another and never retries. */
  function StepsLeft(call: Call): int {
    match call.pc
    case LookingUp => 3 * |call.memories| + 1
    case Searching(k) => 3 * (|call.pending| - k)
    case Answering(k, _, _) => 3 * (|call.pending| - k) - 1
    case Upgrading(k, _, _) => 3 * (|call.pending| - k) - 1
    case Creating(k) => 3 * (|call.pending| - k) - 2
    case Done => 0
  }

  lemma EveryStepIsProgress(lex: Lexicon, texts: set<string>, s: Sys, e: Event)
    requires Allowed(lex, texts, s, e) && !e.StoreDirectly?
    ensures 0 <= StepsLeft(CallAfter(lex, texts, s, e)) < StepsLeft(s.calls[e.c])
  {
    var call, call' := s.calls[e.c], CallAfter(lex, texts, s, e);
    match e
    case LookUp(_, found) =>
      RemainingSlots(lex, call.memories, found);
      assert call'.pc in {Done, Searching(0)} && call'.memories == call.memories;
    case Search(_, _) =>
      assert call'.pending == call.pending && call'.pc.k == call.pc.k;
    case Answer(_) =>
      assert call'.pending == call.pending && call'.pc == NextPc(call, call.pc.k);
    case Upgrade(_, _) =>
      assert call'.pending == call.pending && call'.pc in {NextPc(call, call.pc.k), Creating(call.pc.k)};
    case Create(_, _) =>
      assert call'.pending == call.pending && call'.pc == NextPc(call, call.pc.k);
  }
}
