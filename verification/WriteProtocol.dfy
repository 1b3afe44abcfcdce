/**
 * Any number of Extract calls over one store, interleaved at every repository statement.
 *
 * A call looks its memories up by fingerprint, then takes the rest one at a time: it searches for
 * neighbours, and either answers with a row that already says the memory, upgrades a row by
 * compare-and-set, or creates a row. The decision is taken on what was read; other calls may have
 * rewritten the row since.
 */
module WriteProtocol {
  import opened Wrappers
  import opened Content
  import opened Dedup
  import opened MemoryStore

  datatype Memory = Memory(kind: MemoryType, content: string)
  datatype Reported = Reported(id: Id, content: string)
  datatype Neighbour = Neighbour(id: Id, kind: MemoryType, content: string)

  /** `k` is a position in `pending`; `read` is the text the verdict was taken on. */
  datatype Pc =
    | LookingUp
    | Searching(k: nat)
    | Answering(k: nat, id: Id, read: string)
    | Upgrading(k: nat, id: Id, read: string)
    | Creating(k: nat)
    | Done

  datatype Call = Call(
    project: string, memories: seq<Memory>, pc: Pc,
    pending: seq<nat>, reported: seq<Option<Reported>>, failed: set<nat>)

  datatype Sys = Sys(rows: Rows, calls: seq<Call>)

  /** A statement can fail before or after it took effect; the caller sees the same error. */
  datatype Outcome = Confirmed | LostBefore | LostAfter

  datatype Event =
    | LookUp(c: nat, found: map<ContentKey, Hit>)
    | Search(c: nat, neighbours: seq<Neighbour>)
    | Answer(c: nat)
    | Upgrade(c: nat, outcome: Outcome)
    | Create(c: nat, outcome: Outcome)
    | StoreDirectly(id: Id, row: Row)

  // ---- The call's own computation

  function Hashes(lex: Lexicon, memories: seq<Memory>): seq<string> {
    seq(|memories|, i requires 0 <= i < |memories| => lex.Hash(memories[i].content))
  }

  function LookupKey(lex: Lexicon, m: Memory): ContentKey {
    ContentKey(lex.Hash(m.content), m.kind)
  }

  function Restate(lex: Lexicon, m: Memory, found: map<ContentKey, Hit>): Option<Reported> {
    var key := LookupKey(lex, m);
    if key in found then Some(Reported(found[key].id, found[key].content)) else None
  }

  function Restated(lex: Lexicon, memories: seq<Memory>, found: map<ContentKey, Hit>): seq<Option<Reported>> {
    seq(|memories|, i requires 0 <= i < |memories| => Restate(lex, memories[i], found))
  }

  function Known(lex: Lexicon, memories: seq<Memory>, found: map<ContentKey, Hit>): seq<bool> {
    seq(|memories|, i requires 0 <= i < |memories| => LookupKey(lex, memories[i]) in found)
  }

  function Unset(flags: seq<bool>): seq<nat> {
    if flags == [] then []
    else
      var n := |flags| - 1;
      if flags[n] then Unset(flags[..n]) else Unset(flags[..n]) + [n]
  }

  /** The slots still to be written, in conversation order. */
  function Remaining(lex: Lexicon, memories: seq<Memory>, found: map<ContentKey, Hit>): seq<nat> {
    Unset(Known(lex, memories, found))
  }

  method SplitByLookup(lex: Lexicon, memories: seq<Memory>, found: map<ContentKey, Hit>)
    returns (reported: seq<Option<Reported>>, pending: seq<nat>)
    ensures reported == Restated(lex, memories, found)
    ensures pending == Remaining(lex, memories, found)
  {
    ghost var known, answers := Known(lex, memories, found), Restated(lex, memories, found);
    reported, pending := [], [];
    for i := 0 to |memories|
      invariant reported == answers[..i]
      invariant pending == Unset(known[..i])
    {
      assert known[..i + 1][..i] == known[..i];
      assert answers[..i + 1] == answers[..i] + [answers[i]];
      var answer := Restate(lex, memories[i], found);
      reported := reported + [answer];
      if answer == None {
        pending := pending + [i];
      }
    }
    assert known[..|memories|] == known;
  }

  predicate Candidate(lex: Lexicon, self: Id, m: Memory, n: Neighbour) {
    n.id != self && n.kind == m.kind && Subsumes(lex, m.content, n.content) != Unrelated
  }

  /** The first neighbour, nearest first, that is not unrelated to `m`. */
  function FirstCandidate(lex: Lexicon, self: Id, m: Memory, neighbours: seq<Neighbour>): (r: Option<Neighbour>)
    ensures r.Some? ==> r.value in neighbours && Candidate(lex, self, m, r.value)
    ensures r.None? <==> forall n | n in neighbours :: !Candidate(lex, self, m, n)
  {
    if neighbours == [] then None
    else if Candidate(lex, self, m, neighbours[0]) then Some(neighbours[0])
    else FirstCandidate(lex, self, m, neighbours[1..])
  }

  method ConsolidateAgainst(lex: Lexicon, self: Id, m: Memory, neighbours: seq<Neighbour>)
    returns (existing: Option<Neighbour>, verdict: Subsumption)
    ensures existing == FirstCandidate(lex, self, m, neighbours)
    ensures verdict == if existing.Some? then Subsumes(lex, m.content, existing.value.content) else Unrelated
  {
    for i := 0 to |neighbours|
      invariant FirstCandidate(lex, self, m, neighbours) == FirstCandidate(lex, self, m, neighbours[i..])
    {
      var n := neighbours[i];
      if n.id != self && n.kind == m.kind {
        verdict := Subsumes(lex, m.content, n.content);
        if verdict != Unrelated {
          return Some(n), verdict;
        }
      }
    }
    return None, Unrelated;
  }

  function Decided(lex: Lexicon, c: nat, call: Call, k: nat, neighbours: seq<Neighbour>): Pc
    requires k < |call.pending| && call.pending[k] < |call.memories|
  {
    var slot := call.pending[k];
    match FirstCandidate(lex, Minted(c, slot), call.memories[slot], neighbours)
    case None => Creating(k)
    case Some(n) =>
      if Subsumes(lex, call.memories[slot].content, n.content) == NewSubsumesOld
      then Upgrading(k, n.id, n.content)
      else Answering(k, n.id, n.content)
  }

  function NextPc(call: Call, k: nat): Pc {
    if k + 1 < |call.pending| then Searching(k + 1) else Done
  }

  function Report(call: Call, k: nat, r: Reported): Call
    requires k < |call.pending| && call.pending[k] < |call.reported|
  {
    call.(reported := call.reported[call.pending[k] := Some(r)], pc := NextPc(call, k))
  }

  function GiveUp(call: Call, k: nat): Call
    requires k < |call.pending|
  {
    call.(failed := call.failed + {call.pending[k]}, pc := NextPc(call, k))
  }

  // ---- Steps

  predicate Position(call: Call) {
    && |call.reported| == |call.memories|
    && (forall j | 0 <= j < |call.pending| :: call.pending[j] < |call.memories|)
    && (!call.pc.LookingUp? && !call.pc.Done? ==> call.pc.k < |call.pending|)
  }

  predicate Live(s: Sys, c: nat) {
    c < |s.calls| && Position(s.calls[c])
  }

  /** `texts` are all contents the run ever involves. A lookup that failed found nothing. */
  predicate Allowed(lex: Lexicon, texts: set<string>, s: Sys, e: Event) {
    match e
    case LookUp(c, found) =>
      && Live(s, c) && s.calls[c].pc == LookingUp
      && SoundLookup(lex, s.rows, s.calls[c].project, Hashes(lex, s.calls[c].memories), found)
      && (found == map[] || CompleteLookup(lex, s.rows, s.calls[c].project, Hashes(lex, s.calls[c].memories), found))
    case Search(c, neighbours) =>
      && Live(s, c) && s.calls[c].pc.Searching?
      && (forall n | n in neighbours ::
            && n.id in s.rows && s.rows[n.id].project == s.calls[c].project
            && s.rows[n.id].kind == n.kind && s.rows[n.id].content == n.content)
    case Answer(c) => Live(s, c) && s.calls[c].pc.Answering?
    case Upgrade(c, _) => Live(s, c) && s.calls[c].pc.Upgrading?
    case Create(c, _) => Live(s, c) && s.calls[c].pc.Creating?
    case StoreDirectly(id, row) =>
      id.Seeded? && id !in s.rows && row.content in texts && row.hash == lex.Hash(row.content)
  }

  function CallAfter(lex: Lexicon, texts: set<string>, s: Sys, e: Event): Call
    requires Allowed(lex, texts, s, e) && !e.StoreDirectly?
  {
    var call := s.calls[e.c];
    match e
    case LookUp(_, found) =>
      var pending := Remaining(lex, call.memories, found);
      call.(reported := Restated(lex, call.memories, found), pending := pending,
            pc := if pending == [] then Done else Searching(0))
    case Search(c, neighbours) =>
      call.(pc := Decided(lex, c, call, call.pc.k, neighbours))
    case Answer(_) =>
      Report(call, call.pc.k, Reported(call.pc.id, call.pc.read))
    case Upgrade(_, outcome) =>
      var m := call.memories[call.pending[call.pc.k]];
      if outcome == Confirmed && Swappable(s.rows, call.pc.id, lex.Hash(call.pc.read))
      then Report(call, call.pc.k, Reported(call.pc.id, m.content))
      else call.(pc := Creating(call.pc.k))
    case Create(c, outcome) =>
      var slot := call.pending[call.pc.k];
      if outcome == Confirmed
      then Report(call, call.pc.k, Reported(Minted(c, slot), call.memories[slot].content))
      else GiveUp(call, call.pc.k)
  }

  function RowsAfter(lex: Lexicon, texts: set<string>, s: Sys, e: Event): Rows
    requires Allowed(lex, texts, s, e)
  {
    match e
    case StoreDirectly(id, row) => s.rows[id := row]
    case Upgrade(c, outcome) =>
      var call := s.calls[c];
      if outcome == LostBefore then s.rows
      else Swapped(lex, s.rows, call.pc.id, lex.Hash(call.pc.read), call.memories[call.pending[call.pc.k]].content)
    case Create(c, outcome) =>
      var call := s.calls[c];
      var slot := call.pending[call.pc.k];
      if outcome == LostBefore then s.rows
      else Created(lex, s.rows, Minted(c, slot), call.project, call.memories[slot].kind, call.memories[slot].content)
    case _ => s.rows
  }

  function Apply(lex: Lexicon, texts: set<string>, s: Sys, e: Event): Sys
    requires Allowed(lex, texts, s, e)
  {
    Sys(RowsAfter(lex, texts, s, e),
        if e.StoreDirectly? then s.calls else s.calls[e.c := CallAfter(lex, texts, s, e)])
  }

  // ---- What every step keeps

  /** Rows never leave, never change project or type, and never say less. */
  ghost predicate Evolves(lex: Lexicon, rows: Rows, rows': Rows) {
    forall id | id in rows :: id in rows' && Grown(lex, rows[id], rows'[id])
  }

  predicate Grown(lex: Lexicon, row: Row, row': Row) {
    row'.project == row.project && row'.kind == row.kind && SaysAll(lex, row'.content, row.content)
  }

  predicate Holds(lex: Lexicon, rows: Rows, project: string, kind: MemoryType, id: Id, content: string) {
    id in rows && rows[id].project == project && rows[id].kind == kind && SaysAll(lex, rows[id].content, content)
  }

  /** The reported row says both what was reported and what the conversation stated. */
  predicate Represents(lex: Lexicon, rows: Rows, project: string, m: Memory, r: Reported) {
    Holds(lex, rows, project, m.kind, r.id, r.content) && Holds(lex, rows, project, m.kind, r.id, m.content)
  }

  predicate RowsInv(lex: Lexicon, texts: set<string>, rows: Rows) {
    forall id | id in rows :: rows[id].content in texts && rows[id].hash in {"", lex.Hash(rows[id].content)}
  }

  predicate Ahead(call: Call, k: nat, slot: nat) {
    exists j :: k <= j < |call.pending| && call.pending[j] == slot
  }

  /** First position of `pending` not yet resolved. */
  function Cursor(call: Call): nat {
    match call.pc case LookingUp => 0 case Done => |call.pending| case _ => call.pc.k
  }

  predicate SlotsInv(call: Call) {
    && Position(call) && call.project != ""
    && (forall i, j | 0 <= i < j < |call.pending| :: call.pending[i] < call.pending[j])
    && (call.pc == LookingUp ==>
           call.failed == {} && forall slot | 0 <= slot < |call.memories| :: call.reported[slot] == None)
    && (call.pc != LookingUp ==> forall slot | 0 <= slot < |call.memories| ::
          if Ahead(call, Cursor(call), slot) then call.reported[slot] == None && slot !in call.failed
          else call.reported[slot].Some? <==> slot !in call.failed)
  }

  predicate Unminted(rows: Rows, c: nat, call: Call) {
    forall slot | 0 <= slot < |call.memories| && (call.pc == LookingUp || Ahead(call, Cursor(call), slot)) ::
      Minted(c, slot) !in rows
  }

  predicate VerdictInv(lex: Lexicon, texts: set<string>, rows: Rows, call: Call)
    requires Position(call)
  {
    (call.pc.Answering? || call.pc.Upgrading?) ==>
      var m := call.memories[call.pending[call.pc.k]];
      && call.pc.read in texts
      && Holds(lex, rows, call.project, m.kind, call.pc.id, call.pc.read)
      && Subsumes(lex, m.content, call.pc.read) in
         (if call.pc.Upgrading? then {NewSubsumesOld} else {Equivalent, OldSubsumesNew})
  }

  predicate ReportsInv(lex: Lexicon, rows: Rows, call: Call)
    requires Position(call)
  {
    forall slot | 0 <= slot < |call.memories| && call.reported[slot].Some? ::
      Represents(lex, rows, call.project, call.memories[slot], call.reported[slot].value)
  }

  predicate CallInv(lex: Lexicon, texts: set<string>, rows: Rows, c: nat, call: Call) {
    && SlotsInv(call)
    && (forall m | m in call.memories :: m.content in texts)
    && Unminted(rows, c, call)
    && VerdictInv(lex, texts, rows, call)
    && ReportsInv(lex, rows, call)
  }

  predicate CallAt(lex: Lexicon, texts: set<string>, s: Sys, c: nat) {
    c < |s.calls| ==> CallInv(lex, texts, s.rows, c, s.calls[c])
  }

  ghost predicate Inv(lex: Lexicon, texts: set<string>, s: Sys) {
    && lex.CollisionFree(texts)
    && RowsInv(lex, texts, s.rows)
    && (forall c: nat :: CallAt(lex, texts, s, c))
  }

  lemma HoldsLater(lex: Lexicon, rows: Rows, rows': Rows, project: string, kind: MemoryType, id: Id, content: string)
    requires Evolves(lex, rows, rows') && Holds(lex, rows, project, kind, id, content)
    ensures Holds(lex, rows', project, kind, id, content)
  {
    assert Grown(lex, rows[id], rows'[id]);
    SaysAllTransitive(lex, rows'[id].content, rows[id].content, content);
  }

  /** The guard compares fingerprints; it admits only a row whose tokens are the ones read. */
  lemma SwapOnlyGrows(lex: Lexicon, texts: set<string>, rows: Rows, id: Id, read: string, content: string)
    requires lex.CollisionFree(texts) && RowsInv(lex, texts, rows) && read in texts && content in texts
    requires Subsumes(lex, content, read) == NewSubsumesOld
    ensures Evolves(lex, rows, Swapped(lex, rows, id, lex.Hash(read), content))
    ensures RowsInv(lex, texts, Swapped(lex, rows, id, lex.Hash(read), content))
  {
    var rows' := Swapped(lex, rows, id, lex.Hash(read), content);
    forall i | i in rows ensures i in rows' && Grown(lex, rows[i], rows'[i]) {
      SaysAllReflexive(lex, rows[i].content);
      if i == id && Swappable(rows, id, lex.Hash(read)) {
        lex.HashAgreesWithTokens(rows[id].content, read, texts);
        VerdictMeaning(lex, content, read);
      }
    }
  }

  /** The compare-and-set succeeds exactly while the row still has the tokens that were read. */
  lemma SwapIffTokensUnchanged(lex: Lexicon, texts: set<string>, rows: Rows, id: Id, read: string)
    requires lex.CollisionFree(texts) && RowsInv(lex, texts, rows) && read in texts && id in rows
    ensures Swappable(rows, id, lex.Hash(read)) <==>
            rows[id].hash != "" && lex.Tokens(read) != [] && lex.Tokens(rows[id].content) == lex.Tokens(read)
  {
    lex.HashAgreesWithTokens(rows[id].content, read, texts);
    lex.HashAgreesWithTokens(read, rows[id].content, texts);
  }

  lemma AddingEvolves(lex: Lexicon, texts: set<string>, rows: Rows, id: Id, row: Row)
    requires RowsInv(lex, texts, rows) && id !in rows
    requires row.content in texts && row.hash == lex.Hash(row.content)
    ensures Evolves(lex, rows, rows[id := row]) && RowsInv(lex, texts, rows[id := row])
  {
    forall i | i in rows ensures Grown(lex, rows[i], rows[id := row][i]) {
      SaysAllReflexive(lex, rows[i].content);
    }
  }

  lemma StepEvolves(lex: Lexicon, texts: set<string>, s: Sys, e: Event)
    requires Inv(lex, texts, s) && Allowed(lex, texts, s, e)
    ensures Evolves(lex, s.rows, RowsAfter(lex, texts, s, e))
    ensures RowsInv(lex, texts, RowsAfter(lex, texts, s, e))
  {
    if e.Upgrade? && e.outcome != LostBefore {
      var call := s.calls[e.c];
      assert CallAt(lex, texts, s, e.c);
      SwapOnlyGrows(lex, texts, s.rows, call.pc.id, call.pc.read, call.memories[call.pending[call.pc.k]].content);
    } else if e.Create? && e.outcome != LostBefore {
      var call := s.calls[e.c];
      assert CallAt(lex, texts, s, e.c);
      var slot := call.pending[call.pc.k];
      assert Ahead(call, Cursor(call), slot);
      var m := call.memories[slot];
      AddingEvolves(lex, texts, s.rows, Minted(e.c, slot), Row(call.project, m.kind, m.content, lex.Hash(m.content)));
    } else if e.StoreDirectly? {
      AddingEvolves(lex, texts, s.rows, e.id, e.row);
    } else {
      forall id | id in s.rows ensures Grown(lex, s.rows[id], s.rows[id]) {
        SaysAllReflexive(lex, s.rows[id].content);
      }
    }
  }

  // ---- Each call keeps its invariant

  /** Other calls' steps: rows only grow, and nobody else mints this call's identifiers. */
  lemma BystanderKeepsInv(lex: Lexicon, texts: set<string>, rows: Rows, rows': Rows, c: nat, call: Call)
    requires CallInv(lex, texts, rows, c, call) && Evolves(lex, rows, rows')
    requires forall slot | Minted(c, slot) in rows' :: Minted(c, slot) in rows
    ensures CallInv(lex, texts, rows', c, call)
  {
    if call.pc.Answering? || call.pc.Upgrading? {
      HoldsLater(lex, rows, rows', call.project, call.memories[call.pending[call.pc.k]].kind, call.pc.id, call.pc.read);
    }
    forall slot | 0 <= slot < |call.memories| && call.reported[slot].Some?
      ensures Represents(lex, rows', call.project, call.memories[slot], call.reported[slot].value)
    {
      RepresentedLater(lex, rows, rows', call.project, call.memories[slot], call.reported[slot].value);
    }
  }

  lemma RepresentedLater(lex: Lexicon, rows: Rows, rows': Rows, project: string, m: Memory, r: Reported)
    requires Represents(lex, rows, project, m, r) && Evolves(lex, rows, rows')
    ensures Represents(lex, rows', project, m, r)
  {
    HoldsLater(lex, rows, rows', project, m.kind, r.id, r.content);
    HoldsLater(lex, rows, rows', project, m.kind, r.id, m.content);
  }

  lemma {:induction false} UnsetSlots(flags: seq<bool>)
    ensures var p := Unset(flags);
      && |p| <= |flags|
      && (forall j | 0 <= j < |p| :: p[j] < |flags|)
      && (forall i, j | 0 <= i < j < |p| :: p[i] < p[j])
      && (forall slot | 0 <= slot < |flags| :: slot in p <==> !flags[slot])
  {
    if flags != [] {
      UnsetSlots(flags[..|flags| - 1]);
    }
  }

  lemma RemainingSlots(lex: Lexicon, memories: seq<Memory>, found: map<ContentKey, Hit>)
    ensures var p := Remaining(lex, memories, found);
      && |p| <= |memories|
      && (forall j | 0 <= j < |p| :: p[j] < |memories|)
      && (forall i, j | 0 <= i < j < |p| :: p[i] < p[j])
      && (forall slot | 0 <= slot < |memories| :: slot in p <==> LookupKey(lex, memories[slot]) !in found)
  {
    UnsetSlots(Known(lex, memories, found));
  }

  /** Equal fingerprints on the texts in play are equal token lists, so the row found says the memory. */
  lemma SameHashSaysAll(lex: Lexicon, texts: set<string>, a: string, b: string)
    requires lex.CollisionFree(texts) && a in texts && b in texts && lex.Hash(a) == lex.Hash(b)
    ensures SaysAll(lex, a, b)
  {
    lex.HashAgreesWithTokens(a, b, texts);
    InOrderReflexive(lex.Tokens(a));
  }

  lemma LookUpKeepsInv(lex: Lexicon, texts: set<string>, s: Sys, e: Event)
    requires Inv(lex, texts, s) && Allowed(lex, texts, s, e) && e.LookUp?
    ensures CallInv(lex, texts, s.rows, e.c, CallAfter(lex, texts, s, e))
  {
    var call, call' := s.calls[e.c], CallAfter(lex, texts, s, e);
    assert CallAt(lex, texts, s, e.c);
    RemainingSlots(lex, call.memories, e.found);
    forall slot | 0 <= slot < |call'.memories|
      ensures Ahead(call', Cursor(call'), slot) <==> LookupKey(lex, call.memories[slot]) !in e.found
    {
      assert slot in call'.pending <==> LookupKey(lex, call.memories[slot]) !in e.found;
    }
    forall slot | 0 <= slot < |call'.memories| && call'.reported[slot].Some?
      ensures Represents(lex, s.rows, call.project, call.memories[slot], call'.reported[slot].value)
    {
      var m := call.memories[slot];
      var key := LookupKey(lex, m);
      assert key in e.found && m in call.memories;
      var row := s.rows[e.found[key].id];
      SameHashSaysAll(lex, texts, row.content, m.content);
      SaysAllReflexive(lex, row.content);
    }
  }

  /** Deciding what to do about a slot leaves every slot where it was. */
  lemma DecidingKeepsSlots(lex: Lexicon, rows: Rows, c: nat, call: Call, pc: Pc)
    requires SlotsInv(call) && Unminted(rows, c, call) && ReportsInv(lex, rows, call)
    requires !call.pc.LookingUp? && !call.pc.Done? && !pc.LookingUp? && !pc.Done? && pc.k == call.pc.k
    ensures var call' := call.(pc := pc); SlotsInv(call') && Unminted(rows, c, call') && ReportsInv(lex, rows, call')
  {
    var call' := call.(pc := pc);
    assert forall x, k :: Ahead(call', k, x) <==> Ahead(call, k, x);
  }

  lemma SearchKeepsInv(lex: Lexicon, texts: set<string>, s: Sys, e: Event)
    requires Inv(lex, texts, s) && Allowed(lex, texts, s, e) && e.Search?
    ensures CallInv(lex, texts, s.rows, e.c, CallAfter(lex, texts, s, e))
  {
    var call := s.calls[e.c];
    assert CallAt(lex, texts, s, e.c);
    var slot := call.pending[call.pc.k];
    DecidingKeepsSlots(lex, s.rows, e.c, call, Decided(lex, e.c, call, call.pc.k, e.neighbours));
    var n := FirstCandidate(lex, Minted(e.c, slot), call.memories[slot], e.neighbours);
    if n.Some? {
      SaysAllReflexive(lex, n.value.content);
    }
  }

  /** Resolving the slot at the cursor leaves exactly the later ones ahead. */
  lemma ResolvingKeepsSlots(call: Call, call': Call, k: nat)
    requires SlotsInv(call) && !call.pc.LookingUp? && !call.pc.Done? && call.pc.k == k
    requires call' == GiveUp(call, k) || (exists r :: call' == Report(call, k, r))
    ensures SlotsInv(call')
    ensures forall x | Ahead(call', Cursor(call'), x) :: Ahead(call, k, x) && x != call.pending[k]
  {
    var slot := call.pending[k];
    assert Ahead(call, k, slot);
    forall x | 0 <= x < |call.memories|
      ensures Ahead(call', Cursor(call'), x) <==> Ahead(call, k, x) && x != slot
    {
      if Ahead(call, k, x) && x != slot {
        var j :| k <= j < |call.pending| && call.pending[j] == x;
        assert k + 1 <= j < |call'.pending| && call'.pending[j] == x;
      }
    }
  }

  lemma ResolvingKeepsUnminted(rows: Rows, rows': Rows, c: nat, call: Call, call': Call, k: nat)
    requires SlotsInv(call) && !call.pc.LookingUp? && !call.pc.Done? && call.pc.k == k && Unminted(rows, c, call)
    requires call'.memories == call.memories && !call'.pc.LookingUp?
    requires forall x | Ahead(call', Cursor(call'), x) :: Ahead(call, k, x) && x != call.pending[k]
    requires forall slot | Minted(c, slot) in rows' && slot != call.pending[k] :: Minted(c, slot) in rows
    ensures Unminted(rows', c, call')
  {
  }

  lemma ResolvingKeepsReports(lex: Lexicon, rows: Rows, rows': Rows, call: Call, call': Call, slot: nat,
                              r: Option<Reported>)
    requires Position(call) && Position(call') && ReportsInv(lex, rows, call) && Evolves(lex, rows, rows')
    requires call'.memories == call.memories && call'.project == call.project && slot < |call.memories|
    requires call'.reported == if r.Some? then call.reported[slot := r] else call.reported
    requires r.Some? ==> Represents(lex, rows', call.project, call.memories[slot], r.value)
    ensures ReportsInv(lex, rows', call')
  {
    forall x | 0 <= x < |call'.memories| && call'.reported[x].Some?
      ensures Represents(lex, rows', call.project, call.memories[x], call'.reported[x].value)
    {
      if x != slot || r.None? {
        RepresentedLater(lex, rows, rows', call.project, call.memories[x], call.reported[x].value);
      }
    }
  }

  lemma ResolvingKeepsInv(lex: Lexicon, texts: set<string>, rows: Rows, rows': Rows, c: nat, call: Call, k: nat,
                          r: Option<Reported>)
    requires CallInv(lex, texts, rows, c, call) && !call.pc.LookingUp? && !call.pc.Done? && call.pc.k == k
    requires Evolves(lex, rows, rows')
    requires forall slot | Minted(c, slot) in rows' && slot != call.pending[k] :: Minted(c, slot) in rows
    requires r.Some? ==> Represents(lex, rows', call.project, call.memories[call.pending[k]], r.value)
    ensures CallInv(lex, texts, rows', c, if r.Some? then Report(call, k, r.value) else GiveUp(call, k))
  {
    var call' := if r.Some? then Report(call, k, r.value) else GiveUp(call, k);
    ResolvingKeepsSlots(call, call', k);
    ResolvingKeepsUnminted(rows, rows', c, call, call', k);
    ResolvingKeepsReports(lex, rows, rows', call, call', call.pending[k], r);
  }

  lemma AnswerKeepsInv(lex: Lexicon, texts: set<string>, s: Sys, e: Event)
    requires Inv(lex, texts, s) && Allowed(lex, texts, s, e) && e.Answer?
    ensures CallInv(lex, texts, s.rows, e.c, CallAfter(lex, texts, s, e))
  {
    var call := s.calls[e.c];
    assert CallAt(lex, texts, s, e.c);
    var m := call.memories[call.pending[call.pc.k]];
    StepEvolves(lex, texts, s, e);
    VerdictMeaning(lex, m.content, call.pc.read);
    SaysAllTransitive(lex, s.rows[call.pc.id].content, call.pc.read, m.content);
    ResolvingKeepsInv(lex, texts, s.rows, s.rows, e.c, call, call.pc.k, Some(Reported(call.pc.id, call.pc.read)));
  }

  lemma UpgradeKeepsInv(lex: Lexicon, texts: set<string>, s: Sys, e: Event)
    requires Inv(lex, texts, s) && Allowed(lex, texts, s, e) && e.Upgrade?
    ensures CallInv(lex, texts, RowsAfter(lex, texts, s, e), e.c, CallAfter(lex, texts, s, e))
  {
    var call, rows' := s.calls[e.c], RowsAfter(lex, texts, s, e);
    assert CallAt(lex, texts, s, e.c);
    var m := call.memories[call.pending[call.pc.k]];
    StepEvolves(lex, texts, s, e);
    if e.outcome == Confirmed && Swappable(s.rows, call.pc.id, lex.Hash(call.pc.read)) {
      SaysAllReflexive(lex, m.content);
      assert Represents(lex, rows', call.project, m, Reported(call.pc.id, m.content));
      ResolvingKeepsInv(lex, texts, s.rows, rows', e.c, call, call.pc.k, Some(Reported(call.pc.id, m.content)));
    } else {
      BystanderKeepsInv(lex, texts, s.rows, rows', e.c, call);
      DecidingKeepsSlots(lex, rows', e.c, call, Creating(call.pc.k));
    }
  }

  lemma CreateKeepsInv(lex: Lexicon, texts: set<string>, s: Sys, e: Event)
    requires Inv(lex, texts, s) && Allowed(lex, texts, s, e) && e.Create?
    ensures CallInv(lex, texts, RowsAfter(lex, texts, s, e), e.c, CallAfter(lex, texts, s, e))
  {
    var call, rows' := s.calls[e.c], RowsAfter(lex, texts, s, e);
    assert CallAt(lex, texts, s, e.c);
    var slot := call.pending[call.pc.k];
    var m := call.memories[slot];
    StepEvolves(lex, texts, s, e);
    SaysAllReflexive(lex, m.content);
    var r := if e.outcome == Confirmed then Some(Reported(Minted(e.c, slot), m.content)) else None;
    ResolvingKeepsInv(lex, texts, s.rows, rows', e.c, call, call.pc.k, r);
  }

  /** Whatever the next statement is, and whoever issues it, the invariant survives it. */
  lemma StepKeepsInv(lex: Lexicon, texts: set<string>, s: Sys, e: Event)
    requires Inv(lex, texts, s) && Allowed(lex, texts, s, e)
    ensures Inv(lex, texts, Apply(lex, texts, s, e))
  {
    StepEvolves(lex, texts, s, e);
    forall c: nat ensures CallAt(lex, texts, Apply(lex, texts, s, e), c) {
      if c < |s.calls| {
        StepKeepsCall(lex, texts, s, e, c);
      }
    }
  }

  lemma StepKeepsBystander(lex: Lexicon, texts: set<string>, s: Sys, e: Event, c: nat)
    requires Inv(lex, texts, s) && Allowed(lex, texts, s, e) && c < |s.calls| && (e.StoreDirectly? || c != e.c)
    ensures CallInv(lex, texts, RowsAfter(lex, texts, s, e), c, s.calls[c])
  {
    assert CallAt(lex, texts, s, c);
    StepEvolves(lex, texts, s, e);
    BystanderKeepsInv(lex, texts, s.rows, RowsAfter(lex, texts, s, e), c, s.calls[c]);
  }

  lemma StepKeepsOwn(lex: Lexicon, texts: set<string>, s: Sys, e: Event)
    requires Inv(lex, texts, s) && Allowed(lex, texts, s, e) && !e.StoreDirectly?
    ensures CallInv(lex, texts, RowsAfter(lex, texts, s, e), e.c, CallAfter(lex, texts, s, e))
  {
    match e
    case LookUp(_, _) => LookUpKeepsInv(lex, texts, s, e);
    case Search(_, _) => SearchKeepsInv(lex, texts, s, e);
    case Answer(_) => AnswerKeepsInv(lex, texts, s, e);
    case Upgrade(_, _) => UpgradeKeepsInv(lex, texts, s, e);
    case Create(_, _) => CreateKeepsInv(lex, texts, s, e);
  }

  lemma StepKeepsCall(lex: Lexicon, texts: set<string>, s: Sys, e: Event, c: nat)
    requires Inv(lex, texts, s) && Allowed(lex, texts, s, e) && c < |s.calls|
    ensures CallAt(lex, texts, Apply(lex, texts, s, e), c)
  {
    if e.StoreDirectly? || c != e.c {
      StepKeepsBystander(lex, texts, s, e, c);
    } else {
      StepKeepsOwn(lex, texts, s, e);
    }
  }
}
