/** Whole runs of entity linking: one node per entity, and links that stay reachable through it. */
module EntityRuns {
  import opened Wrappers
  import opened EntityLinks

  /** A graph that already keeps the rules, and any number of links about to start. */
  ghost predicate Initial(s: Sys) {
    && OneNodePerEntity(s.graph) && WithinTenant(s.graph)
    && (forall n | n in s.graph.nodes :: n.Existing?)
    && (forall j | 0 <= j < |s.jobs| :: s.jobs[j].pc == Waiting && s.jobs[j].attempt == 0)
  }

  ghost predicate Run(key: Identity -> int, trace: seq<Sys>, events: seq<Event>) {
    && |trace| == |events| + 1 && Initial(trace[0])
    && (forall i | 0 <= i < |events| ::
           Allowed(key, trace[i], events[i]) && trace[i + 1] == Apply(key, trace[i], events[i]))
  }

  lemma RunStep(key: Identity -> int, trace: seq<Sys>, events: seq<Event>, i: nat)
    requires Run(key, trace, events) && i < |events|
    ensures Allowed(key, trace[i], events[i]) && trace[i + 1] == Apply(key, trace[i], events[i])
  {
  }

  lemma {:induction false} RunKeepsInv(key: Identity -> int, trace: seq<Sys>, events: seq<Event>, i: nat)
    requires Run(key, trace, events) && i < |trace|
    ensures Inv(key, trace[i])
  {
    if i > 0 {
      RunKeepsInv(key, trace, events, i - 1);
      StepKeepsInv(key, trace[i - 1], events[i - 1]);
    }
  }

  /**
   * Whatever interleaves, fails or is retried, and whichever locks collide, an entity has one node
   * and no mention crosses a project.
   */
  lemma EntityIsOneNode(key: Identity -> int, trace: seq<Sys>, events: seq<Event>, i: nat)
    requires Run(key, trace, events) && i < |trace|
    ensures OneNodePerEntity(trace[i].graph) && WithinTenant(trace[i].graph)
  {
    RunKeepsInv(key, trace, events, i);
  }

  lemma {:induction false} LinkedStays(key: Identity -> int, trace: seq<Sys>, events: seq<Event>, i: nat, k: nat,
                                       j: nat)
    requires Run(key, trace, events) && i <= k < |trace| && j < |trace[i].jobs| && Final(trace[i].jobs[j])
    ensures j < |trace[k].jobs| && trace[k].jobs[j] == trace[i].jobs[j]
    decreases k
  {
    if i < k {
      LinkedStays(key, trace, events, i, k - 1, j);
      assert trace[k] == Apply(key, trace[k - 1], events[k - 1]);
    }
  }

  // ---- What is published stays

  ghost predicate Extends(g: Graph, g': Graph) {
    && g.mentions <= g'.mentions
    && (forall n | n in g.nodes :: n in g'.nodes && g'.nodes[n] == g.nodes[n])
    && (forall m | m in g.memories :: m in g'.memories && g'.memories[m] == g.memories[m])
  }

  lemma StepExtends(key: Identity -> int, s: Sys, e: Event)
    requires Inv(key, s) && Allowed(key, s, e)
    ensures Extends(s.graph, Apply(key, s, e).graph)
  {
    if e.Commit? {
      PublishKeepsGraph(key, s, e.j);
    }
  }

  lemma ExtendsCompose(a: Graph, b: Graph, c: Graph)
    requires Extends(a, b) && Extends(b, c)
    ensures Extends(a, c)
  {
  }

  lemma GrowsOnce(key: Identity -> int, trace: seq<Sys>, events: seq<Event>, i: nat)
    requires Run(key, trace, events) && i < |events|
    ensures Extends(trace[i].graph, trace[i + 1].graph)
  {
    var s, e := trace[i], events[i];
    RunKeepsInv(key, trace, events, i);
    RunStep(key, trace, events, i);
    StepExtends(key, s, e);
  }

  lemma {:induction false} GraphGrows(key: Identity -> int, trace: seq<Sys>, events: seq<Event>, i: nat, k: nat)
    requires Run(key, trace, events) && i <= k < |trace|
    ensures Extends(trace[i].graph, trace[k].graph)
    decreases k
  {
    if i < k {
      GraphGrows(key, trace, events, i, k - 1);
      GrowsOnce(key, trace, events, k - 1);
      ExtendsCompose(trace[i].graph, trace[k - 1].graph, trace[k].graph);
    }
  }

  /** Every mention ever published, acknowledged or not, stays, on the one node of its entity. */
  lemma MentionIsReachable(key: Identity -> int, trace: seq<Sys>, events: seq<Event>, i: nat, k: nat, m: nat, n: NodeId)
    requires Run(key, trace, events) && i <= k < |trace| && (m, n) in trace[i].graph.mentions
    ensures n in trace[i].graph.nodes && (m, n) in trace[k].graph.mentions
    ensures Lookup(trace[k].graph, trace[i].graph.nodes[n]) == Some(n)
  {
    RunKeepsInv(key, trace, events, i);
    RunKeepsInv(key, trace, events, k);
    GraphGrows(key, trace, events, i, k);
    LookupIs(trace[k].graph, trace[i].graph.nodes[n], n);
  }

  /** Every committed link stays reachable through the one node of its entity. */
  lemma LinkIsReachable(key: Identity -> int, trace: seq<Sys>, events: seq<Event>, i: nat, k: nat, j: nat, n: NodeId)
    requires Run(key, trace, events) && i <= k < |trace| && j < |trace[i].jobs|
    requires trace[i].jobs[j].pc.Linked? && trace[i].jobs[j].pc.node.Some?
    ensures Lookup(trace[k].graph, trace[i].jobs[j].entity).Some?
    ensures n in trace[k].graph.nodes && trace[k].graph.nodes[n] == trace[i].jobs[j].entity ==>
              (trace[i].jobs[j].memory, n) in trace[k].graph.mentions
  {
    RunKeepsInv(key, trace, events, i);
    RunKeepsInv(key, trace, events, k);
    assert JobInv(key, trace[i], j);
    MentionIsReachable(key, trace, events, i, k, trace[i].jobs[j].memory, trace[i].jobs[j].pc.node.value);
  }

  // ---- Edges written, and links counted

  predicate InProject(g: Graph, memory: nat, project: string) {
    memory in g.memories && g.memories[memory] == project
  }

  ghost predicate Mentioned(g: Graph, memory: nat, entity: Identity) {
    exists n :: n in g.nodes && g.nodes[n] == entity && (memory, n) in g.mentions
  }

  /** A commit settles the mention of its own pair and of no other entity. */
  lemma CommitMentions(key: Identity -> int, s: Sys, j: nat, memory: nat, entity: Identity)
    requires Inv(key, s) && j < |s.jobs| && s.jobs[j].pc.Merging?
    ensures entity != s.jobs[j].entity ==>
              (Mentioned(Published(s, j), memory, entity) <==> Mentioned(s.graph, memory, entity))
    ensures var job, g := s.jobs[j], Published(s, j);
      && |g.mentions| ==
         |s.graph.mentions| + (if job.pc.here && !Mentioned(s.graph, job.memory, job.entity) then 1 else 0)
      && (Mentioned(g, job.memory, job.entity) <==> job.pc.here || Mentioned(s.graph, job.memory, job.entity))
  {
    var job, g, g' := s.jobs[j], s.graph, Published(s, j);
    assert JobInv(key, s, j);
    PublishKeepsGraph(key, s, j);
    if entity != job.entity && Mentioned(g', memory, entity) {
      var n :| n in g'.nodes && g'.nodes[n] == entity && (memory, n) in g'.mentions;
      assert n in g.nodes && g.nodes[n] == entity;
    }
    if Mentioned(g, job.memory, job.entity) {
      var n :| n in g.nodes && g.nodes[n] == job.entity && (job.memory, n) in g.mentions;
      LookupIs(g, job.entity, n);
      assert Target(s, j) == n;
      assert job.pc.here ==> g'.mentions == g.mentions;
    } else if job.pc.here {
      assert (job.memory, Target(s, j)) !in g.mentions;
      assert Target(s, j) in g'.nodes && g'.nodes[Target(s, j)] == job.entity;
    }
  }

  lemma LockedStepKeepsMentions(key: Identity -> int, s: Sys, e: Event, j: nat, memory: nat)
    requires Inv(key, s) && Allowed(key, s, e) && j < |s.jobs| && Holding(s.jobs[j]) &&
             Holding(Apply(key, s, e).jobs[j])
    ensures var s' := Apply(key, s, e);
      && s'.jobs[j].memory == s.jobs[j].memory && s'.jobs[j].entity == s.jobs[j].entity
      && (Mentioned(s'.graph, memory, s.jobs[j].entity) <==> Mentioned(s.graph, memory, s.jobs[j].entity))
  {
    if e.Commit? {
      assert e.j != j && JobInv(key, s, j);
      CommitMentions(key, s, e.j, memory, s.jobs[j].entity);
    }
  }

  lemma LockFreezesOnce(key: Identity -> int, trace: seq<Sys>, events: seq<Event>, i: nat, j: nat, memory: nat,
                        entity: Identity)
    requires Run(key, trace, events) && i < |events| && j < |trace[i].jobs| && Holding(trace[i].jobs[j])
    requires j < |trace[i + 1].jobs| && Holding(trace[i + 1].jobs[j]) && entity == trace[i].jobs[j].entity
    ensures trace[i + 1].jobs[j].memory == trace[i].jobs[j].memory && trace[i + 1].jobs[j].entity == entity
    ensures Mentioned(trace[i + 1].graph, memory, entity) <==> Mentioned(trace[i].graph, memory, entity)
  {
    var s, e := trace[i], events[i];
    RunKeepsInv(key, trace, events, i);
    RunStep(key, trace, events, i);
    LockedStepKeepsMentions(key, s, e, j, memory);
  }

  ghost predicate Held(trace: seq<Sys>, l: nat, k: nat, j: nat)
    requires k < |trace|
  {
    forall i | l <= i <= k :: j < |trace[i].jobs| && Holding(trace[i].jobs[j])
  }

  /** While a link holds its lock, nobody else touches the mentions of its entity. */
  lemma {:induction false} LockFreezesMentions(key: Identity -> int, trace: seq<Sys>, events: seq<Event>, l: nat,
                                               k: nat, j: nat, memory: nat)
    requires Run(key, trace, events) && l <= k < |trace| && Held(trace, l, k, j)
    ensures trace[k].jobs[j].memory == trace[l].jobs[j].memory && trace[k].jobs[j].entity == trace[l].jobs[j].entity
    ensures Mentioned(trace[k].graph, memory, trace[l].jobs[j].entity) <==>
            Mentioned(trace[l].graph, memory, trace[l].jobs[j].entity)
    decreases k
  {
    if l < k {
      LockFreezesMentions(key, trace, events, l, k - 1, j, memory);
      LockFreezesOnce(key, trace, events, k - 1, j, memory, trace[l].jobs[j].entity);
    }
  }

  lemma {:induction false} MatchIsRemembered(key: Identity -> int, trace: seq<Sys>, events: seq<Event>, m: nat, k: nat,
                                             j: nat)
    requires Run(key, trace, events) && m < k < |trace| && events[m] == Match(j)
    requires forall i | m < i <= k :: j < |trace[i].jobs| && Holding(trace[i].jobs[j])
    ensures j < |trace[m].jobs| && trace[k].jobs[j].memory == trace[m].jobs[j].memory &&
            trace[k].jobs[j].entity == trace[m].jobs[j].entity
    ensures trace[k].jobs[j].pc.Merging?
    ensures var job := trace[m].jobs[j];
      trace[k].jobs[j].pc.here <==> InProject(trace[m].graph, job.memory, job.entity.project)
    decreases k
  {
    var s, e := trace[k - 1], events[k - 1];
    assert Allowed(key, s, e) && trace[k] == Apply(key, s, e);
    if m + 1 < k {
      MatchIsRemembered(key, trace, events, m, k - 1, j);
    }
  }

  /** One transaction of link `j`: it takes its lock at `l`, merges at `m` and commits at `k`. */
  ghost predicate Transaction(trace: seq<Sys>, events: seq<Event>, l: nat, m: nat, k: nat, j: nat) {
    && l < m < k < |events| < |trace|
    && events[l] == Lock(j) && events[m] == Match(j) && events[k] == Commit(j, true)
    && (forall i | l <= i <= k :: j < |trace[i].jobs|)
    && (forall i | l < i <= k :: Holding(trace[i].jobs[j]))
  }

  /**
   * A link is counted whatever the MERGE found. It writes an edge exactly when the memory was in
   * its project when the MERGE looked and did not mention the entity when the lock was taken; and
   * it leaves an edge behind exactly in the first case. Other links may interleave anywhere.
   */
  lemma CountedLinkWritesIff(key: Identity -> int, trace: seq<Sys>, events: seq<Event>, l: nat, m: nat, k: nat, j: nat)
    requires Run(key, trace, events) && Transaction(trace, events, l, m, k, j)
    ensures var job, next := trace[l].jobs[j], k + 1;
      var here := InProject(trace[m].graph, job.memory, job.entity.project);
      var known := Mentioned(trace[l].graph, job.memory, job.entity);
      && j < |trace[next].jobs| && trace[next].jobs[j].pc.Linked? && (trace[next].jobs[j].pc.node.Some? <==> here)
      && |trace[next].graph.mentions| == |trace[k].graph.mentions| + (if here && !known then 1 else 0)
      && (Mentioned(trace[next].graph, job.memory, job.entity) <==> here)
  {
    var first, job := l + 1, trace[l].jobs[j];
    RunKeepsInv(key, trace, events, k);
    assert Allowed(key, trace[l], events[l]) && trace[first] == Apply(key, trace[l], events[l]);
    assert trace[first].jobs[j].memory == job.memory && trace[first].jobs[j].entity == job.entity;
    LockFreezesMentions(key, trace, events, first, m, j, job.memory);
    LockFreezesMentions(key, trace, events, first, k, j, job.memory);
    MatchIsRemembered(key, trace, events, m, k, j);
    CommitMentions(key, trace[k], j, job.memory, job.entity);
    RunKeepsInv(key, trace, events, m);
    if Mentioned(trace[m].graph, job.memory, job.entity) {
      MentionedIsInProject(key, trace[m], job.memory, job.entity);
    }
  }

  lemma MentionedIsInProject(key: Identity -> int, s: Sys, memory: nat, entity: Identity)
    requires Inv(key, s) && Mentioned(s.graph, memory, entity)
    ensures InProject(s.graph, memory, entity.project)
  {
  }

  predicate About(e: Event, j: nat) {
    match e
    case Lock(i) => i == j
    case Match(i) => i == j
    case Commit(i, _) => i == j
    case Abort(i, _) => i == j
    case AddMemory(_, _) => false
  }

  /** From `l` on the store is left to link `j`, retries and all, until at `m` it is linked or has failed. */
  ghost predicate LinksAlone(trace: seq<Sys>, events: seq<Event>, l: nat, m: nat, j: nat, memory: nat,
                             entity: Identity)
  {
    && l < m <= |events| < |trace| && j < |trace[l].jobs| && trace[l].jobs[j] == Job(memory, entity, 0, Waiting)
    && (forall i | l <= i < m :: About(events[i], j))
    && j < |trace[m].jobs| && Final(trace[m].jobs[j])
  }

  predicate LinkedAt(trace: seq<Sys>, m: nat, j: nat) {
    m < |trace| && j < |trace[m].jobs| && trace[m].jobs[j].pc.Linked?
  }

  predicate CommitsAt(events: seq<Event>, m: nat) {
    0 < m <= |events| && events[m - 1].Commit?
  }

  /**
   * LinkEntities with the store to itself: links j, j + 1, ... of one memory from `l` on, the k-th done
   * at ends[k]; the first that fails is the last.
   */
  ghost predicate LoneCall(trace: seq<Sys>, events: seq<Event>, l: nat, j: nat, memory: nat, project: string,
                           targets: seq<string>, ends: seq<nat>)
    decreases |targets|
  {
    if targets == [] then ends == []
    else
      && ends != [] && LinksAlone(trace, events, l, ends[0], j, memory, Identity(project, targets[0]))
      && if LinkedAt(trace, ends[0], j)
         then LoneCall(trace, events, ends[0], j + 1, memory, project, targets[1..], ends[1..])
         else |ends| == 1
  }

  function End(l: nat, ends: seq<nat>): nat {
    if ends == [] then l else ends[|ends| - 1]
  }

  /** The count LinkEntities returns, with an error or without. */
  function Counted(trace: seq<Sys>, j: nat, ends: seq<nat>): nat
    decreases |ends|
  {
    if ends == [] || !LinkedAt(trace, ends[0], j) then 0 else 1 + Counted(trace, j + 1, ends[1..])
  }

  /** How many of the links were committed, the last perhaps without the caller learning of it. */
  function Committed(events: seq<Event>, ends: seq<nat>): nat {
    if ends == [] then 0 else (if CommitsAt(events, ends[0]) then 1 else 0) + Committed(events, ends[1..])
  }

  predicate Unacknowledged(events: seq<Event>, ends: seq<nat>) {
    ends != [] && CommitsAt(events, ends[|ends| - 1]) && !events[ends[|ends| - 1] - 1].acknowledged
  }

  /** How many targets the memory does not mention yet. */
  ghost function Unmentioned(g: Graph, memory: nat, project: string, targets: seq<string>): (n: nat)
    ensures n <= |targets|
  {
    if targets == [] then 0
    else (if Mentioned(g, memory, Identity(project, targets[0])) then 0 else 1) +
         Unmentioned(g, memory, project, targets[1..])
  }

  ghost predicate NoneMentioned(g: Graph, memory: nat, project: string, targets: seq<string>) {
    forall t | t in targets :: !Mentioned(g, memory, Identity(project, t))
  }

  lemma {:induction false} UnmentionedAll(g: Graph, memory: nat, project: string, targets: seq<string>)
    ensures Unmentioned(g, memory, project, targets) == |targets| <==> NoneMentioned(g, memory, project, targets)
  {
    if targets != [] {
      assert targets == [targets[0]] + targets[1..];
      UnmentionedAll(g, memory, project, targets[1..]);
    }
  }

  lemma {:induction false} UnmentionedSame(g: Graph, g': Graph, memory: nat, project: string, targets: seq<string>)
    requires forall t | t in targets ::
      Mentioned(g, memory, Identity(project, t)) <==> Mentioned(g', memory, Identity(project, t))
    ensures Unmentioned(g, memory, project, targets) == Unmentioned(g', memory, project, targets)
  {
    if targets != [] {
      UnmentionedSame(g, g', memory, project, targets[1..]);
    }
  }

  ghost predicate Untouched(s: Sys, s': Sys, j: nat) {
    && |s'.jobs| == |s.jobs| && j < |s.jobs| && (forall i | 0 <= i < |s.jobs| && i != j :: s'.jobs[i] == s.jobs[i])
    && s'.jobs[j].memory == s.jobs[j].memory && s'.jobs[j].entity == s.jobs[j].entity
  }

  ghost predicate Underway(s: Sys, s': Sys, j: nat) {
    && Untouched(s, s', j) && s'.graph == s.graph && !Final(s'.jobs[j])
    && (s'.jobs[j].pc.Merging? ==>
          (s'.jobs[j].pc.here <==> InProject(s.graph, s.jobs[j].memory, s.jobs[j].entity.project)))
  }

  lemma {:induction false} AloneUntil(key: Identity -> int, trace: seq<Sys>, events: seq<Event>, l: nat, i: nat, m: nat,
                                      j: nat,
                                      memory: nat, entity: Identity)
    requires Run(key, trace, events) && LinksAlone(trace, events, l, m, j, memory, entity) && l <= i < m
    ensures Underway(trace[l], trace[i], j)
    decreases i
  {
    RunStep(key, trace, events, i);
    assert About(events[i], j);
    if l < i {
      AloneUntil(key, trace, events, l, i - 1, m, j, memory, entity);
      RunStep(key, trace, events, i - 1);
      assert About(events[i - 1], j);
    }
  }

  ghost function Fresh(g: Graph, memory: nat, entity: Identity): nat {
    if InProject(g, memory, entity.project) && !Mentioned(g, memory, entity) then 1 else 0
  }

  /** One link of a lone call: it writes its edge if its commit took effect, the memory is there and the edge is new. */
  lemma LoneLink(key: Identity -> int, trace: seq<Sys>, events: seq<Event>, l: nat, m: nat, j: nat, memory: nat,
                 entity: Identity, other: Identity)
    requires Run(key, trace, events) && LinksAlone(trace, events, l, m, j, memory, entity)
    ensures var s, s' := trace[l], trace[m];
      && Untouched(s, s', j) && s'.graph.memories == s.graph.memories
      && (LinkedAt(trace, m, j) <==> CommitsAt(events, m) && events[m - 1].acknowledged)
      && (!CommitsAt(events, m) ==> s'.graph == s.graph)
      && (CommitsAt(events, m) ==> |s'.graph.mentions| == |s.graph.mentions| + Fresh(s.graph, memory, entity))
      && (other != entity ==> (Mentioned(s'.graph, memory, other) <==> Mentioned(s.graph, memory, other)))
  {
    var last := m - 1;
    AloneUntil(key, trace, events, l, last, m, j, memory, entity);
    RunStep(key, trace, events, last);
    RunKeepsInv(key, trace, events, last);
    assert About(events[last], j);
    if events[last].Commit? {
      CommitMentions(key, trace[last], j, memory, other);
    }
  }

  lemma LoneLinkKeepsOthers(key: Identity -> int, trace: seq<Sys>, events: seq<Event>, l: nat, m: nat, j: nat,
                            memory: nat,
                            project: string, name: string, targets: seq<string>)
    requires Run(key, trace, events) && LinksAlone(trace, events, l, m, j, memory, Identity(project, name)) &&
             name !in targets
    ensures Unmentioned(trace[m].graph, memory, project, targets) ==
            Unmentioned(trace[l].graph, memory, project, targets)
  {
    var g, g' := trace[l].graph, trace[m].graph;
    forall t | t in targets
      ensures Mentioned(g, memory, Identity(project, t)) <==> Mentioned(g', memory, Identity(project, t))
    {
      LoneLink(key, trace, events, l, m, j, memory, Identity(project, name), Identity(project, t));
    }
    UnmentionedSame(g, g', memory, project, targets);
  }

  predicate Distinct(targets: seq<string>) {
    forall a, b | 0 <= a < b < |targets| :: targets[a] != targets[b]
  }

  ghost function ToWrite(g: Graph, memory: nat, project: string, targets: seq<string>): nat {
    if InProject(g, memory, project) then Unmentioned(g, memory, project, targets) else 0
  }

  lemma LinkedIffAnswered(key: Identity -> int, trace: seq<Sys>, events: seq<Event>, l: nat, m: nat, j: nat,
                          memory: nat,
                          entity: Identity)
    requires Run(key, trace, events) && LinksAlone(trace, events, l, m, j, memory, entity)
    ensures LinkedAt(trace, m, j) <==> CommitsAt(events, m) && events[m - 1].acknowledged
  {
    LoneLink(key, trace, events, l, m, j, memory, entity, entity);
  }

  /** The links committed are the first ones; the caller counts them all, but for one it got no answer about. */
  lemma {:induction false} CommittedAndCounted(key: Identity -> int, trace: seq<Sys>, events: seq<Event>, l: nat,
                                               j: nat,
                                               memory: nat, project: string, targets: seq<string>, ends: seq<nat>)
    requires Run(key, trace, events) && l < |trace| && LoneCall(trace, events, l, j, memory, project, targets, ends)
    ensures End(l, ends) < |trace| && Committed(events, ends) <= |targets|
    ensures Committed(events, ends) == Counted(trace, j, ends) + if Unacknowledged(events, ends) then 1 else 0
    decreases |targets|
  {
    if targets != [] {
      LinkedIffAnswered(key, trace, events, l, ends[0], j, memory, Identity(project, targets[0]));
      if LinkedAt(trace, ends[0], j) {
        CommittedAndCounted(key, trace, events, ends[0], j + 1, memory, project, targets[1..], ends[1..]);
      }
    }
  }

  lemma ToWriteUnfolds(g: Graph, memory: nat, project: string, targets: seq<string>, n: nat)
    requires 0 < n <= |targets|
    ensures ToWrite(g, memory, project, targets[..n]) ==
            Fresh(g, memory, Identity(project, targets[0])) + ToWrite(g, memory, project, targets[1..][..n - 1])
  {
    assert targets[..n][1..] == targets[1..][..n - 1];
  }

  /** After the first link of `n` that commit, what is left to write is what the others have to write. */
  lemma FirstLinkWrites(key: Identity -> int, trace: seq<Sys>, events: seq<Event>, l: nat, m: nat, j: nat, memory: nat,
                        project: string, targets: seq<string>, n: nat)
    requires Run(key, trace, events) && Distinct(targets) && 0 < n <= |targets| && CommitsAt(events, m)
    requires LinksAlone(trace, events, l, m, j, memory, Identity(project, targets[0]))
    ensures |trace[m].graph.mentions| + ToWrite(trace[m].graph, memory, project, targets[1..][..n - 1]) ==
            |trace[l].graph.mentions| + ToWrite(trace[l].graph, memory, project, targets[..n])
  {
    var entity := Identity(project, targets[0]);
    ToWriteUnfolds(trace[l].graph, memory, project, targets, n);
    LoneLink(key, trace, events, l, m, j, memory, entity, entity);
    LoneLinkKeepsOthers(key, trace, events, l, m, j, memory, project, targets[0], targets[1..][..n - 1]);
  }

  lemma UncommittedWritesNothing(key: Identity -> int, trace: seq<Sys>, events: seq<Event>, l: nat, m: nat, j: nat,
                                 memory: nat, entity: Identity)
    requires Run(key, trace, events) && LinksAlone(trace, events, l, m, j, memory, entity) && !CommitsAt(events, m)
    ensures trace[m].graph == trace[l].graph
  {
    LoneLink(key, trace, events, l, m, j, memory, entity, entity);
  }

  lemma {:induction false} LoneCallWrites(key: Identity -> int, trace: seq<Sys>, events: seq<Event>, l: nat, j: nat,
                                          memory: nat, project: string, targets: seq<string>, ends: seq<nat>)
    requires Run(key, trace, events) && l < |trace| && LoneCall(trace, events, l, j, memory, project, targets, ends)
    requires Distinct(targets)
    ensures End(l, ends) < |trace| && Committed(events, ends) <= |targets|
    ensures |trace[End(l, ends)].graph.mentions| ==
            |trace[l].graph.mentions| + ToWrite(trace[l].graph, memory, project, targets[..Committed(events, ends)])
    decreases |targets|
  {
    CommittedAndCounted(key, trace, events, l, j, memory, project, targets, ends);
    if targets != [] {
      var m, n, entity := ends[0], Committed(events, ends), Identity(project, targets[0]);
      LinkedIffAnswered(key, trace, events, l, m, j, memory, entity);
      if CommitsAt(events, m) {
        FirstLinkWrites(key, trace, events, l, m, j, memory, project, targets, n);
        if LinkedAt(trace, m, j) {
          LoneCallWrites(key, trace, events, m, j + 1, memory, project, targets[1..], ends[1..]);
        }
      } else {
        UncommittedWritesNothing(key, trace, events, l, m, j, memory, entity);
      }
    }
  }

  /**
   * What LinkEntities writes, alone at the store, retries and failures included: one edge for each
   * entity it committed and the memory did not mention yet, and none for a memory that is not there.
   * It counts the links it was told were committed. So, unless the answer to its last commit was
   * lost, the count is the edges written exactly when it is zero, or the memory is in the project it
   * was given and mentioned none of the entities counted.
   */
  lemma LinkedCountIsEdgesWrittenIff(key: Identity -> int, trace: seq<Sys>, events: seq<Event>, l: nat, j: nat,
                                     memory: nat, project: string, targets: seq<string>, ends: seq<nat>)
    requires Run(key, trace, events) && l < |trace| && LoneCall(trace, events, l, j, memory, project, targets, ends)
    requires Distinct(targets)
    ensures var g, end := trace[l].graph, End(l, ends);
      var counted, committed := Counted(trace, j, ends), Committed(events, ends);
      && end < |trace| && committed <= |targets|
      && committed == counted + (if Unacknowledged(events, ends) then 1 else 0)
      && |trace[end].graph.mentions| == |g.mentions| + ToWrite(g, memory, project, targets[..committed])
      && (!Unacknowledged(events, ends) ==>
            (|trace[end].graph.mentions| == |g.mentions| + counted <==>
             counted == 0 || (InProject(g, memory, project) && NoneMentioned(g, memory, project, targets[..counted]))))
  {
    CommittedAndCounted(key, trace, events, l, j, memory, project, targets, ends);
    LoneCallWrites(key, trace, events, l, j, memory, project, targets, ends);
    UnmentionedAll(trace[l].graph, memory, project, targets[..Counted(trace, j, ends)]);
  }

  /**
   * When the answer to the last commit was lost, the count is short by one, unless one of the
   * committed edges was there.
   */
  lemma LostAnswerIsNotCounted(key: Identity -> int, trace: seq<Sys>, events: seq<Event>, l: nat, j: nat,
                               memory: nat, project: string, targets: seq<string>, ends: seq<nat>)
    requires Run(key, trace, events) && l < |trace| && LoneCall(trace, events, l, j, memory, project, targets, ends)
    requires Distinct(targets) && Unacknowledged(events, ends) && InProject(trace[l].graph, memory, project)
    ensures var g, end, committed := trace[l].graph, End(l, ends), Committed(events, ends);
      && end < |trace| && 0 < committed <= |targets|
      && (|trace[end].graph.mentions| == |g.mentions| + Counted(trace, j, ends) + 1 <==>
          NoneMentioned(g, memory, project, targets[..committed]))
  {
    CommittedAndCounted(key, trace, events, l, j, memory, project, targets, ends);
    LoneCallWrites(key, trace, events, l, j, memory, project, targets, ends);
    UnmentionedAll(trace[l].graph, memory, project, targets[..Committed(events, ends)]);
  }

  // ---- Two runs of one link that write nothing

  lemma LinkAlone(key: Identity -> int, g: Graph, job: Job) returns (trace: seq<Sys>, events: seq<Event>)
    requires Initial(Sys(g, [job]))
    ensures Run(key, trace, events) && events == [Lock(0), Match(0), Commit(0, true)]
    ensures |trace| == 4 && trace[0] == Sys(g, [job]) && |trace[3].jobs| == 1 && trace[3].jobs[0].pc.Linked?
    ensures InProject(g, job.memory, job.entity.project) && Mentioned(g, job.memory, job.entity) ==>
              trace[3].graph == g && trace[3].jobs[0].pc.node.Some?
    ensures !InProject(g, job.memory, job.entity.project) ==> trace[3].graph == g && trace[3].jobs[0].pc.node.None?
  {
    var s := Sys(g, [job]);
    var s1 := Apply(key, s, Lock(0));
    var s2 := Apply(key, s1, Match(0));
    var s3 := Apply(key, s2, Commit(0, true));
    trace, events := [s, s1, s2, s3], [Lock(0), Match(0), Commit(0, true)];
    if InProject(g, job.memory, job.entity.project) && Mentioned(g, job.memory, job.entity) {
      var n :| n in g.nodes && g.nodes[n] == job.entity && (job.memory, n) in g.mentions;
      LookupIs(g, job.entity, n);
      assert s3.graph.mentions == g.mentions && s3.graph.nodes == g.nodes;
    }
  }

  const BISCUIT := Identity("p", "biscuit")

  /** The memory does not exist: the link is counted and nothing is written. */
  lemma MissingMemoryIsCounted(key: Identity -> int) returns (trace: seq<Sys>, events: seq<Event>)
    ensures Run(key, trace, events) && events == [Lock(0), Match(0), Commit(0, true)]
    ensures |trace| == 4 && |trace[3].jobs| == 1 && trace[3].jobs[0].pc == Linked(None) &&
            trace[3].graph == trace[0].graph
  {
    trace, events := LinkAlone(key, Graph(map[], map[], {}), Job(7, BISCUIT, 0, Waiting));
  }

  /** The memory mentions the entity already: the link is counted again and nothing is written. */
  lemma RelinkIsCounted(key: Identity -> int) returns (trace: seq<Sys>, events: seq<Event>)
    ensures Run(key, trace, events) && events == [Lock(0), Match(0), Commit(0, true)]
    ensures |trace| == 4 && |trace[3].jobs| == 1 && trace[3].jobs[0].pc.Linked? && trace[3].jobs[0].pc.node.Some? &&
            trace[3].graph == trace[0].graph
    ensures Mentioned(trace[3].graph, 7, BISCUIT)
  {
    var g := Graph(map[7 := "p"], map[Existing(1) := BISCUIT], {(7, Existing(1))});
    assert (7, Existing(1)) in g.mentions && Mentioned(g, 7, BISCUIT);
    trace, events := LinkAlone(key, g, Job(7, BISCUIT, 0, Waiting));
  }

  /** One lock each, so waiting never closes a cycle: while a link is unfinished, some step is possible. */
  lemma NeverStuck(key: Identity -> int, s: Sys, j: nat) returns (e: Event)
    requires j < |s.jobs| && !Final(s.jobs[j])
    ensures Allowed(key, s, e) && !e.Abort? && !e.AddMemory?
  {
    if s.jobs[j].pc == Waiting {
      if LockFree(key, s, j) {
        e := Lock(j);
      } else {
        var i :| 0 <= i < |s.jobs| && Holding(s.jobs[i]) && key(s.jobs[i].entity) == key(s.jobs[j].entity);
        e := if s.jobs[i].pc == Locked then Match(i) else Commit(i, true);
      }
    } else {
      e := if s.jobs[j].pc == Locked then Match(j) else Commit(j, true);
    }
  }
}
