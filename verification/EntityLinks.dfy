/**
 * Attaching memories to the entities they name. Each link is a transaction: an advisory lock on a
 * hash of the entity's identity, a MERGE whose match and create are not one step, and a commit.
 * Transactions interleave freely, fail, and are retried.
 */
module EntityLinks {
  import opened Wrappers
  import opened Ordering

  /** The project is the tenant boundary, so it is half of an entity's identity. */
  datatype Identity = Identity(project: string, name: string)

  /** A node id minted by one attempt of one link never repeats. */
  datatype NodeId = Existing(n: nat) | MintedBy(job: nat, attempt: nat)

  const LINK_ATTEMPTS := 3

  datatype Graph = Graph(memories: map<nat, string>, nodes: map<NodeId, Identity>, mentions: set<(nat, NodeId)>)

  /** `found` is the node the MERGE matched; `here` says whether the memory itself was matched. */
  datatype Pc =
    | Waiting
    | Locked
    | Merging(found: Option<NodeId>, here: bool)
    | Linked(node: Option<NodeId>)
    | Failed

  datatype Job = Job(memory: nat, entity: Identity, attempt: nat, pc: Pc)

  datatype Sys = Sys(graph: Graph, jobs: seq<Job>)

  datatype Event =
    | Lock(j: nat)
    | Match(j: nat)
    | Commit(j: nat, acknowledged: bool)
    | Abort(j: nat, retryable: bool)
    | AddMemory(memory: nat, project: string)

  // ---- Distinct names of one memory

  function Targets(normalize: string -> string, names: seq<string>): seq<string> {
    if names == [] then []
    else
      var rest := Targets(normalize, names[..|names| - 1]);
      var n := normalize(names[|names| - 1]);
      if n == "" || n in rest then rest else rest + [n]
  }

  function Normalized(normalize: string -> string, names: seq<string>): seq<string> {
    seq(|names|, i requires 0 <= i < |names| => normalize(names[i]))
  }

  /** The entities are linked in the order their names are first mentioned. */
  lemma {:induction false} TargetsInOrder(normalize: string -> string, names: seq<string>)
    ensures var keys := Normalized(normalize, names);
      && |Targets(normalize, names)| == |Firsts(keys)|
      && (forall i | 0 <= i < |Firsts(keys)| ::
            Firsts(keys)[i] < |keys| && Targets(normalize, names)[i] == keys[Firsts(keys)[i]])
      && forall n :: n in Targets(normalize, names) <==> n != "" && n in keys
  {
    if names != [] {
      var last, keys := |names| - 1, Normalized(normalize, names);
      TargetsInOrder(normalize, names[..last]);
      assert keys[..last] == Normalized(normalize, names[..last]);
      FirstsAre(keys[..last]);
      assert keys == keys[..last] + [keys[last]];
    }
  }

  /** The entities LinkEntities links one after another: blank names dropped, repeats dropped. */
  method CollectTargets(normalize: string -> string, names: seq<string>) returns (targets: seq<string>)
    ensures targets == Targets(normalize, names)
    ensures forall n :: n in targets <==> n != "" && exists i :: 0 <= i < |names| && normalize(names[i]) == n
    ensures forall i, j | 0 <= i < j < |targets| :: targets[i] != targets[j]
  {
    targets := [];
    var seen: set<string> := {};
    for i := 0 to |names|
      invariant targets == Targets(normalize, names[..i])
      invariant forall n :: n in seen <==> n in targets
      invariant forall n :: n in targets <==> n != "" && exists k :: 0 <= k < i && normalize(names[k]) == n
      invariant forall k, l | 0 <= k < l < |targets| :: targets[k] != targets[l]
    {
      assert names[..i + 1][..i] == names[..i];
      var normalized := normalize(names[i]);
      if normalized != "" && normalized !in seen {
        seen := seen + {normalized};
        targets := targets + [normalized];
      }
    }
    assert names[..|names|] == names;
  }

  // ---- Steps

  predicate Holding(job: Job) {
    job.pc.Locked? || job.pc.Merging?
  }

  predicate Final(job: Job) {
    job.pc.Linked? || job.pc.Failed?
  }

  /** `key` is the pair of hashtext values the lock is taken on; distinct entities may share one. */
  predicate LockFree(key: Identity -> int, s: Sys, j: nat)
    requires j < |s.jobs|
  {
    forall i | 0 <= i < |s.jobs| && Holding(s.jobs[i]) :: key(s.jobs[i].entity) != key(s.jobs[j].entity)
  }

  predicate Allowed(key: Identity -> int, s: Sys, e: Event) {
    match e
    case Lock(j) => j < |s.jobs| && s.jobs[j].pc == Waiting && LockFree(key, s, j)
    case Match(j) => j < |s.jobs| && s.jobs[j].pc == Locked
    case Commit(j, _) => j < |s.jobs| && s.jobs[j].pc.Merging?
    case Abort(j, _) => j < |s.jobs| && !Final(s.jobs[j])
    case AddMemory(m, _) => m !in s.graph.memories
  }

  /** The node committed for this identity, if there is one. */
  ghost function Lookup(g: Graph, entity: Identity): Option<NodeId> {
    if n :| n in g.nodes && g.nodes[n] == entity then Some(n) else None
  }

  function Target(s: Sys, j: nat): NodeId
    requires j < |s.jobs| && s.jobs[j].pc.Merging?
  {
    if s.jobs[j].pc.found.Some? then s.jobs[j].pc.found.value else MintedBy(j, s.jobs[j].attempt)
  }

  /** Commit publishes the node, when the MERGE created one, and the mention. */
  function Published(s: Sys, j: nat): Graph
    requires j < |s.jobs| && s.jobs[j].pc.Merging?
  {
    if !s.jobs[j].pc.here then s.graph
    else s.graph.(nodes := s.graph.nodes[Target(s, j) := s.jobs[j].entity],
                  mentions := s.graph.mentions + {(s.jobs[j].memory, Target(s, j))})
  }

  function AfterAbort(job: Job, retryable: bool): Job {
    if retryable && job.attempt + 1 < LINK_ATTEMPTS
    then job.(attempt := job.attempt + 1, pc := Waiting)
    else job.(pc := Failed)
  }

  ghost function Apply(key: Identity -> int, s: Sys, e: Event): Sys
    requires Allowed(key, s, e)
  {
    match e
    case Lock(j) => s.(jobs := s.jobs[j := s.jobs[j].(pc := Locked)])
    case Match(j) =>
      var job := s.jobs[j];
      var here := job.memory in s.graph.memories && s.graph.memories[job.memory] == job.entity.project;
      s.(jobs := s.jobs[j := job.(pc := Merging(Lookup(s.graph, job.entity), here))])
    case Commit(j, acknowledged) =>
      var job := s.jobs[j];
      var pc := if !acknowledged then Failed else Linked(if job.pc.here then Some(Target(s, j)) else None);
      Sys(Published(s, j), s.jobs[j := job.(pc := pc)])
    case Abort(j, retryable) => s.(jobs := s.jobs[j := AfterAbort(s.jobs[j], retryable)])
    case AddMemory(m, project) => s.(graph := s.graph.(memories := s.graph.memories[m := project]))
  }

  // ---- Invariant

  ghost predicate OneNodePerEntity(g: Graph) {
    forall m, n | m in g.nodes && n in g.nodes && g.nodes[m] == g.nodes[n] :: m == n
  }

  /** Every mention joins a memory to an entity of its own project. */
  ghost predicate WithinTenant(g: Graph) {
    forall m, n | (m, n) in g.mentions :: n in g.nodes && m in g.memories && g.memories[m] == g.nodes[n].project
  }

  ghost predicate JobInv(key: Identity -> int, s: Sys, j: nat)
    requires j < |s.jobs|
  {
    var job := s.jobs[j];
    && job.attempt < LINK_ATTEMPTS
    && (Holding(job) ==>
           forall i | 0 <= i < |s.jobs| && i != j && Holding(s.jobs[i]) :: key(s.jobs[i].entity) != key(job.entity))
    && (!Final(job) ==> forall a | job.attempt <= a :: MintedBy(j, a) !in s.graph.nodes)
    && (job.pc.Merging? ==>
          && job.pc.found == Lookup(s.graph, job.entity)
          && (job.pc.here ==> job.memory in s.graph.memories && s.graph.memories[job.memory] == job.entity.project))
    && (job.pc.Linked? && job.pc.node.Some? ==>
          job.pc.node.value in s.graph.nodes && s.graph.nodes[job.pc.node.value] == job.entity
          && (job.memory, job.pc.node.value) in s.graph.mentions)
  }

  ghost predicate Inv(key: Identity -> int, s: Sys) {
    OneNodePerEntity(s.graph) && WithinTenant(s.graph) && forall j | 0 <= j < |s.jobs| :: JobInv(key, s, j)
  }

  lemma LookupIs(g: Graph, entity: Identity, n: NodeId)
    requires OneNodePerEntity(g) && n in g.nodes && g.nodes[n] == entity
    ensures Lookup(g, entity) == Some(n)
  {
  }

  /** Publishing under the lock creates a node only where there is none. */
  lemma PublishKeepsGraph(key: Identity -> int, s: Sys, j: nat)
    requires Inv(key, s) && j < |s.jobs| && s.jobs[j].pc.Merging?
    ensures OneNodePerEntity(Published(s, j)) && WithinTenant(Published(s, j))
    ensures forall n | n in s.graph.nodes :: n in Published(s, j).nodes && Published(s, j).nodes[n] == s.graph.nodes[n]
    ensures Published(s, j).nodes.Keys <= s.graph.nodes.Keys + {Target(s, j)}
    ensures forall other | other != s.jobs[j].entity :: Lookup(Published(s, j), other) == Lookup(s.graph, other)
  {
    var job, g, g' := s.jobs[j], s.graph, Published(s, j);
    assert JobInv(key, s, j);
    if job.pc.found.Some? {
      assert g'.nodes == g.nodes;
    } else {
      assert forall n | n in g.nodes :: g.nodes[n] != job.entity;
    }
    forall other | other != job.entity ensures Lookup(g', other) == Lookup(g, other) {
      if Lookup(g', other).Some? { LookupIs(g, other, Lookup(g', other).value); }
      if Lookup(g, other).Some? { LookupIs(g', other, Lookup(g, other).value); }
    }
  }

  lemma CommitKeepsInv(key: Identity -> int, s: Sys, j: nat, acknowledged: bool)
    requires Inv(key, s) && Allowed(key, s, Commit(j, acknowledged))
    ensures Inv(key, Apply(key, s, Commit(j, acknowledged)))
  {
    var s' := Apply(key, s, Commit(j, acknowledged));
    PublishKeepsGraph(key, s, j);
    assert JobInv(key, s, j);
    forall i | 0 <= i < |s'.jobs| ensures JobInv(key, s', i) {
      assert JobInv(key, s, i);
    }
  }

  lemma StepKeepsInv(key: Identity -> int, s: Sys, e: Event)
    requires Inv(key, s) && Allowed(key, s, e)
    ensures Inv(key, Apply(key, s, e))
  {
    if e.Commit? {
      CommitKeepsInv(key, s, e.j, e.acknowledged);
    } else {
      var s' := Apply(key, s, e);
      forall i | 0 <= i < |s'.jobs| ensures JobInv(key, s', i) {
        assert JobInv(key, s, i);
      }
    }
  }
}
