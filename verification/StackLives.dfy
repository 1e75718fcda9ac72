/** The life of a product instance and of a patch: exactly which states lead where. */
module StackLives {
  import opened Outcomes
  import opened Ordering
  import opened Digraph
  import opened Stackfile
  import opened StackPatches

  /** What a product instance can do next. */
  const STEPS: set<(InstanceState, InstanceState)> := {
    (Proposed, Contracted),
    (Contracted, Provisioned), (Contracted, Retiring),
    (Provisioned, Deploying), (Provisioned, Retiring),
    (Deploying, Active), (Deploying, Degraded), (Deploying, Retiring),
    (Active, Degraded), (Active, Retiring),
    (Degraded, Active), (Degraded, Retiring),
    (Retiring, Cancelled)}

  lemma StepsExact(a: InstanceState, b: InstanceState)
    ensures b in NextStates(a) <==> (a, b) in STEPS
  {
  }

  /** A transition is accepted exactly from the instance's state, along these steps, and to ACTIVE only if validated. */
  lemma TransitionExact(g: StackGraph, op: PatchOperation)
    requires op.TransitionProductInstance?
    ensures Objection(g, op).None?
            <==> && op.nodeId in g.nodes && g.nodes[op.nodeId].nodeType == ProductInstance
                 && g.nodes[op.nodeId].state == Some(op.fromState)
                 && (op.fromState, op.toState) in STEPS && (op.toState == Active ==> op.deploymentValidated)
  {
    hide NextStates;
    StepsExact(op.fromState, op.toState);
  }

  /** How far along an instance is; ACTIVE and DEGRADED are as far as each other. */
  function Stage(s: InstanceState): nat {
    match s
    case Proposed => 0
    case Contracted => 1
    case Provisioned => 2
    case Deploying => 3
    case Active | Degraded => 4
    case Retiring => 5
    case Cancelled => 6
  }

  lemma {:induction false} PathClimbs(p: seq<InstanceState>, a: InstanceState, b: InstanceState)
    requires LifePath(p, a, b)
    ensures a == b || Stage(a) < Stage(b) || Stage(a) == 4 == Stage(b)
    decreases |p|
  {
    if |p| > 1 {
      var q := p[..|p| - 1];
      assert LifePath(q, a, q[|q| - 1]);
      PathClimbs(q, a, q[|q| - 1]);
      assert p[|q| - 1 + 1] in NextStates(p[|q| - 1]);
    }
  }

  /** The usual course up to ACTIVE, and then out. */
  lemma Course()
    ensures LeadsTo(Proposed, Contracted) && LeadsTo(Contracted, Provisioned) && LeadsTo(Provisioned, Deploying)
    ensures LeadsTo(Deploying, Active) && LeadsTo(Active, Degraded) && LeadsTo(Degraded, Active)
    ensures LeadsTo(Active, Retiring) && LeadsTo(Retiring, Cancelled)
  {
    hide LeadsTo;
    forall s: InstanceState ensures LeadsTo(s, s) { StaysPut(s); }
    StepsOn(Proposed, Proposed, Contracted);
    StepsOn(Contracted, Contracted, Provisioned);
    StepsOn(Provisioned, Provisioned, Deploying);
    StepsOn(Deploying, Deploying, Active);
    StepsOn(Active, Active, Degraded);
    StepsOn(Degraded, Degraded, Active);
    StepsOn(Active, Active, Retiring);
    StepsOn(Retiring, Retiring, Cancelled);
  }

  lemma {:induction false} Upwards(a: InstanceState, b: InstanceState)
    requires Stage(a) < Stage(b)
    ensures LeadsTo(a, b)
    decreases Stage(b) - Stage(a)
  {
    hide LeadsTo;
    Course();
    StaysPut(b);
    var next :=
      match a
      case Proposed => Contracted
      case Contracted => Provisioned
      case Provisioned => Deploying
      case Deploying => if b == Degraded then Degraded else Active
      case Active | Degraded => Retiring
      case _ => Cancelled;
    assert LeadsTo(a, next) by {
      LeadsOn(Degraded, Active, Retiring);
      LeadsOn(Deploying, Active, Degraded);
    }
    if next != b { Upwards(next, b); }
    LeadsOn(a, next, b);
  }

  /** A state leads to another exactly when that is further along, or when both are of a deployed instance. */
  lemma LifecycleExact(a: InstanceState, b: InstanceState)
    ensures LeadsTo(a, b) <==> a == b || Stage(a) < Stage(b) || Stage(a) == 4 == Stage(b)
  {
    if p :| LifePath(p, a, b) { PathClimbs(p, a, b); }
    if a == b {
      StaysPut(a);
    } else if Stage(a) < Stage(b) {
      Upwards(a, b);
    } else {
      Course();
    }
  }

  /** Along any chain of patches an instance never falls back: not from retiring to active, nor to before deployment. */
  lemma NeverBack(hash: Hasher, snapshots: seq<StackSnapshot>, patches: seq<StackPatch>, i: nat, j: nat, id: string)
    requires Chain(hash, snapshots, patches) && i <= j < |snapshots|
    requires HasInstance(Load(snapshots[i]), id)
    ensures HasInstance(Load(snapshots[j]), id)
    ensures Stage(Load(snapshots[i]).nodes[id].state.value) <= Stage(Load(snapshots[j]).nodes[id].state.value)
  {
    hide Chain, Load, LeadsTo;
    InstancesSurvive(hash, snapshots, patches, i, j, id);
    LifecycleExact(Load(snapshots[i]).nodes[id].state.value, Load(snapshots[j]).nodes[id].state.value);
  }

  // ---- Patches ----

  /** What a patch can do next. */
  const PATCH_STEPS: set<(PatchStatus, PatchStatus)> := {
    (Draft, Validated), (Draft, PatchStatus.Failed), (Draft, ConflictStatus),
    (Validated, AwaitingApproval),
    (AwaitingApproval, Approved), (AwaitingApproval, ConflictStatus),
    (Approved, Applying), (Approved, ConflictStatus),
    (Applying, Applied), (Applying, PatchStatus.Failed),
    (Applied, CompensatingPatch), (PatchStatus.Failed, CompensatingPatch)}

  /** A patch takes on a status exactly along these steps, and nothing else about it changes. */
  lemma PatchStepExact(patch: StackPatch, target: PatchStatus)
    ensures TransitionPatchStatus(patch, target).Some? <==> (patch.status, target) in PATCH_STEPS
    ensures TransitionPatchStatus(patch, target).Some? ==>
              TransitionPatchStatus(patch, target) == Some(patch.(status := target))
  {
  }

  // ---- Snapshots ----

  /** A hard edge of the two kinds that make one node depend on another. */
  ghost predicate DependsOn(edges: seq<StackEdge>, a: string, b: string) {
    exists e :: e in edges && e.hard && (e.edgeType == Requires || e.edgeType == RequiresCapability)
                && e.fromId == a && e.toId == b
  }

  /** A round of dependencies that comes back to where it began. */
  ghost predicate Round(edges: seq<StackEdge>, p: seq<string>) {
    |p| >= 2 && p[0] == p[|p| - 1] && forall i :: 0 <= i < |p| - 1 ==> DependsOn(edges, p[i], p[i + 1])
  }

  /** Every node with the identifier that is a product instance is ACTIVE. */
  ghost predicate Running(nodes: seq<StackNode>, id: string) {
    forall n :: n in nodes && n.nodeId == id && n.nodeType == ProductInstance ==> n.state == Some(Active)
  }

  ghost predicate Known(nodes: seq<StackNode>, id: string) {
    exists n :: n in nodes && n.nodeId == id
  }

  lemma HardEdge(nodes: seq<StackNode>, edges: seq<StackEdge>, a: string, b: string)
    requires forall e :: e in edges ==> Known(nodes, e.fromId)
    ensures Edge(HardGraph(Ids(nodes), edges), a, b) <==> DependsOn(edges, a, b)
  {
    TargetsExact(edges, a, b);
  }

  lemma RoundsAre(nodes: seq<StackNode>, edges: seq<StackEdge>)
    requires forall e :: e in edges ==> Known(nodes, e.fromId)
    ensures Acyclic(HardGraph(Ids(nodes), edges)) <==> forall p :: !Round(edges, p)
  {
    hide HardGraph, Targets, Ids;
    var g := HardGraph(Ids(nodes), edges);
    forall a, b ensures Edge(g, a, b) <==> DependsOn(edges, a, b) { HardEdge(nodes, edges, a, b); }
    if p :| Round(edges, p) {
      assert WalkFromTo(g, p, p[0], p[0]) && OnCycle(g, p[0]);
    }
    if !Acyclic(g) {
      var a :| OnCycle(g, a);
      var p :| WalkFromTo(g, p, a, a) && |p| >= 2;
      assert Round(edges, p);
    }
  }

  /**
   * A graph is valid exactly when node and edge identifiers and aliases are unique, edges join known nodes, only
   * running instances fulfil jobs, and no round of hard requirements exists.
   */
  lemma GraphExact(nodes: seq<StackNode>, edges: seq<StackEdge>)
    ensures GraphValid(nodes, edges)
            <==> && (forall i, j :: 0 <= i < j < |nodes| ==> nodes[i].nodeId != nodes[j].nodeId)
                 && (forall i, j :: 0 <= i < j < |nodes| ==> nodes[i].alias != nodes[j].alias)
                 && (forall i, j :: 0 <= i < j < |edges| ==> edges[i].edgeId != edges[j].edgeId)
                 && (forall e :: e in edges ==> Known(nodes, e.fromId) && Known(nodes, e.toId))
                 && (forall e :: e in edges && e.edgeType == Fulfills ==> Running(nodes, e.fromId))
                 && (forall e :: e in edges && e.edgeType == FulfilledBy ==> Running(nodes, e.toId))
                 && forall p :: !Round(edges, p)
  {
    hide HardGraph, Acyclic, Round;
    forall e ensures Dangles(nodes, e) <==> !(Known(nodes, e.fromId) && Known(nodes, e.toId)) {}
    forall id ensures Idle(nodes, id) <==> !Running(nodes, id) {}
    DistinctKeys(nodes, NodeId);
    DistinctKeys(nodes, Alias);
    DistinctKeys(edges, EdgeId);
    if forall e :: e in edges ==> Known(nodes, e.fromId) { RoundsAre(nodes, edges); }
  }

  lemma DistinctKeys<T, U>(s: seq<T>, key: T -> U)
    ensures Distinct(Map(s, key)) <==> forall i, j :: 0 <= i < j < |s| ==> key(s[i]) != key(s[j])
  {
    assert forall i :: 0 <= i < |s| ==> Map(s, key)[i] == key(s[i]);
  }

  /** A patch is bound to its base exactly by organization, version and hash; what does not fit is reported. */
  lemma BindingExact(hash: Hasher, base: StackSnapshot, patch: StackPatch)
    ensures PatchIssue(TenantMismatch, None) in BindingIssues(hash, base, patch)
            <==> patch.organizationId != base.organizationId
    ensures PatchIssue(StaleBase, None) in BindingIssues(hash, base, patch)
            <==> patch.baseVersion != base.version || patch.baseHash != hash(base)
    ensures BindingIssues(hash, base, patch) == []
            <==> patch.organizationId == base.organizationId && patch.baseVersion == base.version
                 && patch.baseHash == hash(base)
  {
  }
}
