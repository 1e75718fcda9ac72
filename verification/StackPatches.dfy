/** Simulating and applying version-bound patches to stack snapshots. */
module StackPatches {
  import opened Outcomes
  import opened Ordering
  import opened Stackfile

  datatype PatchOperation =
    | AddNode(operationId: string, node: StackNode)
    | AddEdge(operationId: string, edge: StackEdge)
    | TransitionProductInstance(operationId: string, nodeId: string, fromState: InstanceState, toState: InstanceState,
      deploymentValidated: bool)
    | RemoveEdge(operationId: string, edgeId: string)
    | RemoveNode(operationId: string, removedId: string)
  {
    /** What construction checks: well-formed values, and no product that is active from the start. */
    predicate Valid() {
      && (AddNode? ==> node.Valid() && node.state != Some(Active))
      && (AddEdge? ==> edge.Valid())
    }
  }

  datatype PatchStatus =
    | Draft | Validated | AwaitingApproval | Approved | Applying | Applied | ConflictStatus | Failed | CompensatingPatch

  datatype StackPatch = StackPatch(
    patchId: string,
    organizationId: string,
    baseVersion: nat,
    baseHash: string,
    operations: seq<PatchOperation>,
    status: PatchStatus)
  {
    predicate Valid() {
      forall op :: op in operations ==> op.Valid()
    }
  }

  datatype IssueCode =
    | TenantMismatch | StaleBase | DuplicateNode | DuplicateNodeAlias | DuplicateEdge | MissingEndpoint
    | NotProductInstance | StaleInstanceState | InvalidInstanceTransition | DeploymentNotValidated
    | MissingEdge | MissingNode | InstanceHistoryRequired | DependenciesRemain
    | GraphInvalid(error: GraphError)

  datatype PatchIssue = PatchIssue(code: IssueCode, operationId: Option<string>)

  /** The lifecycle table of product instances. */
  function NextStates(s: InstanceState): set<InstanceState> {
    match s
    case Proposed => {Contracted}
    case Contracted => {Provisioned, Retiring}
    case Provisioned => {Deploying, Retiring}
    case Deploying => {Active, Degraded, Retiring}
    case Active => {Degraded, Retiring}
    case Degraded => {Active, Retiring}
    case Retiring => {Cancelled}
    case Cancelled => {}
  }

  // ---- One operation ----

  /** Nodes and edges by identifier, as the simulation holds them. */
  datatype StackGraph = StackGraph(nodes: map<string, StackNode>, edges: map<string, StackEdge>)

  predicate AliasTaken(nodes: map<string, StackNode>, alias: string) {
    exists id :: id in nodes && nodes[id].alias == alias
  }

  predicate Attached(edges: map<string, StackEdge>, nodeId: string) {
    exists id :: id in edges && (edges[id].fromId == nodeId || edges[id].toId == nodeId)
  }

  /** Why an operation is skipped, if it is. */
  function Objection(g: StackGraph, op: PatchOperation): Option<IssueCode> {
    match op
    case AddNode(_, node) =>
      if node.nodeId in g.nodes then Some(DuplicateNode)
      else if AliasTaken(g.nodes, node.alias) then Some(DuplicateNodeAlias)
      else None
    case AddEdge(_, edge) =>
      if edge.edgeId in g.edges then Some(DuplicateEdge)
      else if edge.fromId !in g.nodes || edge.toId !in g.nodes then Some(MissingEndpoint)
      else None
    case TransitionProductInstance(_, nodeId, fromState, toState, validated) =>
      if nodeId !in g.nodes || g.nodes[nodeId].nodeType != ProductInstance then Some(NotProductInstance)
      else if g.nodes[nodeId].state != Some(fromState) then Some(StaleInstanceState)
      else if toState !in NextStates(fromState) then Some(InvalidInstanceTransition)
      else if toState == Active && !validated then Some(DeploymentNotValidated)
      else None
    case RemoveEdge(_, edgeId) =>
      if edgeId !in g.edges then Some(MissingEdge) else None
    case RemoveNode(_, nodeId) =>
      if nodeId !in g.nodes then Some(MissingNode)
      else if g.nodes[nodeId].nodeType == ProductInstance then Some(InstanceHistoryRequired)
      else if Attached(g.edges, nodeId) then Some(DependenciesRemain)
      else None
  }

  /** The effect of an operation nothing speaks against. */
  function Effect(g: StackGraph, op: PatchOperation): StackGraph
    requires Objection(g, op).None?
  {
    match op
    case AddNode(_, node) => g.(nodes := g.nodes[node.nodeId := node])
    case AddEdge(_, edge) => g.(edges := g.edges[edge.edgeId := edge])
    case TransitionProductInstance(_, nodeId, _, toState, _) =>
      g.(nodes := g.nodes[nodeId := g.nodes[nodeId].(state := Some(toState))])
    case RemoveEdge(_, edgeId) => g.(edges := g.edges - {edgeId})
    case RemoveNode(_, nodeId) => g.(nodes := g.nodes - {nodeId})
  }

  datatype Simulation = Simulation(graph: StackGraph, issues: seq<PatchIssue>)

  /** Run the operations in order; each one that is objected to leaves an issue and no other trace. */
  function Run(g: StackGraph, operations: seq<PatchOperation>): Simulation {
    if operations == [] then Simulation(g, [])
    else
      var before := Run(g, operations[..|operations| - 1]);
      var op := operations[|operations| - 1];
      match Objection(before.graph, op)
      case Some(code) => before.(issues := before.issues + [PatchIssue(code, Some(op.operationId))])
      case None => before.(graph := Effect(before.graph, op))
  }

  // ---- What every operation keeps ----

  ghost predicate NodesFiled(nodes: map<string, StackNode>) {
    forall id :: id in nodes ==> nodes[id].nodeId == id && nodes[id].Valid()
  }

  ghost predicate AliasesUnique(nodes: map<string, StackNode>) {
    forall a, b :: a in nodes && b in nodes && nodes[a].alias == nodes[b].alias ==> a == b
  }

  ghost predicate EdgesFiled(edges: map<string, StackEdge>) {
    forall id :: id in edges ==> edges[id].edgeId == id && edges[id].Valid()
  }

  ghost predicate EndsPresent(nodes: map<string, StackNode>, edges: map<string, StackEdge>) {
    forall id :: id in edges ==> edges[id].fromId in nodes && edges[id].toId in nodes
  }

  /** Entries under their own identifiers, aliases unique, every edge between present nodes. */
  ghost predicate Sound(g: StackGraph) {
    NodesFiled(g.nodes) && AliasesUnique(g.nodes) && EdgesFiled(g.edges) && EndsPresent(g.nodes, g.edges)
  }

  lemma EffectKeepsNodes(g: StackGraph, op: PatchOperation)
    requires NodesFiled(g.nodes) && op.Valid() && Objection(g, op).None?
    ensures NodesFiled(Effect(g, op).nodes)
  {
  }

  lemma EffectKeepsAliases(g: StackGraph, op: PatchOperation)
    requires AliasesUnique(g.nodes) && Objection(g, op).None?
    ensures AliasesUnique(Effect(g, op).nodes)
  {
  }

  lemma EffectKeepsEdges(g: StackGraph, op: PatchOperation)
    requires EdgesFiled(g.edges) && op.Valid() && Objection(g, op).None?
    ensures EdgesFiled(Effect(g, op).edges)
  {
  }

  lemma EffectKeepsEnds(g: StackGraph, op: PatchOperation)
    requires EndsPresent(g.nodes, g.edges) && Objection(g, op).None?
    ensures EndsPresent(Effect(g, op).nodes, Effect(g, op).edges)
  {
  }

  lemma EffectKeepsSound(g: StackGraph, op: PatchOperation)
    requires Sound(g) && op.Valid() && Objection(g, op).None?
    ensures Sound(Effect(g, op))
  {
    hide Effect, Objection;
    EffectKeepsNodes(g, op);
    EffectKeepsAliases(g, op);
    EffectKeepsEdges(g, op);
    EffectKeepsEnds(g, op);
  }

  /** Adding an edge and removing it again restores the graph. */
  lemma AddRemoveEdge(g: StackGraph, edge: StackEdge, id: string, id': string)
    requires Objection(g, AddEdge(id, edge)).None?
    ensures Objection(Effect(g, AddEdge(id, edge)), RemoveEdge(id', edge.edgeId)).None?
    ensures Effect(Effect(g, AddEdge(id, edge)), RemoveEdge(id', edge.edgeId)) == g
  {
    assert g.edges[edge.edgeId := edge] - {edge.edgeId} == g.edges;
  }

  /** So does adding a node that is no product instance and removing it again. */
  lemma AddRemoveNode(g: StackGraph, node: StackNode, id: string, id': string)
    requires Sound(g) && Objection(g, AddNode(id, node)).None? && node.nodeType != ProductInstance
    ensures Objection(Effect(g, AddNode(id, node)), RemoveNode(id', node.nodeId)).None?
    ensures Effect(Effect(g, AddNode(id, node)), RemoveNode(id', node.nodeId)) == g
  {
    assert g.nodes[node.nodeId := node] - {node.nodeId} == g.nodes;
  }

  /** A transition changes the state of its instance and nothing else, and only along the lifecycle table. */
  lemma TransitionOnly(g: StackGraph, op: PatchOperation)
    requires Sound(g) && op.TransitionProductInstance? && Objection(g, op).None?
    ensures var h := Effect(g, op);
            && h.edges == g.edges && h.nodes.Keys == g.nodes.Keys
            && op.nodeId in g.nodes && g.nodes[op.nodeId].state == Some(op.fromState)
               && op.toState in NextStates(op.fromState)
            && h.nodes[op.nodeId] == g.nodes[op.nodeId].(state := Some(op.toState))
            && forall id :: id in g.nodes && id != op.nodeId ==> h.nodes[id] == g.nodes[id]
  {
  }

  /** However many operations are skipped, the simulated graph stays sound. */
  lemma {:induction false} RunKeepsSound(g: StackGraph, operations: seq<PatchOperation>)
    requires Sound(g) && forall op :: op in operations ==> op.Valid()
    ensures Sound(Run(g, operations).graph)
  {
    if operations != [] {
      var rest, op := operations[..|operations| - 1], operations[|operations| - 1];
      assert op in operations;
      RunKeepsSound(g, rest);
      if Objection(Run(g, rest).graph, op).None? { EffectKeepsSound(Run(g, rest).graph, op); }
    }
  }

  // ---- Snapshots and graphs ----

  type Hasher = StackSnapshot -> string

  /** A constructed snapshot: positive version, entries in identifier order, valid values and graph. */
  ghost predicate ValidSnapshot(s: StackSnapshot) {
    && s.schemaVersion != "" && s.version >= 1
    && (forall n :: n in s.nodes ==> n.Valid())
    && (forall e :: e in s.edges ==> e.Valid())
    && Sorted(s.nodes, ByKey(NodeKey)) && Sorted(s.edges, ByKey(EdgeKey))
    && GraphValid(s.nodes, s.edges)
  }

  function NodeMap(nodes: seq<StackNode>): map<string, StackNode> {
    if nodes == [] then map[] else NodeMap(nodes[..|nodes| - 1])[nodes[|nodes| - 1].nodeId := nodes[|nodes| - 1]]
  }

  function EdgeMap(edges: seq<StackEdge>): map<string, StackEdge> {
    if edges == [] then map[] else EdgeMap(edges[..|edges| - 1])[edges[|edges| - 1].edgeId := edges[|edges| - 1]]
  }

  function Load(s: StackSnapshot): StackGraph {
    StackGraph(NodeMap(s.nodes), EdgeMap(s.edges))
  }

  function NodesOf(nodes: map<string, StackNode>, ids: seq<string>): (r: seq<StackNode>)
    requires forall id :: id in ids ==> id in nodes
    ensures |r| == |ids| && forall i :: 0 <= i < |ids| ==> r[i] == nodes[ids[i]]
  {
    if ids == [] then []
    else
      assert ids[0] in ids && forall id :: id in ids[1..] ==> id in ids;
      [nodes[ids[0]]] + NodesOf(nodes, ids[1..])
  }

  function EdgesOf(edges: map<string, StackEdge>, ids: seq<string>): (r: seq<StackEdge>)
    requires forall id :: id in ids ==> id in edges
    ensures |r| == |ids| && forall i :: 0 <= i < |ids| ==> r[i] == edges[ids[i]]
  {
    if ids == [] then []
    else
      assert ids[0] in ids && forall id :: id in ids[1..] ==> id in ids;
      [edges[ids[0]]] + EdgesOf(edges, ids[1..])
  }

  /** The graph as the next version of a snapshot, entries in identifier order. */
  function NextVersion(base: StackSnapshot, g: StackGraph): StackSnapshot {
    base.(version := base.version + 1, nodes := AllNodes(g.nodes), edges := AllEdges(g.edges))
  }

  lemma {:induction false} NodeMapHolds(nodes: seq<StackNode>)
    requires Distinct(Map(nodes, NodeId))
    ensures forall n :: n in nodes ==> n.nodeId in NodeMap(nodes) && NodeMap(nodes)[n.nodeId] == n
    ensures forall id :: id in NodeMap(nodes) ==> NodeMap(nodes)[id] in nodes && NodeMap(nodes)[id].nodeId == id
  {
    if nodes != [] {
      var before, last := nodes[..|nodes| - 1], nodes[|nodes| - 1];
      assert nodes == before + [last];
      var keys := Map(nodes, NodeId);
      assert Map(before, NodeId) == keys[..|before|];
      NodeMapHolds(before);
      forall n | n in before ensures n.nodeId != last.nodeId {
        var i :| 0 <= i < |before| && before[i] == n;
        assert keys[i] != keys[|before|];
      }
    }
  }

  lemma {:induction false} EdgeMapHolds(edges: seq<StackEdge>)
    requires Distinct(Map(edges, EdgeId))
    ensures forall e :: e in edges ==> e.edgeId in EdgeMap(edges) && EdgeMap(edges)[e.edgeId] == e
    ensures forall id :: id in EdgeMap(edges) ==> EdgeMap(edges)[id] in edges && EdgeMap(edges)[id].edgeId == id
  {
    if edges != [] {
      var before, last := edges[..|edges| - 1], edges[|edges| - 1];
      assert edges == before + [last];
      var keys := Map(edges, EdgeId);
      assert Map(before, EdgeId) == keys[..|before|];
      EdgeMapHolds(before);
      forall e | e in before ensures e.edgeId != last.edgeId {
        var i :| 0 <= i < |before| && before[i] == e;
        assert keys[i] != keys[|before|];
      }
    }
  }

  lemma SameKey<T, U>(s: seq<T>, f: T -> U, x: T, y: T)
    requires Distinct(Map(s, f)) && x in s && y in s && f(x) == f(y)
    ensures x == y
  {
    var i :| 0 <= i < |s| && s[i] == x;
    var j :| 0 <= j < |s| && s[j] == y;
    assert Map(s, f)[i] == Map(s, f)[j];
  }

  /** A valid snapshot loads into a sound graph. */
  lemma LoadSound(s: StackSnapshot)
    requires ValidSnapshot(s)
    ensures Sound(Load(s))
  {
    NodeMapHolds(s.nodes);
    EdgeMapHolds(s.edges);
    var g := Load(s);
    forall a, b | a in g.nodes && b in g.nodes && g.nodes[a].alias == g.nodes[b].alias ensures a == b {
      SameKey(s.nodes, Alias, g.nodes[a], g.nodes[b]);
    }
    forall id | id in g.edges ensures g.edges[id].fromId in g.nodes && g.edges[id].toId in g.nodes {
      assert !Dangles(s.nodes, g.edges[id]);
    }
  }

  lemma KeyOrder(a: string, b: string)
    requires StrLess(a, b)
    ensures !IdsLess([b], [a])
  {
    StrOrder();
    assert StrLess(b, a) ==> StrLess(a, a);
    assert [a][1..] == [] && [b][1..] == [];
  }

  ghost predicate KeysAscend(ids: seq<string>) {
    forall i, j :: 0 <= i < j < |ids| ==> !IdsLess([ids[j]], [ids[i]])
  }

  lemma IdsSorted(ids: set<string>)
    ensures Distinct(SortedIds(ids)) && KeysAscend(SortedIds(ids))
  {
    SortedIdsIncrease(ids);
    var s := SortedIds(ids);
    forall i, j | 0 <= i < j < |s| ensures !IdsLess([s[j]], [s[i]]) { KeyOrder(s[i], s[j]); }
  }

  lemma SortedByIds<T>(s: seq<T>, key: T -> seq<string>, ids: seq<string>)
    requires |s| == |ids| && KeysAscend(ids)
    requires forall i :: 0 <= i < |s| ==> key(s[i]) == [ids[i]]
    ensures Sorted(s, ByKey(key))
  {
    forall i, j | 0 <= i < j < |s| ensures !ByKey(key)(s[j], s[i]) {
      assert key(s[i]) == [ids[i]] && key(s[j]) == [ids[j]];
    }
  }

  function AllNodes(nodes: map<string, StackNode>): seq<StackNode> {
    NodesOf(nodes, SortedIds(nodes.Keys))
  }

  function AllEdges(edges: map<string, StackEdge>): seq<StackEdge> {
    EdgesOf(edges, SortedIds(edges.Keys))
  }

  lemma NodesInOrder(nodes: map<string, StackNode>)
    requires NodesFiled(nodes)
    ensures |AllNodes(nodes)| == |SortedIds(nodes.Keys)|
    ensures forall i :: 0 <= i < |AllNodes(nodes)| ==> AllNodes(nodes)[i].nodeId == SortedIds(nodes.Keys)[i]
  {
    var ids := SortedIds(nodes.Keys);
    forall i | 0 <= i < |ids| ensures ids[i] in nodes { assert ids[i] in ids; }
  }

  lemma NodesKeyed(nodes: map<string, StackNode>)
    requires NodesFiled(nodes)
    ensures Distinct(Map(AllNodes(nodes), NodeId)) && Sorted(AllNodes(nodes), ByKey(NodeKey))
  {
    hide SortedIds, AllNodes, NodesFiled, IdsLess, KeysAscend, Sorted;
    var ids, all := SortedIds(nodes.Keys), AllNodes(nodes);
    IdsSorted(nodes.Keys);
    NodesInOrder(nodes);
    assert Map(all, NodeId) == ids;
    SortedByIds(all, NodeKey, ids);
  }

  lemma NodesListed(nodes: map<string, StackNode>, n: StackNode)
    requires NodesFiled(nodes)
    ensures n in AllNodes(nodes) <==> n.nodeId in nodes && nodes[n.nodeId] == n
  {
    var ids, all := SortedIds(nodes.Keys), AllNodes(nodes);
    if n in all {
      var i :| 0 <= i < |all| && all[i] == n;
      assert ids[i] in ids;
    }
    if n.nodeId in nodes && nodes[n.nodeId] == n {
      assert n.nodeId in ids;
      var i :| 0 <= i < |ids| && ids[i] == n.nodeId;
      assert all[i] == n;
    }
  }

  lemma NodeIdsListed(nodes: map<string, StackNode>)
    requires NodesFiled(nodes)
    ensures Ids(AllNodes(nodes)) == nodes.Keys
  {
    forall id ensures id in Ids(AllNodes(nodes)) <==> id in nodes.Keys {
      if id in Ids(AllNodes(nodes)) {
        var n :| n in AllNodes(nodes) && n.nodeId == id;
        NodesListed(nodes, n);
      }
      if id in nodes { NodesListed(nodes, nodes[id]); }
    }
  }

  lemma AliasesListed(nodes: map<string, StackNode>)
    requires NodesFiled(nodes) && AliasesUnique(nodes)
    ensures Distinct(Map(AllNodes(nodes), Alias))
  {
    var ids, all := SortedIds(nodes.Keys), AllNodes(nodes);
    IdsSorted(nodes.Keys);
    forall i, j | 0 <= i < j < |all| ensures Map(all, Alias)[i] != Map(all, Alias)[j] {
      assert ids[i] != ids[j] && ids[i] in ids && ids[j] in ids;
    }
  }

  lemma EdgesInOrder(edges: map<string, StackEdge>)
    requires EdgesFiled(edges)
    ensures |AllEdges(edges)| == |SortedIds(edges.Keys)|
    ensures forall i :: 0 <= i < |AllEdges(edges)| ==> AllEdges(edges)[i].edgeId == SortedIds(edges.Keys)[i]
  {
    var ids := SortedIds(edges.Keys);
    forall i | 0 <= i < |ids| ensures ids[i] in edges { assert ids[i] in ids; }
  }

  lemma EdgesKeyed(edges: map<string, StackEdge>)
    requires EdgesFiled(edges)
    ensures Distinct(Map(AllEdges(edges), EdgeId)) && Sorted(AllEdges(edges), ByKey(EdgeKey))
  {
    hide SortedIds, AllEdges, EdgesFiled, IdsLess, KeysAscend, Sorted;
    var ids, all := SortedIds(edges.Keys), AllEdges(edges);
    IdsSorted(edges.Keys);
    EdgesInOrder(edges);
    assert Map(all, EdgeId) == ids;
    SortedByIds(all, EdgeKey, ids);
  }

  lemma EdgesListed(edges: map<string, StackEdge>, e: StackEdge)
    requires EdgesFiled(edges)
    ensures e in AllEdges(edges) <==> e.edgeId in edges && edges[e.edgeId] == e
  {
    var ids, all := SortedIds(edges.Keys), AllEdges(edges);
    if e in all {
      var i :| 0 <= i < |all| && all[i] == e;
      assert ids[i] in ids;
    }
    if e.edgeId in edges && edges[e.edgeId] == e {
      assert e.edgeId in ids;
      var i :| 0 <= i < |ids| && ids[i] == e.edgeId;
      assert all[i] == e;
    }
  }

  lemma NodeMapInverts(nodes: map<string, StackNode>)
    requires NodesFiled(nodes)
    ensures NodeMap(AllNodes(nodes)) == nodes
  {
    hide AllNodes, NodeMap;
    NodesKeyed(nodes);
    var all := AllNodes(nodes);
    NodeMapHolds(all);
    forall id ensures id in NodeMap(all) <==> id in nodes {
      if id in nodes { NodesListed(nodes, nodes[id]); }
      if id in NodeMap(all) { NodesListed(nodes, NodeMap(all)[id]); }
    }
    forall id | id in nodes ensures NodeMap(all)[id] == nodes[id] { NodesListed(nodes, nodes[id]); }
    assert NodeMap(all).Keys == nodes.Keys;
  }

  lemma EdgeMapInverts(edges: map<string, StackEdge>)
    requires EdgesFiled(edges)
    ensures EdgeMap(AllEdges(edges)) == edges
  {
    hide AllEdges, EdgeMap;
    EdgesKeyed(edges);
    var all := AllEdges(edges);
    EdgeMapHolds(all);
    forall id ensures id in EdgeMap(all) <==> id in edges {
      if id in edges { EdgesListed(edges, edges[id]); }
      if id in EdgeMap(all) { EdgesListed(edges, EdgeMap(all)[id]); }
    }
    forall id | id in edges ensures EdgeMap(all)[id] == edges[id] { EdgesListed(edges, edges[id]); }
    assert EdgeMap(all).Keys == edges.Keys;
  }

  /** Writing a sound graph out and loading it again gives the same graph. */
  lemma LoadInvertsNext(base: StackSnapshot, g: StackGraph)
    requires Sound(g)
    ensures Load(NextVersion(base, g)) == g
  {
    NodeMapInverts(g.nodes);
    EdgeMapInverts(g.edges);
  }

  lemma NextLinked(g: StackGraph)
    requires Sound(g)
    ensures Linked(AllNodes(g.nodes), AllEdges(g.edges))
    ensures Sorted(AllNodes(g.nodes), ByKey(NodeKey)) && Sorted(AllEdges(g.edges), ByKey(EdgeKey))
  {
    NodesKeyed(g.nodes);
    AliasesListed(g.nodes);
    EdgesKeyed(g.edges);
    NodeIdsListed(g.nodes);
    forall e | e in AllEdges(g.edges) ensures !Dangles(AllNodes(g.nodes), e) {
      EdgesListed(g.edges, e);
    }
  }

  /**
   * A sound graph can only fail the final check by letting an idle instance fulfil a job, or by a
   * hard dependency cycle.
   */
  lemma FinalCheck(base: StackSnapshot, g: StackGraph)
    requires Sound(g)
    ensures var next := NextVersion(base, g);
            && Linked(next.nodes, next.edges)
            && (GraphValid(next.nodes, next.edges)
                <==> !AnyIdle(next.nodes, next.edges) && Acyclic(HardGraph(Ids(next.nodes), next.edges)))
  {
    NextLinked(g);
    LinkedCheck(AllNodes(g.nodes), AllEdges(g.edges));
  }

  lemma NextValid(base: StackSnapshot, g: StackGraph)
    requires Sound(g) && ValidSnapshot(base)
    requires GraphValid(NextVersion(base, g).nodes, NextVersion(base, g).edges)
    ensures ValidSnapshot(NextVersion(base, g))
  {
    NextLinked(g);
    forall n | n in AllNodes(g.nodes) ensures n.Valid() { NodesListed(g.nodes, n); }
    forall e | e in AllEdges(g.edges) ensures e.Valid() { EdgesListed(g.edges, e); }
  }

  // ---- Validating a patch ----

  function BindingIssues(hash: Hasher, base: StackSnapshot, patch: StackPatch): seq<PatchIssue> {
    (if patch.organizationId != base.organizationId then [PatchIssue(TenantMismatch, None)] else [])
    + (if patch.baseVersion != base.version || patch.baseHash != hash(base) then [PatchIssue(StaleBase, None)] else [])
  }

  /** The outcome of a patch that is bound to its base and whose operations all apply. */
  ghost predicate Concluded(base: StackSnapshot, g: StackGraph, issues: seq<PatchIssue>,
      simulated: Option<StackSnapshot>)
  {
    var next := NextVersion(base, g);
    if GraphValid(next.nodes, next.edges) then
      issues == [] && simulated == Some(next) && ValidSnapshot(next)
    else
      && simulated.None?
      && issues
         == [PatchIssue(GraphInvalid(if WellLinked(next.nodes, next.edges) then HardCycle else InactiveFulfils), None)]
  }

  ghost predicate Validates(hash: Hasher, base: StackSnapshot, patch: StackPatch, issues: seq<PatchIssue>,
      simulated: Option<StackSnapshot>)
  {
    var run := Run(Load(base), patch.operations);
    if BindingIssues(hash, base, patch) != [] then issues == BindingIssues(hash, base, patch) && simulated.None?
    else if run.issues != [] then issues == run.issues && simulated.None?
    else Concluded(base, run.graph, issues, simulated)
  }

  /** The final check of a linked graph fails only for idle fulfilment or a hard cycle. */
  method CheckLinked(nodes: seq<StackNode>, edges: seq<StackEdge>) returns (error: Option<GraphError>)
    requires Linked(nodes, edges)
    ensures error == if GraphValid(nodes, edges) then None
      else Some(if WellLinked(nodes, edges) then HardCycle else InactiveFulfils)
  {
    LinkedCheck(nodes, edges);
    error := ValidateGraph(nodes, edges);
  }

  /** Writes out the simulated graph if it passes the final check. */
  method Conclude(base: StackSnapshot, nodes: map<string, StackNode>, edges: map<string, StackEdge>)
    returns (issues: seq<PatchIssue>, simulated: Option<StackSnapshot>)
    requires ValidSnapshot(base) && Sound(StackGraph(nodes, edges))
    ensures Concluded(base, StackGraph(nodes, edges), issues, simulated)
  {
    NextLinked(StackGraph(nodes, edges));
    var next := NextVersion(base, StackGraph(nodes, edges));
    var error := CheckLinked(next.nodes, next.edges);
    match error
    case None =>
      NextValid(base, StackGraph(nodes, edges));
      issues, simulated := [], Some(next);
    case Some(e) => issues, simulated := [PatchIssue(GraphInvalid(e), None)], None;
  }

  /** Simulates the operations one by one on copies of the base's nodes and edges. */
  method Simulate(base: StackSnapshot, operations: seq<PatchOperation>)
    returns (nodes: map<string, StackNode>, edges: map<string, StackEdge>, issues: seq<PatchIssue>)
    ensures Simulation(StackGraph(nodes, edges), issues) == Run(Load(base), operations)
  {
    nodes, edges, issues := NodeMap(base.nodes), EdgeMap(base.edges), [];
    for i := 0 to |operations|
      invariant Simulation(StackGraph(nodes, edges), issues) == Run(Load(base), operations[..i])
    {
      assert operations[..i + 1][..i] == operations[..i];
      var op := operations[i];
      match op {
        case AddNode(id, node) =>
          if node.nodeId in nodes {
            issues := issues + [PatchIssue(DuplicateNode, Some(id))];
          } else if AliasTaken(nodes, node.alias) {
            issues := issues + [PatchIssue(DuplicateNodeAlias, Some(id))];
          } else {
            nodes := nodes[node.nodeId := node];
          }
        case AddEdge(id, edge) =>
          if edge.edgeId in edges {
            issues := issues + [PatchIssue(DuplicateEdge, Some(id))];
          } else if edge.fromId !in nodes || edge.toId !in nodes {
            issues := issues + [PatchIssue(MissingEndpoint, Some(id))];
          } else {
            edges := edges[edge.edgeId := edge];
          }
        case TransitionProductInstance(id, nodeId, fromState, toState, validated) =>
          if nodeId !in nodes || nodes[nodeId].nodeType != ProductInstance {
            issues := issues + [PatchIssue(NotProductInstance, Some(id))];
          } else if nodes[nodeId].state != Some(fromState) {
            issues := issues + [PatchIssue(StaleInstanceState, Some(id))];
          } else if toState !in NextStates(fromState) {
            issues := issues + [PatchIssue(InvalidInstanceTransition, Some(id))];
          } else if toState == Active && !validated {
            issues := issues + [PatchIssue(DeploymentNotValidated, Some(id))];
          } else {
            nodes := nodes[nodeId := nodes[nodeId].(state := Some(toState))];
          }
        case RemoveEdge(id, edgeId) =>
          if edgeId !in edges {
            issues := issues + [PatchIssue(MissingEdge, Some(id))];
          } else {
            edges := edges - {edgeId};
          }
        case RemoveNode(id, nodeId) =>
          if nodeId !in nodes {
            issues := issues + [PatchIssue(MissingNode, Some(id))];
          } else if nodes[nodeId].nodeType == ProductInstance {
            issues := issues + [PatchIssue(InstanceHistoryRequired, Some(id))];
          } else if Attached(edges, nodeId) {
            issues := issues + [PatchIssue(DependenciesRemain, Some(id))];
          } else {
            nodes := nodes - {nodeId};
          }
      }
    }
    assert operations[..|operations|] == operations;
  }

  /** Checks that a patch is bound to its base, simulates it, and checks the graph that results. */
  method ValidatePatch(hash: Hasher, base: StackSnapshot, patch: StackPatch)
    returns (issues: seq<PatchIssue>, simulated: Option<StackSnapshot>)
    requires ValidSnapshot(base) && patch.Valid()
    ensures Validates(hash, base, patch, issues, simulated)
  {
    issues := BindingIssues(hash, base, patch);
    if issues != [] {
      return issues, None;
    }
    var nodes, edges;
    nodes, edges, issues := Simulate(base, patch.operations);
    if issues != [] {
      return issues, None;
    }
    LoadSound(base);
    RunKeepsSound(Load(base), patch.operations);
    issues, simulated := Conclude(base, nodes, edges);
  }

  // ---- Applying approved patches ----

  /** The status table of patches. */
  function NextStatuses(s: PatchStatus): set<PatchStatus> {
    match s
    case Draft => {Validated, Failed, ConflictStatus}
    case Validated => {AwaitingApproval}
    case AwaitingApproval => {Approved, ConflictStatus}
    case Approved => {Applying, ConflictStatus}
    case Applying => {Applied, Failed}
    case Applied => {CompensatingPatch}
    case ConflictStatus => {}
    case Failed => {CompensatingPatch}
    case CompensatingPatch => {}
  }

  function TransitionPatchStatus(patch: StackPatch, target: PatchStatus): Option<StackPatch> {
    if target in NextStatuses(patch.status) then Some(patch.(status := target)) else None
  }

  /** A patch that starts as a draft and ends applied has been approved and was being applied just before. */
  lemma AppliedWasApproved(history: seq<StackPatch>)
    requires |history| > 0 && history[0].status == Draft && history[|history| - 1].status == Applied
    requires forall i ::
             0 <= i < |history| - 1 ==> TransitionPatchStatus(history[i], history[i + 1].status) == Some(history[i + 1])
    ensures |history| > 3 && history[|history| - 2].status == Applying && history[|history| - 3].status == Approved
  {
    var n := |history|;
    assert TransitionPatchStatus(history[n - 2], history[n - 2 + 1].status).Some?;
    assert TransitionPatchStatus(history[n - 3], history[n - 3 + 1].status).Some?;
  }

  datatype PatchError = PatchNotApproved | InvalidPatch(issues: seq<PatchIssue>)

  /** The patch is approved and bound to base, and takes it to next. */
  ghost predicate Applies(hash: Hasher, base: StackSnapshot, patch: StackPatch, next: StackSnapshot) {
    var run := Run(Load(base), patch.operations);
    && patch.status == Approved && BindingIssues(hash, base, patch) == [] && run.issues == []
    && next == NextVersion(base, run.graph) && GraphValid(next.nodes, next.edges)
  }

  method ApplyApprovedPatch(hash: Hasher, base: StackSnapshot, patch: StackPatch)
    returns (r: Result<StackSnapshot, PatchError>)
    requires ValidSnapshot(base) && patch.Valid()
    ensures r.Ok? ==> Applies(hash, base, patch, r.value) && ValidSnapshot(r.value)
    ensures r.Raise? ==> forall next :: !Applies(hash, base, patch, next)
  {
    if patch.status != Approved {
      return Raise(PatchNotApproved);
    }
    var issues, simulated := ValidatePatch(hash, base, patch);
    if simulated.None? {
      return Raise(InvalidPatch(issues));
    }
    r := Ok(simulated.value);
  }

  // ---- What happens to product instances ----

  ghost predicate HasInstance(g: StackGraph, id: string) {
    id in g.nodes && g.nodes[id].nodeType == ProductInstance && g.nodes[id].state.Some?
  }

  ghost predicate IsActive(g: StackGraph, id: string) {
    HasInstance(g, id) && g.nodes[id].state == Some(Active)
  }

  /** Consecutive states follow the lifecycle table. */
  ghost predicate LifePath(p: seq<InstanceState>, a: InstanceState, b: InstanceState) {
    && p != [] && p[0] == a && p[|p| - 1] == b
    && forall i :: 0 <= i < |p| - 1 ==> p[i + 1] in NextStates(p[i])
  }

  ghost predicate LeadsTo(a: InstanceState, b: InstanceState) {
    exists p :: LifePath(p, a, b)
  }

  lemma StaysPut(a: InstanceState)
    ensures LeadsTo(a, a)
  {
    assert LifePath([a], a, a);
  }

  lemma StepsOn(a: InstanceState, b: InstanceState, c: InstanceState)
    requires LeadsTo(a, b) && c in NextStates(b)
    ensures LeadsTo(a, c)
  {
    var p :| LifePath(p, a, b);
    assert LifePath(p + [c], a, c);
  }

  lemma LeadsOn(a: InstanceState, b: InstanceState, c: InstanceState)
    requires LeadsTo(a, b) && LeadsTo(b, c)
    ensures LeadsTo(a, c)
  {
    var p :| LifePath(p, a, b);
    var q :| LifePath(q, b, c);
    var r := p + q[1..];
    forall i | 0 <= i < |r| - 1 ensures r[i + 1] in NextStates(r[i]) {
      if i < |p| - 1 {
        assert r[i] == p[i] && r[i + 1] == p[i + 1];
      } else {
        assert r[i] == q[i - |p| + 1] && r[i + 1] == q[i - |p| + 2];
      }
    }
    assert LifePath(r, a, c);
  }

  /** Nothing comes after cancellation. */
  lemma CancelledStays(b: InstanceState)
    requires LeadsTo(Cancelled, b)
    ensures b == Cancelled
  {
    var p :| LifePath(p, Cancelled, b);
    if |p| > 1 {
      FirstStep(p, Cancelled, b);
      assert false;
    }
  }

  lemma FirstStep(p: seq<InstanceState>, a: InstanceState, b: InstanceState)
    requires LifePath(p, a, b) && |p| > 1
    ensures NextStates(a) != {}
  {
    assert p[0 + 1] in NextStates(p[0]);
  }

  /** The instance is still there under its alias, in a state the lifecycle leads to. */
  ghost predicate Survives(g: StackGraph, h: StackGraph, id: string) {
    HasInstance(g, id) ==>
      HasInstance(h, id) && h.nodes[id].alias == g.nodes[id].alias
        && LeadsTo(g.nodes[id].state.value, h.nodes[id].state.value)
  }

  lemma {:induction false} RunKeepsInstance(g: StackGraph, operations: seq<PatchOperation>, id: string)
    ensures Survives(g, Run(g, operations).graph, id)
  {
    if HasInstance(g, id) {
      if operations == [] {
        StaysPut(g.nodes[id].state.value);
      } else {
        var rest, op := operations[..|operations| - 1], operations[|operations| - 1];
        RunKeepsInstance(g, rest, id);
        var h := Run(g, rest).graph;
        if Objection(h, op).None? && op.TransitionProductInstance? && op.nodeId == id {
          StepsOn(g.nodes[id].state.value, h.nodes[id].state.value, op.toState);
        }
      }
    }
  }

  /** The operation activates the instance after its deployment was validated. */
  predicate Activates(op: PatchOperation, id: string) {
    op.TransitionProductInstance? && op.nodeId == id && op.toState == Active && op.deploymentValidated
  }

  lemma {:induction false} RunActivation(g: StackGraph, operations: seq<PatchOperation>, id: string)
    requires forall op :: op in operations ==> op.Valid()
    requires IsActive(Run(g, operations).graph, id) && !IsActive(g, id)
    ensures exists op :: op in operations && Activates(op, id)
  {
    var rest, op := operations[..|operations| - 1], operations[|operations| - 1];
    assert op in operations;
    var h := Run(g, rest).graph;
    if IsActive(h, id) {
      RunActivation(g, rest, id);
    } else {
      assert Objection(h, op).None?;
      assert Activates(op, id);
    }
  }

  // ---- Chains of patches ----

  /** Every patch in turn takes one snapshot to the next. */
  ghost predicate Chain(hash: Hasher, snapshots: seq<StackSnapshot>, patches: seq<StackPatch>) {
    && |snapshots| == |patches| + 1 && ValidSnapshot(snapshots[0])
    && forall i ::
       0 <= i < |patches| ==> patches[i].Valid() && Applies(hash, snapshots[i], patches[i], snapshots[i + 1])
  }

  lemma AppliedSound(hash: Hasher, base: StackSnapshot, patch: StackPatch, next: StackSnapshot)
    requires ValidSnapshot(base) && patch.Valid() && Applies(hash, base, patch, next)
    ensures ValidSnapshot(next) && next.version == base.version + 1
    ensures Load(next) == Run(Load(base), patch.operations).graph
    ensures patch.baseVersion == base.version
  {
    LoadSound(base);
    RunKeepsSound(Load(base), patch.operations);
    var g := Run(Load(base), patch.operations).graph;
    NextValid(base, g);
    LoadInvertsNext(base, g);
    assert BindingIssues(hash, base, patch) == [];
  }

  /** Every snapshot of a chain is valid, and the version grows by one with each patch. */
  lemma {:induction false} ChainVersions(hash: Hasher, snapshots: seq<StackSnapshot>, patches: seq<StackPatch>, i: nat)
    requires Chain(hash, snapshots, patches) && i < |snapshots|
    ensures |snapshots| == |patches| + 1
    ensures ValidSnapshot(snapshots[i]) && snapshots[i].version == snapshots[0].version + i
    ensures i > 0 ==> patches[i - 1].baseVersion == snapshots[0].version + i - 1
    ensures i > 0 ==> Load(snapshots[i]) == Run(Load(snapshots[i - 1]), patches[i - 1].operations).graph
  {
    if i > 0 {
      ChainVersions(hash, snapshots, patches, i - 1);
      AppliedSound(hash, snapshots[i - 1], patches[i - 1], snapshots[i]);
    }
  }

  lemma PatchBase(hash: Hasher, snapshots: seq<StackSnapshot>, patches: seq<StackPatch>, i: nat)
    requires Chain(hash, snapshots, patches) && i < |patches|
    ensures patches[i].baseVersion == snapshots[0].version + i
  {
    ChainVersions(hash, snapshots, patches, i + 1);
  }

  /** No patch is applied twice. */
  lemma NoPatchTwice(hash: Hasher, snapshots: seq<StackSnapshot>, patches: seq<StackPatch>, i: nat, j: nat)
    requires Chain(hash, snapshots, patches) && i < j < |patches|
    ensures patches[i] != patches[j]
  {
    PatchBase(hash, snapshots, patches, i);
    PatchBase(hash, snapshots, patches, j);
  }

  /**
   * Along any chain no product instance disappears or changes its alias, its states follow the
   * lifecycle, and once cancelled it stays cancelled.
   */
  lemma {:induction false} InstancesSurvive(hash: Hasher, snapshots: seq<StackSnapshot>, patches: seq<StackPatch>,
      i: nat, j: nat, id: string)
    requires Chain(hash, snapshots, patches) && i <= j < |snapshots|
    requires HasInstance(Load(snapshots[i]), id)
    ensures HasInstance(Load(snapshots[j]), id)
    ensures Load(snapshots[j]).nodes[id].alias == Load(snapshots[i]).nodes[id].alias
    ensures LeadsTo(Load(snapshots[i]).nodes[id].state.value, Load(snapshots[j]).nodes[id].state.value)
    ensures Load(snapshots[i]).nodes[id].state == Some(Cancelled) ==>
            Load(snapshots[j]).nodes[id].state == Some(Cancelled)
    decreases j
  {
    hide Chain, Run, LeadsTo, ValidSnapshot, Load;
    if i == j {
      StaysPut(Load(snapshots[i]).nodes[id].state.value);
    } else {
      ChainVersions(hash, snapshots, patches, j);
      InstancesSurvive(hash, snapshots, patches, i, j - 1, id);
      RunKeepsInstance(Load(snapshots[j - 1]), patches[j - 1].operations, id);
      var a, b, c := Load(snapshots[i]).nodes[id].state.value, Load(snapshots[j - 1]).nodes[id].state.value,
          Load(snapshots[j]).nodes[id].state.value;
      LeadsOn(a, b, c);
      if a == Cancelled { CancelledStays(c); }
    }
  }

  /** An instance that becomes active somewhere along a chain has a validated activation among its patches. */
  lemma {:induction false} ActivationValidated(hash: Hasher, snapshots: seq<StackSnapshot>, patches: seq<StackPatch>,
      i: nat, j: nat, id: string)
    requires Chain(hash, snapshots, patches) && i <= j < |snapshots|
    requires !IsActive(Load(snapshots[i]), id) && IsActive(Load(snapshots[j]), id)
    ensures exists k, op :: i <= k < j && op in patches[k].operations && Activates(op, id)
    decreases j
  {
    hide Run, ValidSnapshot, Applies, Load, IsActive, Activates;
    ChainVersions(hash, snapshots, patches, j);
    if IsActive(Load(snapshots[j - 1]), id) {
      ActivationValidated(hash, snapshots, patches, i, j - 1, id);
    } else {
      RunActivation(Load(snapshots[j - 1]), patches[j - 1].operations, id);
    }
  }
}
