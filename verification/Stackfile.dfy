/** The stack graph: its values, and the checks every snapshot passes. */
module Stackfile {
  import opened Outcomes
  import opened Ordering
  import opened Domain
  import opened Digraph
  import Aliases

  datatype InstanceState =
    | Proposed
    | Contracted
    | Provisioned
    | Deploying
    | Active
    | Degraded
    | Retiring
    | Cancelled

  datatype NodeType =
    | Organization | BusinessGoal | Jtbd | Workflow | Capability | Team | Role | PersonRef | Product
    | ProductVersion | ProductInstance | ImplementationProject | Offer | Contract | Entitlement
    | Integration | DataAsset | Policy | BudgetNode | Vendor | DecisionNode | Outcome | RiskNode

  datatype EdgeType =
    | Fulfills | FulfilledBy | Provides | RequiresCapability | DeployedFor | Requires | IntegratesWith
    | SendsDataTo | Replaces | OverlapsWith | Blocks | ConstrainedBy | OwnedBy | UsedBy | PaidBy
    | ProvisionedBy | GovernedBy | MeasuredBy | RenewedBy

  datatype StackNode = StackNode(
    nodeId: string,
    alias: string,
    nodeType: NodeType,
    attributes: map<string, string>,
    state: Option<InstanceState>)
  {
    /** What construction checks: exactly product instances have a lifecycle state. */
    predicate Valid() {
      nodeType == ProductInstance <==> state.Some?
    }
  }

  datatype StackEdge = StackEdge(
    edgeId: string,
    fromId: string,
    toId: string,
    edgeType: EdgeType,
    criticality: StackRisk,
    hard: bool,
    evidenceRef: Option<string>,
    confidence: string)
  {
    predicate Valid() {
      fromId != toId
    }

    /** A hard dependency of its source on its target. */
    predicate IsHardDependency() {
      hard && (edgeType == Requires || edgeType == RequiresCapability)
    }
  }

  datatype StackSnapshot = StackSnapshot(
    schemaVersion: string,
    organizationId: string,
    version: nat,
    nodes: seq<StackNode>,
    edges: seq<StackEdge>)

  datatype GraphError = DuplicateNodeId | DuplicateAlias | DuplicateEdgeId | DanglingEdge | InactiveFulfils | HardCycle

  function NodeId(n: StackNode): string { n.nodeId }

  function Alias(n: StackNode): string { n.alias }

  function EdgeId(e: StackEdge): string { e.edgeId }

  function NodeKey(n: StackNode): seq<string> { [n.nodeId] }

  function EdgeKey(e: StackEdge): seq<string> { [e.edgeId] }

  function Ids(nodes: seq<StackNode>): set<string> {
    set n | n in nodes :: n.nodeId
  }

  // ---- What a valid graph is ----

  predicate Dangles(nodes: seq<StackNode>, e: StackEdge) {
    e.fromId !in Ids(nodes) || e.toId !in Ids(nodes)
  }

  /** The node is a product instance that is not active. */
  predicate Idle(nodes: seq<StackNode>, nodeId: string) {
    exists n :: n in nodes && n.nodeId == nodeId && n.nodeType == ProductInstance && n.state != Some(Active)
  }

  /** The edge lets a product instance that is not active fulfil a job. */
  predicate FulfilsIdly(nodes: seq<StackNode>, e: StackEdge) {
    (e.edgeType == Fulfills && Idle(nodes, e.fromId)) || (e.edgeType == FulfilledBy && Idle(nodes, e.toId))
  }

  /** What the hard dependencies of a node lead to, in edge order. */
  function Targets(edges: seq<StackEdge>, nodeId: string): seq<string> {
    if edges == [] then []
    else
      var last := edges[|edges| - 1];
      Targets(edges[..|edges| - 1], nodeId) + if last.IsHardDependency() && last.fromId == nodeId then [last.toId]
        else []
  }

  function HardGraph(ids: set<string>, edges: seq<StackEdge>): Graph {
    map id | id in ids :: Targets(edges, id)
  }

  lemma {:induction false} TargetsExact(edges: seq<StackEdge>, a: string, b: string)
    ensures b in Targets(edges, a) <==> exists e :: e in edges && e.IsHardDependency() && e.fromId == a && e.toId == b
  {
    if edges != [] {
      var before, last := edges[..|edges| - 1], edges[|edges| - 1];
      assert edges == before + [last];
      TargetsExact(before, a, b);
      if e :| e in edges && e.IsHardDependency() && e.fromId == a && e.toId == b {
        assert e in before || e == last;
      }
    }
  }

  /** No node depends on itself through hard dependencies. */
  ghost predicate Acyclic(g: Graph) {
    forall a :: !OnCycle(g, a)
  }

  ghost predicate GraphValid(nodes: seq<StackNode>, edges: seq<StackEdge>) {
    && Distinct(Map(nodes, NodeId))
    && Distinct(Map(nodes, Alias))
    && Distinct(Map(edges, EdgeId))
    && (forall e :: e in edges ==> !Dangles(nodes, e) && !FulfilsIdly(nodes, e))
    && Acyclic(HardGraph(Ids(nodes), edges))
  }

  // ---- The cycle search ----

  /** Every dependency is itself a node. */
  ghost predicate Closed(g: Graph) {
    forall a, b :: Edge(g, a, b) ==> b in g
  }

  /** Finished nodes, dependencies first; nothing is both finished and under way. */
  ghost predicate Progress(g: Graph, visiting: set<string>, visited: set<string>, order: seq<string>) {
    && visiting <= g.Keys && visited <= g.Keys && visiting !! visited
    && (forall a :: a in order <==> a in visited)
    && Topological(g, order)
  }

  lemma Started(g: Graph, visiting: set<string>, visited: set<string>, order: seq<string>, node: string)
    requires Progress(g, visiting, visited, order) && node in g && node !in visiting && node !in visited
    ensures Progress(g, visiting + {node}, visited, order)
    ensures |g.Keys - (visiting + {node})| < |g.Keys - visiting|
  {
    Aliases.SmallerSet(g.Keys - (visiting + {node}), g.Keys - visiting);
  }

  lemma Finished(g: Graph, visiting: set<string>, visited: set<string>, order: seq<string>, node: string)
    requires Progress(g, visiting, visited, order) && node in g && node in visiting
    requires forall k :: 0 <= k < |g[node]| ==> g[node][k] in visited
    ensures Progress(g, visiting - {node}, visited + {node}, order + [node])
  {
    FinishOrder(g, order, node);
  }

  /** Every node under way leads to the node. */
  ghost predicate LeadTo(g: Graph, visiting: set<string>, node: string) {
    forall v :: v in visiting ==> Reaches(g, v, node)
  }

  /** Depth-first search for a cycle, remembering what is under way and what is finished. */
  class CycleSearch {
    const graph: Graph
    var visiting: set<string>
    var visited: set<string>
    ghost var order: seq<string>

    ghost predicate Valid()
      reads this
    {
      Closed(graph) && Progress(graph, visiting, visited, order)
    }

    constructor (graph: Graph)
      requires Closed(graph)
      ensures Valid() && this.graph == graph && visiting == {} && visited == {}
    {
      this.graph := graph;
      visiting := {};
      visited := {};
      order := [];
    }

    /** Finishes a node with everything it depends on, unless that leads back to a node under way. */
    method Visit(node: string) returns (cyclic: bool)
      requires Valid() && node in graph
      requires LeadTo(graph, visiting, node)
      requires node in visiting ==> OnCycle(graph, node)
      modifies this
      ensures cyclic ==> exists a :: OnCycle(graph, a)
      ensures !cyclic ==> Valid() && visiting == old(visiting) && node in visited && old(visited) <= visited
      decreases |graph.Keys - visiting|
    {
      hide Progress, Closed, LeadTo, OnCycle;
      if node in visiting {
        return true;
      }
      if node in visited {
        return false;
      }
      Started(graph, visiting, visited, order, node);
      LeadsToItself(graph, visiting, node);
      visiting := visiting + {node};
      for i := 0 to |graph[node]|
        invariant Valid() && visiting == old(visiting) + {node} && old(visited) <= visited
        invariant forall k :: 0 <= k < i ==> graph[node][k] in visited
      {
        StepInto(graph, visiting, node, graph[node][i]);
        cyclic := Visit(graph[node][i]);
        if cyclic {
          return;
        }
      }
      Finished(graph, visiting, visited, order, node);
      visiting := visiting - {node};
      visited := visited + {node};
      order := order + [node];
      cyclic := false;
    }

    /** Visits every node; there is a cycle exactly when some visit meets one. */
    method FindCycle() returns (cyclic: bool)
      requires Valid() && visiting == {} && visited == {}
      modifies this
      ensures cyclic <==> exists a :: OnCycle(graph, a)
      ensures !cyclic ==> Valid() && visited == graph.Keys
    {
      var nodes := SortedIds(graph.Keys);
      for i := 0 to |nodes|
        invariant Valid() && visiting == {}
        invariant forall k :: 0 <= k < i ==> nodes[k] in visited
      {
        assert nodes[i] in nodes;
        cyclic := Visit(nodes[i]);
        if cyclic {
          return;
        }
      }
      assert forall a :: a in graph ==> a in nodes;
      OrderedIsAcyclic(graph, order);
      cyclic := false;
    }
  }

  lemma LeadsToItself(g: Graph, visiting: set<string>, node: string)
    requires LeadTo(g, visiting, node)
    ensures LeadTo(g, visiting + {node}, node)
  {
    ReachesSelf(g, node);
  }

  /** A dependency of a node under way can be visited next. */
  lemma StepInto(g: Graph, visiting: set<string>, node: string, dependency: string)
    requires Closed(g) && node in g && dependency in g[node] && LeadTo(g, visiting, node)
    ensures dependency in g && LeadTo(g, visiting, dependency)
    ensures dependency in visiting ==> OnCycle(g, dependency)
  {
    assert Edge(g, node, dependency);
    forall v | v in visiting ensures Reaches(g, v, dependency) { ReachStep(g, v, node, dependency); }
    if dependency in visiting { ClosesCycle(g, dependency, node); }
  }

  lemma FinishOrder(g: Graph, order: seq<string>, node: string)
    requires Topological(g, order) && node !in order
    requires forall b :: Edge(g, node, b) ==> b in order
    ensures Topological(g, order + [node])
  {
    var more := order + [node];
    forall i, b | 0 <= i < |more| && Edge(g, more[i], b) ensures b in more[..i] {
      if i < |order| {
        assert more[..i] == order[..i] && more[i] == order[i];
      } else {
        assert more[..i] == order;
      }
    }
  }

  /** An ordering of all nodes with dependencies first rules out every cycle. */
  lemma OrderedIsAcyclic(g: Graph, order: seq<string>)
    requires Topological(g, order) && forall a :: a in g ==> a in order
    ensures Acyclic(g)
  {
    forall a ensures !OnCycle(g, a) {
      if OnCycle(g, a) {
        var p :| WalkFromTo(g, p, a, a) && |p| >= 2;
        assert Edge(g, p[0], p[1]);
        TopologicalAcyclic(g, order, a);
      }
    }
  }

  // ---- Validation ----

  /** The graph the cycle check searches: hard targets listed under each node. */
  method BuildHardGraph(nodes: seq<StackNode>, edges: seq<StackEdge>) returns (g: Graph)
    requires forall e :: e in edges ==> e.fromId in Ids(nodes)
    ensures g == HardGraph(Ids(nodes), edges)
  {
    g := map id | id in Ids(nodes) :: [];
    for i := 0 to |edges|
      invariant g == HardGraph(Ids(nodes), edges[..i])
    {
      var e := edges[i];
      assert e in edges;
      HardGraphStep(Ids(nodes), edges, i);
      if e.IsHardDependency() {
        g := g[e.fromId := g[e.fromId] + [e.toId]];
      }
    }
    assert edges[..|edges|] == edges;
  }

  lemma HardGraphStep(ids: set<string>, edges: seq<StackEdge>, i: nat)
    requires i < |edges| && edges[i].fromId in ids
    ensures var g, e := HardGraph(ids, edges[..i]), edges[i];
            HardGraph(ids, edges[..i + 1]) == if e.IsHardDependency() then g[e.fromId := g[e.fromId] + [e.toId]] else g
  {
    var g, e := HardGraph(ids, edges[..i]), edges[i];
    forall id | id in ids
      ensures Targets(edges[..i + 1], id) == Targets(edges[..i], id) + if e.IsHardDependency() && e.fromId == id
        then [e.toId] else []
    {
      assert edges[..i + 1][..i] == edges[..i] && edges[..i + 1][i] == e;
    }
    var next, changed := HardGraph(ids, edges[..i + 1]), if e.IsHardDependency()
      then g[e.fromId := g[e.fromId] + [e.toId]] else g;
    assert next.Keys == ids && changed.Keys == ids;
    forall id | id in ids ensures next[id] == changed[id] {
      assert Targets(edges[..i], id) + [] == Targets(edges[..i], id);
    }
    assert next == changed;
  }

  /** A validated graph without a cycle can be ranked: the rank falls along every hard dependency. */
  method ValidateNoHardCycle(nodes: seq<StackNode>, edges: seq<StackEdge>)
    returns (cyclic: bool, ghost rank: map<string, nat>)
    requires forall e :: e in edges ==> !Dangles(nodes, e)
    ensures cyclic <==> !Acyclic(HardGraph(Ids(nodes), edges))
    ensures !cyclic ==> RankFalls(HardGraph(Ids(nodes), edges), rank)
  {
    var g := BuildHardGraph(nodes, edges);
    HardEdgesInside(nodes, edges);
    var search := new CycleSearch(g);
    cyclic := search.FindCycle();
    rank := map[];
    if !cyclic {
      rank := TopologicalGivesRank(g, search.order);
    }
  }

  lemma HardEdgesInside(nodes: seq<StackNode>, edges: seq<StackEdge>)
    requires forall e :: e in edges ==> !Dangles(nodes, e)
    ensures Closed(HardGraph(Ids(nodes), edges))
  {
    var g := HardGraph(Ids(nodes), edges);
    forall a, b | Edge(g, a, b) ensures b in g {
      TargetsExact(edges, a, b);
      var e :| e in edges && e.IsHardDependency() && e.fromId == a && e.toId == b;
      assert !Dangles(nodes, e);
    }
  }

  /** Everything but the absence of cycles. */
  ghost predicate WellLinked(nodes: seq<StackNode>, edges: seq<StackEdge>) {
    && Distinct(Map(nodes, NodeId))
    && Distinct(Map(nodes, Alias))
    && Distinct(Map(edges, EdgeId))
    && (forall e :: e in edges ==> !Dangles(nodes, e) && !FulfilsIdly(nodes, e))
  }

  /** Unique identifiers and aliases, and no dangling edge. */
  ghost predicate Linked(nodes: seq<StackNode>, edges: seq<StackEdge>) {
    && Distinct(Map(nodes, NodeId)) && Distinct(Map(nodes, Alias)) && Distinct(Map(edges, EdgeId))
    && forall e :: e in edges ==> !Dangles(nodes, e)
  }

  /** Some edge lets an idle product instance fulfil a job. */
  ghost predicate AnyIdle(nodes: seq<StackNode>, edges: seq<StackEdge>) {
    exists e :: e in edges && FulfilsIdly(nodes, e)
  }

  lemma LinkedCheck(nodes: seq<StackNode>, edges: seq<StackEdge>)
    requires Linked(nodes, edges)
    ensures WellLinked(nodes, edges) <==> !AnyIdle(nodes, edges)
    ensures GraphValid(nodes, edges) <==> !AnyIdle(nodes, edges) && Acyclic(HardGraph(Ids(nodes), edges))
  {
    if WellLinked(nodes, edges) {
      forall e | e in edges ensures !FulfilsIdly(nodes, e) {}
    }
  }

  /** Reports the first thing wrong with a graph, and nothing exactly when the graph is valid. */
  method ValidateGraph(nodes: seq<StackNode>, edges: seq<StackEdge>) returns (error: Option<GraphError>)
    ensures error.None? <==> GraphValid(nodes, edges)
    ensures error == Some(DuplicateNodeId) <==> !Distinct(Map(nodes, NodeId))
    ensures error == Some(HardCycle) <==> WellLinked(nodes, edges) && !Acyclic(HardGraph(Ids(nodes), edges))
    ensures error == Some(DuplicateAlias) ==> !Distinct(Map(nodes, Alias))
    ensures error == Some(DuplicateEdgeId) ==> !Distinct(Map(edges, EdgeId))
    ensures error == Some(DanglingEdge) ==> exists e :: e in edges && Dangles(nodes, e)
    ensures error == Some(InactiveFulfils) ==> AnyIdle(nodes, edges)
    ensures Linked(nodes, edges) && error.Some? ==> error.value == HardCycle || error.value == InactiveFulfils
  {
    if !Distinct(Map(nodes, NodeId)) {
      return Some(DuplicateNodeId);
    }
    if !Distinct(Map(nodes, Alias)) {
      return Some(DuplicateAlias);
    }
    if !Distinct(Map(edges, EdgeId)) {
      return Some(DuplicateEdgeId);
    }
    for i := 0 to |edges|
      invariant forall k :: 0 <= k < i ==> !Dangles(nodes, edges[k]) && !FulfilsIdly(nodes, edges[k])
    {
      assert edges[i] in edges;
      if Dangles(nodes, edges[i]) {
        return Some(DanglingEdge);
      }
      if FulfilsIdly(nodes, edges[i]) {
        return Some(InactiveFulfils);
      }
    }
    var cyclic, _ := ValidateNoHardCycle(nodes, edges);
    if cyclic {
      return Some(HardCycle);
    }
    return None;
  }
}
