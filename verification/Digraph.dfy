/** Walks, cycles and orderings of finite directed graphs given by successor lists. */
module Digraph {
  import opened Ordering

  type Graph = map<string, seq<string>>

  predicate Edge(g: Graph, a: string, b: string) {
    a in g && b in g[a]
  }

  /** Consecutive nodes of p are joined by edges. */
  ghost predicate Walk(g: Graph, p: seq<string>) {
    p != [] && forall i :: 0 <= i < |p| - 1 ==> Edge(g, p[i], p[i + 1])
  }

  ghost predicate WalkFromTo(g: Graph, p: seq<string>, a: string, b: string) {
    Walk(g, p) && p[0] == a && p[|p| - 1] == b
  }

  /** b can be reached from a, in zero or more steps. */
  ghost predicate Reaches(g: Graph, a: string, b: string) {
    exists p :: WalkFromTo(g, p, a, b)
  }

  /** a can be reached from itself in one or more steps. */
  ghost predicate OnCycle(g: Graph, a: string) {
    exists p :: WalkFromTo(g, p, a, a) && |p| >= 2
  }

  lemma ReachesSelf(g: Graph, a: string)
    ensures Reaches(g, a, a)
  {
    assert WalkFromTo(g, [a], a, a);
  }

  lemma ReachStep(g: Graph, a: string, b: string, c: string)
    requires Reaches(g, a, b) && Edge(g, b, c)
    ensures Reaches(g, a, c)
  {
    var p :| WalkFromTo(g, p, a, b);
    assert WalkFromTo(g, p + [c], a, c);
  }

  /** An edge back to where a walk began closes a cycle. */
  lemma ClosesCycle(g: Graph, a: string, b: string)
    requires Reaches(g, a, b) && Edge(g, b, a)
    ensures OnCycle(g, a)
  {
    var p :| WalkFromTo(g, p, a, b);
    assert WalkFromTo(g, p + [a], a, a);
  }

  /** Every node of the order has all its successors strictly before it. */
  ghost predicate Topological(g: Graph, order: seq<string>) {
    && Distinct(order)
    && forall i, b :: 0 <= i < |order| && Edge(g, order[i], b) ==> b in order[..i]
  }

  /** Along a walk the position in a topological order strictly falls. */
  lemma {:induction false} WalkDescends(g: Graph, order: seq<string>, p: seq<string>, i: nat)
    requires Topological(g, order) && Walk(g, p)
    requires i < |order| && p[0] == order[i]
    ensures exists j :: 0 <= j <= i - (|p| - 1) && order[j] == p[|p| - 1]
  {
    if |p| > 1 {
      assert Edge(g, p[0], p[1]);
      var k :| 0 <= k < i && order[..i][k] == p[1];
      assert Walk(g, p[1..]) by {
        forall m | 0 <= m < |p[1..]| - 1 ensures Edge(g, p[1..][m], p[1..][m + 1]) {
          assert Edge(g, p[m + 1], p[m + 1 + 1]);
        }
      }
      WalkDescends(g, order, p[1..], k);
    }
  }

  /** No listed node is on a cycle. */
  lemma TopologicalAcyclic(g: Graph, order: seq<string>, a: string)
    requires Topological(g, order) && a in order
    ensures !OnCycle(g, a)
  {
    if OnCycle(g, a) {
      var p :| WalkFromTo(g, p, a, a) && |p| >= 2;
      var i :| 0 <= i < |order| && order[i] == a;
      WalkDescends(g, order, p, i);
    }
  }

  /** A set closed under edges contains whatever its members reach. */
  lemma {:induction false} ClosedContainsReachable(g: Graph, closed: set<string>, p: seq<string>)
    requires Walk(g, p) && p[0] in closed
    requires forall a, b :: a in closed && Edge(g, a, b) ==> b in closed
    ensures p[|p| - 1] in closed
  {
    if |p| > 1 {
      assert Edge(g, p[0], p[1]);
      assert Walk(g, p[1..]) by {
        forall m | 0 <= m < |p[1..]| - 1 ensures Edge(g, p[1..][m], p[1..][m + 1]) {
          assert Edge(g, p[m + 1], p[m + 1 + 1]);
        }
      }
      ClosedContainsReachable(g, closed, p[1..]);
    }
  }

  /** A number that strictly falls along every edge. */
  ghost predicate RankFalls(g: Graph, rank: map<string, nat>) {
    forall a, b :: Edge(g, a, b) ==> a in rank && b in rank && rank[b] < rank[a]
  }

  /** An ordering of every node with edges gives such a number: the position. */
  lemma TopologicalGivesRank(g: Graph, order: seq<string>) returns (rank: map<string, nat>)
    requires Topological(g, order) && forall a :: a in g ==> a in order
    ensures RankFalls(g, rank)
  {
    rank := map a | a in order :: Position(order, a);
    forall a, b | Edge(g, a, b) ensures a in rank && b in rank && rank[b] < rank[a] {
      var i := Position(order, a);
      assert Edge(g, order[i], b);
      var k :| 0 <= k < i && order[..i][k] == b;
      assert order[k] == b && order[Position(order, b)] == b;
    }
  }

  ghost function Position(order: seq<string>, a: string): (i: nat)
    requires a in order
    ensures i < |order| && order[i] == a
  {
    var i :| 0 <= i < |order| && order[i] == a;
    i
  }
}
