/** Dependency closure of a product over the recalled records. */
module Closure {
  import opened Outcomes
  import opened Ordering
  import opened Digraph
  import opened GraphModels

  const CYCLIC := "CYCLIC_COMPONENT_DEPENDENCY"
  const MISSING := "MISSING_REQUIRED_COMPONENT"
  const AMBIGUOUS := "AMBIGUOUS_REQUIRED_COMPONENT"

  /** Recalled records filed by product. */
  type Catalog = map<string, seq<RawCandidate>>

  predicate WellFiled(catalog: Catalog) {
    forall p :: p in catalog ==> catalog[p] != [] && forall r :: r in catalog[p] ==> r.productId == p
  }

  /** What the depth-first search has done so far. */
  datatype Search = Search(ordered: seq<RawCandidate>, issues: set<string>, visiting: set<string>, visited: set<string>)

  function Budget(catalog: Catalog, s: Search): nat {
    |catalog.Keys - s.visiting|
  }

  lemma BudgetFalls(catalog: Catalog, s: Search, p: string)
    requires p in catalog && p !in s.visiting
    ensures Budget(catalog, s.(visiting := s.visiting + {p})) < Budget(catalog, s)
  {
    var after := catalog.Keys - (s.visiting + {p});
    assert catalog.Keys - s.visiting == after + {p} && p !in after;
  }

  function Visit(catalog: Catalog, s: Search, r: RawCandidate): (t: Search)
    requires r.productId in catalog && WellFiled(catalog)
    ensures t.visiting == s.visiting
    decreases Budget(catalog, s), 0
  {
    if r.productId in s.visiting then s.(issues := s.issues + {CYCLIC})
    else if r.productId in s.visited then s
    else
      BudgetFalls(catalog, s, r.productId);
      var inside := VisitAll(catalog, s.(visiting := s.visiting + {r.productId}), SortedIds(r.requiredProductIds));
      Finish(inside, r)
  }

  function Finish(s: Search, r: RawCandidate): Search {
    s.(visiting := s.visiting - {r.productId}, visited := s.visited + {r.productId}, ordered := s.ordered + [r])
  }

  function VisitAll(catalog: Catalog, s: Search, required: seq<string>): (t: Search)
    requires WellFiled(catalog)
    ensures t.visiting == s.visiting
    decreases Budget(catalog, s), 2 + |required|
  {
    if required == [] then s
    else VisitAll(catalog, VisitOne(catalog, s, required[0]), required[1..])
  }

  function VisitOne(catalog: Catalog, s: Search, p: string): (t: Search)
    requires WellFiled(catalog)
    ensures t.visiting == s.visiting
    decreases Budget(catalog, s), 1
  {
    if p !in catalog then s.(issues := s.issues + {MISSING})
    else if |catalog[p]| > 1 then s.(issues := s.issues + {AMBIGUOUS})
    else Visit(catalog, s, catalog[p][0])
  }

  /** The search as it finishes with the root, whose visit is the first step. */
  function SearchFrom(catalog: Catalog, root: RawCandidate): (s: Search)
    requires WellFiled(catalog)
    ensures s.ordered != []
  {
    Finish(VisitAll(catalog, Search([], {}, {root.productId}, {}), SortedIds(root.requiredProductIds)), root)
  }

  /** The records a plan for root needs, dependencies first, with the issues met on the way. */
  function ClosureOf(catalog: Catalog, root: RawCandidate): (r: (seq<RawCandidate>, set<string>))
    requires WellFiled(catalog)
    ensures r.0 != []
  {
    (SearchFrom(catalog, root).ordered, SearchFrom(catalog, root).issues)
  }

  // ---- The dependency graph of a root ----

  predicate Unique(catalog: Catalog, p: string) {
    p in catalog && |catalog[p]| == 1
  }

  /** A root among the recalled records, with the graph of requirements that name one record. */
  datatype Setting = Setting(catalog: Catalog, root: RawCandidate, graph: Graph) {
    /** The root's own product stands for the root; any other product for its only record. */
    function RecordAt(p: string): RawCandidate
      requires p in catalog && WellFiled(catalog)
    {
      if p == root.productId then root else catalog[p][0]
    }

    predicate Requires(p: string, q: string)
      requires WellFiled(catalog)
    {
      p in catalog && q in RecordAt(p).requiredProductIds
    }

    ghost predicate Valid() {
      && WellFiled(catalog) && root.productId in catalog && root in catalog[root.productId]
      && forall p, q :: Edge(graph, p, q) <==> Requires(p, q) && Unique(catalog, q)
    }

    ghost predicate Reachable(p: string) {
      p in catalog && Reaches(graph, root.productId, p)
    }

    /** Some requirement of p names no recalled record. */
    predicate LacksComponent(p: string)
      requires WellFiled(catalog)
    {
      p in catalog && exists q :: q in RecordAt(p).requiredProductIds && q !in catalog
    }

    /** Some requirement of p names several recalled records. */
    predicate HasAmbiguous(p: string)
      requires WellFiled(catalog)
    {
      p in catalog && exists q :: q in RecordAt(p).requiredProductIds && q in catalog && |catalog[q]| > 1
    }
  }

  function SettingFor(catalog: Catalog, root: RawCandidate): (c: Setting)
    requires WellFiled(catalog) && root.productId in catalog && root in catalog[root.productId]
    ensures c.Valid() && c.catalog == catalog && c.root == root
  {
    var bare := Setting(catalog, root, map[]);
    bare.(graph :=
      map p | p in catalog :: SortedIds(set q | q in bare.RecordAt(p).requiredProductIds && Unique(catalog, q)))
  }

  function ProductId(r: RawCandidate): string { r.productId }

  function Products(records: seq<RawCandidate>): seq<string> {
    Map(records, ProductId)
  }

  // ---- The invariant of the search ----

  /** Finished records are filed once each under their own products. */
  ghost predicate Tidy(c: Setting, s: Search)
    requires c.Valid()
  {
    && Distinct(Products(s.ordered))
    && (forall p :: p in s.visited <==> p in Products(s.ordered))
    && s.visiting !! s.visited
    && (forall r :: r in s.ordered ==> r.productId in c.catalog && r == c.RecordAt(r.productId))
    && (forall p :: p in s.visited || p in s.visiting ==> c.Reachable(p))
  }

  /** Everything a finished product needs is finished or under way. */
  ghost predicate Closed(c: Setting, s: Search) {
    forall p, q :: p in s.visited && Edge(c.graph, p, q) ==> q in s.visited || q in s.visiting
  }

  /** Each issue has a cause, and each cause among the finished products has its issue. */
  ghost predicate Justified(c: Setting, s: Search)
    requires c.Valid()
  {
    && (MISSING in s.issues ==> exists p :: c.Reachable(p) && c.LacksComponent(p))
    && (AMBIGUOUS in s.issues ==> exists p :: c.Reachable(p) && c.HasAmbiguous(p))
    && (CYCLIC in s.issues ==> exists p :: c.Reachable(p) && OnCycle(c.graph, p))
    && (forall p :: p in s.visited && c.LacksComponent(p) ==> MISSING in s.issues)
    && (forall p :: p in s.visited && c.HasAmbiguous(p) ==> AMBIGUOUS in s.issues)
    && s.issues <= {CYCLIC, MISSING, AMBIGUOUS}
  }

  /** Until a cycle has been met, the finished list has dependencies first. */
  ghost predicate DependenciesFirst(c: Setting, s: Search) {
    CYCLIC !in s.issues ==> Topological(c.graph, Products(s.ordered))
  }

  ghost predicate Invariant(c: Setting, s: Search) {
    c.Valid() && Tidy(c, s) && Closed(c, s) && Justified(c, s) && DependenciesFirst(c, s)
  }

  /** Nothing finished or reported is lost. */
  ghost predicate Grows(s: Search, t: Search) {
    s.visiting == t.visiting && s.visited <= t.visited && s.issues <= t.issues && s.ordered <= t.ordered
  }

  /** Every product under way leads to p. */
  ghost predicate LeadTo(c: Setting, s: Search, p: string) {
    forall v :: v in s.visiting ==> Reaches(c.graph, v, p)
  }

  /** p has been dealt with: finished, or under way and reported as a cycle. */
  ghost predicate Settled(s: Search, p: string) {
    p in s.visited || (p in s.visiting && CYCLIC in s.issues)
  }

  /** The requirements handled so far are settled, or reported as missing or ambiguous. */
  ghost predicate Handled(c: Setting, s: Search, required: seq<string>) {
    forall q :: q in required ==>
      && (q !in c.catalog ==> MISSING in s.issues)
      && (q in c.catalog && |c.catalog[q]| > 1 ==> AMBIGUOUS in s.issues)
      && (Unique(c.catalog, q) ==> Settled(s, q))
  }

  /** r is being visited: reachable, under way, and reached from everything under way. */
  ghost predicate UnderWay(c: Setting, s: Search, r: RawCandidate) {
    && Invariant(c, s)
    && c.Reachable(r.productId) && r == c.RecordAt(r.productId)
    && r.productId in s.visiting && LeadTo(c, s, r.productId)
  }

  /** Reporting an issue that has a cause keeps the invariant. */
  lemma ReportKeeps(c: Setting, s: Search, issue: string, p: string)
    requires Invariant(c, s) && c.Reachable(p)
    requires (issue == MISSING && c.LacksComponent(p))
             || (issue == AMBIGUOUS && c.HasAmbiguous(p))
             || (issue == CYCLIC && OnCycle(c.graph, p))
    ensures Invariant(c, s.(issues := s.issues + {issue}))
  {
  }

  /** So does starting on a product. */
  lemma StartKeeps(c: Setting, s: Search, p: string)
    requires Invariant(c, s) && c.Reachable(p) && p !in s.visited
    ensures Invariant(c, s.(visiting := s.visiting + {p}))
  {
  }

  lemma {:induction false} VisitKeeps(c: Setting, s: Search, r: RawCandidate)
    requires Invariant(c, s)
    requires c.Reachable(r.productId) && r == c.RecordAt(r.productId)
    requires LeadTo(c, s, r.productId)
    requires r.productId in s.visiting ==> OnCycle(c.graph, r.productId)
    ensures var t := Visit(c.catalog, s, r);
            Invariant(c, t) && Grows(s, t) && Settled(t, r.productId)
            && (r.productId !in s.visiting + s.visited ==> t.ordered != [] && t.ordered[|t.ordered| - 1] == r)
    decreases Budget(c.catalog, s), 0
  {
    var p := r.productId;
    if p in s.visiting {
      ReportKeeps(c, s, CYCLIC, p);
    } else if p !in s.visited {
      var inner := s.(visiting := s.visiting + {p});
      BudgetFalls(c.catalog, s, p);
      StartKeeps(c, s, p);
      ReachesSelf(c.graph, p);
      VisitAllKeeps(c, inner, r, SortedIds(r.requiredProductIds));
      FinishKeeps(c, VisitAll(c.catalog, inner, SortedIds(r.requiredProductIds)), r);
    }
  }

  lemma {:induction false} VisitAllKeeps(c: Setting, s: Search, r: RawCandidate, required: seq<string>)
    requires UnderWay(c, s, r)
    requires forall q :: q in required ==> q in r.requiredProductIds
    ensures var t := VisitAll(c.catalog, s, required);
            UnderWay(c, t, r) && Grows(s, t) && Handled(c, t, required)
    decreases Budget(c.catalog, s), 2 + |required|
  {
    if required != [] {
      var q := required[0];
      assert q in required;
      VisitOneKeeps(c, s, r, q);
      VisitAllKeeps(c, VisitOne(c.catalog, s, q), r, required[1..]);
      assert forall x :: x in required ==> x == q || x in required[1..];
    }
  }

  lemma {:induction false} VisitOneKeeps(c: Setting, s: Search, r: RawCandidate, q: string)
    requires UnderWay(c, s, r) && q in r.requiredProductIds
    ensures var t := VisitOne(c.catalog, s, q);
            UnderWay(c, t, r) && Grows(s, t) && Handled(c, t, [q])
    decreases Budget(c.catalog, s), 1
  {
    if q !in c.catalog {
      ReportKeeps(c, s, MISSING, r.productId);
    } else if |c.catalog[q]| > 1 {
      ReportKeeps(c, s, AMBIGUOUS, r.productId);
    } else {
      StepReady(c, s, r, q);
      VisitKeeps(c, s, c.catalog[q][0]);
    }
  }

  /** A unique requirement of a product under way can be visited. */
  lemma StepReady(c: Setting, s: Search, r: RawCandidate, q: string)
    requires UnderWay(c, s, r) && q in r.requiredProductIds && Unique(c.catalog, q)
    ensures c.catalog[q][0] == c.RecordAt(q) && c.catalog[q][0].productId == q
    ensures c.Reachable(q) && LeadTo(c, s, q)
    ensures q in s.visiting ==> OnCycle(c.graph, q)
  {
    assert c.catalog[q][0] in c.catalog[q];
    assert c.Requires(r.productId, q);
    assert Edge(c.graph, r.productId, q);
    ReachStep(c.graph, c.root.productId, r.productId, q);
    forall v | v in s.visiting ensures Reaches(c.graph, v, q) { ReachStep(c.graph, v, r.productId, q); }
    if q in s.visiting { ClosesCycle(c.graph, q, r.productId); }
  }

  /** What finishing a record relies on. */
  ghost predicate ReadyToFinish(c: Setting, s: Search, r: RawCandidate) {
    UnderWay(c, s, r) && Handled(c, s, SortedIds(r.requiredProductIds))
  }

  lemma FinishTidy(c: Setting, s: Search, r: RawCandidate)
    requires ReadyToFinish(c, s, r)
    ensures Tidy(c, Finish(s, r))
  {
    hide Closed, Justified, LeadTo, Handled, Settled, DependenciesFirst;
    assert Products(Finish(s, r).ordered) == Products(s.ordered) + [r.productId];
  }

  lemma FinishedEdge(c: Setting, s: Search, r: RawCandidate, q: string)
    requires ReadyToFinish(c, s, r) && Edge(c.graph, r.productId, q)
    ensures Settled(s, q)
  {
    assert c.Requires(r.productId, q) && q in SortedIds(r.requiredProductIds);
  }

  lemma FinishClosed(c: Setting, s: Search, r: RawCandidate)
    requires ReadyToFinish(c, s, r)
    ensures Closed(c, Finish(s, r))
  {
    var t := Finish(s, r);
    forall p, q | p in t.visited && Edge(c.graph, p, q) ensures q in t.visited || q in t.visiting {
      if p == r.productId {
        FinishedEdge(c, s, r, q);
      } else {
        assert p in s.visited;
      }
    }
  }

  lemma FinishJustified(c: Setting, s: Search, r: RawCandidate)
    requires ReadyToFinish(c, s, r)
    ensures Justified(c, Finish(s, r))
  {
    var required := SortedIds(r.requiredProductIds);
    if c.LacksComponent(r.productId) {
      var q :| q in r.requiredProductIds && q !in c.catalog;
      assert q in required;
    }
    if c.HasAmbiguous(r.productId) {
      var q :| q in r.requiredProductIds && q in c.catalog && |c.catalog[q]| > 1;
      assert q in required;
    }
  }

  lemma FinishFirst(c: Setting, s: Search, r: RawCandidate)
    requires ReadyToFinish(c, s, r)
    ensures DependenciesFirst(c, Finish(s, r))
  {
    hide Closed, Justified, LeadTo, Handled, Settled;
    var before, after := Products(s.ordered), Products(Finish(s, r).ordered);
    assert after == before + [r.productId];
    if CYCLIC !in s.issues {
      forall i, q | 0 <= i < |after| && Edge(c.graph, after[i], q) ensures q in after[..i] {
        if i < |before| {
          assert after[i] == before[i] && after[..i] == before[..i];
        } else {
          FinishedEdge(c, s, r, q);
          assert after[..i] == before;
        }
      }
    }
  }

  lemma FinishKeeps(c: Setting, s: Search, r: RawCandidate)
    requires ReadyToFinish(c, s, r)
    ensures Invariant(c, Finish(s, r))
  {
    FinishTidy(c, s, r);
    FinishClosed(c, s, r);
    FinishJustified(c, s, r);
    FinishFirst(c, s, r);
  }

  // ---- What the closure of a root is ----

  lemma BlankInvariant(c: Setting)
    requires c.Valid()
    ensures Invariant(c, Search([], {}, {}, {})) && c.Reachable(c.root.productId)
  {
    ReachesSelf(c.graph, c.root.productId);
  }

  /** The finished search, of which everything reachable is part. */
  lemma SearchDone(c: Setting) returns (done: Search)
    requires c.Valid()
    ensures done == SearchFrom(c.catalog, c.root) && Invariant(c, done)
    ensures done.ordered != [] && done.ordered[|done.ordered| - 1] == c.root
    ensures forall q :: c.Reachable(q) <==> q in done.visited
  {
    hide Tidy, Justified, DependenciesFirst, OnCycle, Topological, Setting.LacksComponent, Setting.HasAmbiguous;
    var p := c.root.productId;
    var blank := Search([], {}, {}, {});
    BlankInvariant(c);
    VisitKeeps(c, blank, c.root);
    done := Visit(c.catalog, blank, c.root);
    assert blank.(visiting := {} + {p}) == Search([], {}, {p}, {});
    forall q | c.Reachable(q) ensures q in done.visited {
      var walk :| WalkFromTo(c.graph, walk, p, q);
      ClosedContainsReachable(c.graph, done.visited, walk);
    }
    VisitedReachable(c, done);
  }

  lemma VisitedReachable(c: Setting, s: Search)
    requires Invariant(c, s)
    ensures forall q :: q in s.visited ==> c.Reachable(q)
  {
    hide Justified, DependenciesFirst, Closed;
  }

  lemma SettingClosure(c: Setting)
    requires c.Valid()
    ensures var (records, issues) := ClosureOf(c.catalog, c.root);
            && records != [] && records[|records| - 1] == c.root
            && Distinct(Products(records))
            && (forall p :: p in Products(records) <==> c.Reachable(p))
            && (forall r :: r in records ==> r.productId in c.catalog && r == c.RecordAt(r.productId))
            && (MISSING in issues <==> exists p :: c.Reachable(p) && c.LacksComponent(p))
            && (AMBIGUOUS in issues <==> exists p :: c.Reachable(p) && c.HasAmbiguous(p))
            && (CYCLIC in issues <==> exists p :: c.Reachable(p) && OnCycle(c.graph, p))
            && issues <= {CYCLIC, MISSING, AMBIGUOUS}
            && (CYCLIC !in issues ==> Topological(c.graph, Products(records)))
  {
    hide OnCycle, Topological, Setting.LacksComponent, Setting.HasAmbiguous, Setting.Reachable, Setting.RecordAt,
         Closed, SearchFrom;
    var done := SearchDone(c);
    if CYCLIC !in done.issues {
      NoCycleReached(c, Products(done.ordered));
    }
  }

  lemma NoCycleReached(c: Setting, products: seq<string>)
    requires Topological(c.graph, products) && Distinct(products) && forall q :: c.Reachable(q) ==> q in products
    ensures forall q :: c.Reachable(q) ==> !OnCycle(c.graph, q)
  {
    hide OnCycle, Topological, Setting.Reachable;
    forall q | c.Reachable(q) ensures !OnCycle(c.graph, q) {
      TopologicalAcyclic(c.graph, products, q);
    }
  }

  /**
   * For any catalog and any of its records: the search lists exactly the products reachable through
   * unique requirements, each once and under its own record, the root last. Each issue is reported
   * exactly when it has a cause, and without a cycle the list has dependencies first.
   */
  lemma ClosureExact(catalog: Catalog, root: RawCandidate)
    requires WellFiled(catalog) && root.productId in catalog && root in catalog[root.productId]
    ensures var c := SettingFor(catalog, root);
            var (records, issues) := ClosureOf(catalog, root);
            && (forall p, q :: Edge(c.graph, p, q) <==> c.Requires(p, q) && Unique(catalog, q))
            && records != [] && records[|records| - 1] == root
            && Distinct(Products(records))
            && (forall p :: p in Products(records) <==> c.Reachable(p))
            && (forall r :: r in records ==> r.productId in catalog && r == c.RecordAt(r.productId))
            && (MISSING in issues <==> exists p :: c.Reachable(p) && c.LacksComponent(p))
            && (AMBIGUOUS in issues <==> exists p :: c.Reachable(p) && c.HasAmbiguous(p))
            && (CYCLIC in issues <==> exists p :: c.Reachable(p) && OnCycle(c.graph, p))
            && issues <= {CYCLIC, MISSING, AMBIGUOUS}
            && (CYCLIC !in issues ==> Topological(c.graph, Products(records)))
  {
    hide SettingFor, ClosureOf, Setting.Reachable, Setting.LacksComponent, Setting.HasAmbiguous, Setting.RecordAt,
         OnCycle, Topological;
    SettingClosure(SettingFor(catalog, root));
  }
}
