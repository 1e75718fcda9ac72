/** What plans take from packs and current actions: offers, components, identifiers and order. */
module Packs {
  import opened Outcomes
  import opened Ordering
  import opened Domain
  import opened GraphModels
  import opened Aliases
  import opened Recall
  import opened Evidence
  import opened Gates
  import opened Dimensions
  import opened Pending
  import opened Closure
  import opened Materials
  import opened Bundling
  import opened Engine
  import opened Guarantees
  import opened Statuses

  // ---- Offers ----

  /** The text a chain of aliases has come to after n steps. */
  function After(aliases: map<string, string>, text: string, n: nat): string {
    if n == 0 then text
    else
      var before := After(aliases, text, n - 1);
      if before in aliases then aliases[before] else before
  }

  /** The chain has come to the text in fewer than n steps. */
  ghost predicate Met(aliases: map<string, string>, text: string, n: nat, x: string) {
    exists m: nat :: m < n && After(aliases, text, m) == x
  }

  /** It goes on after n steps: there is an alias further, and it has not been there before. */
  ghost predicate GoesOn(aliases: map<string, string>, text: string, n: nat) {
    After(aliases, text, n) in aliases && !Met(aliases, text, n, After(aliases, text, n))
  }

  /** It stops after n steps and not sooner. */
  ghost predicate StopsAfter(aliases: map<string, string>, text: string, n: nat) {
    !GoesOn(aliases, text, n) && forall k: nat :: k < n ==> GoesOn(aliases, text, k)
  }

  lemma MetNext(aliases: map<string, string>, text: string, n: nat, x: string)
    ensures Met(aliases, text, n + 1, x) <==> Met(aliases, text, n, x) || x == After(aliases, text, n)
  {
    hide After;
    if m: nat :| m < n + 1 && After(aliases, text, m) == x {
      assert m == n || Met(aliases, text, n, x);
    }
    if x == After(aliases, text, n) { assert n < n + 1; }
  }

  lemma {:induction false} QuietChain(aliases: map<string, string>, text: string, n: nat, visited: set<string>)
    returns (k: nat)
    requires visited <= aliases.Keys && forall x :: x in visited <==> Met(aliases, text, n, x)
    requires forall m: nat :: m < n ==> GoesOn(aliases, text, m)
    ensures StopsAfter(aliases, text, k)
    ensures FollowQuietly(aliases, After(aliases, text, n), visited) == After(aliases, text, k)
    decreases |aliases.Keys - visited|
  {
    hide Met;
    var current := After(aliases, text, n);
    if current !in aliases || current in visited {
      k := n;
    } else {
      SmallerSet(aliases.Keys - (visited + {current}), aliases.Keys - visited);
      assert After(aliases, text, n + 1) == aliases[current];
      forall x ensures x in visited + {current} <==> Met(aliases, text, n + 1, x) { MetNext(aliases, text, n, x); }
      k := QuietChain(aliases, text, n + 1, visited + {current});
    }
  }

  /** A pack is offered under the text at which the chain of aliases from its folded offer identifier stops. */
  lemma OfferExact(host: Host, context: DecisionContext, representatives: seq<RawCandidate>, i: nat) returns (n: nat)
    requires i < |representatives|
    ensures |Relabelled(host, context, representatives)| == |representatives|
    ensures StopsAfter(context.aliases, host.fold(representatives[i].offerId), n)
    ensures Relabelled(host, context, representatives)[i]
         == representatives[i].(offerId := After(context.aliases, host.fold(representatives[i].offerId), n))
  {
    n := QuietChain(context.aliases, host.fold(representatives[i].offerId), 0, {});
  }

  // ---- Packs ----

  /** What a pack's material takes from the records it needs. */
  ghost predicate TakenFrom(host: Host, context: DecisionContext, m: PlanMaterial, records: seq<RawCandidate>,
      closureIssues: set<string>)
  {
    var cost := CombinedCost(host, records, OfferMap(host, context.aliases, context.offers));
    && records != [] && |m.componentIds| == |records|
    && (forall i :: 0 <= i < |records| ==> m.componentIds[i] == records[i].productId)
    && (m.available <==> forall r :: r in records ==> r.available)
    && m.authority.Some?
       && (m.authority.value == SellerSealed <==> forall r :: r in records ==> r.authority == SellerSealed)
    && (forall g :: g in m.sellerGateIds <==> exists r :: r in records && g in r.sellerGateIds)
    && (forall x :: x in m.dependencyIssues <==> x in closureIssues || x in cost.2)
    && m.cost == cost.0 && m.paymentComponentCount == cost.1 && m.permittedResolution.None?
    && m.outcomeSubjectId == records[|records| - 1].productId
  }

  lemma SealedExact(records: seq<RawCandidate>)
    requires records != []
    ensures AuthorityFloor(records) == SellerSealed <==> forall r :: r in records ==> r.authority == SellerSealed
  {
    forall r | r in records && r.authority != SellerSealed ensures AuthorityFloor(records) != SellerSealed {
      assert r.authority.Rank() <= AuthorityFloor(records).Rank();
    }
  }

  /** Who published a pack, the strongest first. */
  const AUTHORITIES := [SellerSealed, PlatformCompiled, ExternalUnsealed]

  /** Packs together have the authority of the weakest among them. */
  lemma WeakestAuthority(records: seq<RawCandidate>, i: nat)
    requires records != [] && i < |AUTHORITIES|
    ensures AuthorityFloor(records) == AUTHORITIES[i]
            <==> && (exists r :: r in records && r.authority == AUTHORITIES[i])
                 && forall r, j :: r in records && i < j < |AUTHORITIES| ==> r.authority != AUTHORITIES[j]
  {
    var floor := AuthorityFloor(records);
    assert AUTHORITIES[0].Rank() == 0 && AUTHORITIES[1].Rank() == 1 && AUTHORITIES[2].Rank() == 2;
    assert forall k :: 0 <= k < |AUTHORITIES| ==> AUTHORITIES[k].Rank() == k;
    assert AUTHORITIES[floor.Rank()] == floor;
    if exists r :: r in records && r.authority == AUTHORITIES[i] {
      var r :| r in records && r.authority == floor;
      assert r.authority == AUTHORITIES[floor.Rank()];
    }
  }

  lemma PartsOf(host: Host, context: DecisionContext, root: RawCandidate, records: seq<RawCandidate>,
      issues: set<string>, m: PlanMaterial)
    requires records != [] && records[|records| - 1] == root
    requires MaterialFor(host, context, OfferMap(host, context.aliases, context.offers), root, records, issues) == Ok(m)
    ensures TakenFrom(host, context, m, records, issues)
  {
    hide OfferMap, CombinedCost, AggregateFacts, CostFacts, AuthorityFloor;
    SealedExact(records);
    var cost := CombinedCost(host, records, OfferMap(host, context.aliases, context.offers));
    assert forall x :: x in SortedIds(issues + cost.2) <==> x in issues + cost.2;
  }

  /** Each pack material is taken from the closure of one of the packs recalled. */
  lemma PackTaken(host: Host, context: DecisionContext, representatives: seq<RawCandidate>, m: PlanMaterial)
    returns (root: RawCandidate)
    requires PackMaterials(host, context, representatives).Ok?
             && m in PackMaterials(host, context, representatives).value
    ensures root in Relabelled(host, context, representatives)
    ensures var closure := ClosureOf(CatalogOf(Relabelled(host, context, representatives)), root);
            TakenFrom(host, context, m, closure.0, closure.1)
  {
    hide OfferMap, CatalogOf, ClosureOf, MaterialFor, PackMaterials, Relabelled, TakenFrom;
    PackMaterialsFrom(host, context, representatives);
    var packs, roots := PackMaterials(host, context, representatives).value, Relabelled(host, context, representatives);
    var i :| 0 <= i < |packs| && packs[i] == m;
    root := roots[i];
    var closure := ClosureOf(CatalogOf(roots), root);
    RootLast(CatalogOf(roots), root);
    PartsOf(host, context, root, closure.0, closure.1, m);
  }

  lemma RootLast(catalog: Catalog, root: RawCandidate)
    requires WellFiled(catalog)
    ensures var records := ClosureOf(catalog, root).0; records != [] && records[|records| - 1] == root
  {
  }

  /**
   * An executable plan for packs has every component available and sealed by its seller, all it needs in reach,
   * and a known offer for each.
   */
  lemma ExecutablePacks(host: Host, input: DecisionInput, e: Evaluation, p: EvaluatedPlan, m: PlanMaterial)
    returns (root: RawCandidate)
    requires SoundRules(input.context)
    requires EvaluateOnce(host, input) == Ok(e) && p in e.plans && BuiltFrom(host, input.context, e, p, m)
    requires PackMaterials(host, input.context, e.recall.representatives).Ok?
             && m in PackMaterials(host, input.context, e.recall.representatives).value
    requires p.lifecycle == Executable
    ensures var roots := Relabelled(host, input.context, e.recall.representatives);
            var closure := ClosureOf(CatalogOf(roots), root);
            && root in roots && closure.1 == {}
            && forall r :: r in closure.0 ==>
                 r.available && r.authority == SellerSealed
                 && r.offerId in OfferMap(host, input.context.aliases, input.context.offers)
  {
    hide EvaluateOnce, BuildPlan, AllMaterials, PackMaterials, OfferMap, ClosureOf, CatalogOf, EvaluateGates,
         Relabelled;
    root := PackTaken(host, input.context, e.recall.representatives, m);
    ExecutableExact(host, input.context, e.assessments, m);
    PlanGates(host, input.context, e.assessments, m);
    OwnGates(host, input.context, m, IndexOf(e.assessments));
    NoIssues(m, p.gateResults);
    var closure := ClosureOf(CatalogOf(Relabelled(host, input.context, e.recall.representatives)), root);
    AllOffered(host, input.context, m, closure.0, closure.1);
  }

  lemma NoIssues(m: PlanMaterial, gates: seq<GateResult>)
    requires AvailabilityGate(m) in gates && forall g :: g in gates ==> g.reasons == []
    requires forall g :: g in DependencyGates(m.sourceId, m.dependencyIssues, 1) ==> g in gates
    requires forall g :: g in AuthorityGates(m) ==> g in gates
    ensures m.available && m.dependencyIssues == [] && (m.authority.Some? ==> m.authority.value == SellerSealed)
  {
    hide DependencyGates;
    OwnReported(m, gates);
    NothingReported(gates);
  }

  lemma AllOffered(host: Host, context: DecisionContext, m: PlanMaterial, records: seq<RawCandidate>,
      issues: set<string>)
    requires TakenFrom(host, context, m, records, issues) && m.dependencyIssues == []
    ensures issues == {}
    ensures forall r :: r in records ==> r.offerId in OfferMap(host, context.aliases, context.offers)
  {
    hide OfferMap, CombinedCost;
    var offers := OfferMap(host, context.aliases, context.offers);
    assert forall x :: x !in issues && x !in CombinedCost(host, records, offers).2;
    MissingOffer(host, records, offers);
  }

  // ---- Current actions, and the order of plans ----

  /** An action of the current stack is judged and costed as it is recorded. */
  lemma CurrentTaken(a: CurrentAction)
    ensures var m := CurrentMaterial(a);
            && m.action == a.action && m.componentIds == [a.instanceId] && m.facts == a.facts == m.gateFacts
            && m.cost == a.cost && m.paymentComponentCount == 0 && (m.available <==> a.available)
            && m.authority.None? && m.sellerGateIds == {} && m.dependencyIssues == []
            && m.permittedResolution == a.permittedResolution
            && m.outcomeSubjectId == if a.action == Cancel then "cancelled_" + a.instanceId else a.instanceId
  {
  }

  function Lowered(c: char): char {
    if 'A' <= c <= 'Z' then (c as int + 32) as char else c
  }

  /** A plan's actions begin with the name of its action in lower case; the rest are its components in order. */
  lemma ActionsExact(host: Host, context: DecisionContext, assessments: seq<EvidenceAssessment>, m: PlanMaterial)
    requires BuildPlan(host, context, assessments, m).Ok?
    ensures var p := BuildPlan(host, context, assessments, m).value;
            && |p.stableActionIds| == |m.componentIds| + 1 && p.stableActionIds[1..] == m.componentIds
            && |p.stableActionIds[0]| == |m.action.Name()|
            && forall i :: 0 <= i < |m.action.Name()| ==> p.stableActionIds[0][i] == Lowered(m.action.Name()[i])
  {
    hide EvaluateGates, DimensionsOf, PermittedResolution, PrimaryStatus;
    LowerName(m.action);
  }

  predicate LowerCaseOf(low: string, name: string) {
    |low| == |name| && forall i :: 0 <= i < |name| ==> low[i] == Lowered(name[i])
  }

  lemma LowerName(a: SolutionAction)
    ensures LowerCaseOf(a.StableId(), a.Name())
  {
    match a
    case ReuseExisting => Reuses();
    case ConfigureExisting => Configures();
    case NoAction => assert LowerCaseOf("no_action", "NO_ACTION");
    case Buy => assert LowerCaseOf("buy", "BUY");
    case Renew => assert LowerCaseOf("renew", "RENEW");
    case Resize => assert LowerCaseOf("resize", "RESIZE");
    case Replace => assert LowerCaseOf("replace", "REPLACE");
    case Consolidate => assert LowerCaseOf("consolidate", "CONSOLIDATE");
    case Cancel => assert LowerCaseOf("cancel", "CANCEL");
  }

  lemma Reuses()
    ensures LowerCaseOf("reuse_existing", "REUSE_EXISTING")
  {
  }

  lemma Configures()
    ensures LowerCaseOf("configure_existing", "CONFIGURE_EXISTING")
  {
  }

  /** Plans come by action name, then component, then source. */
  lemma PlansInOrder(host: Host, input: DecisionInput, e: Evaluation, i: nat, j: nat)
    returns (m: PlanMaterial, n: PlanMaterial)
    requires EvaluateOnce(host, input) == Ok(e) && i < j < |e.plans|
    ensures BuiltFrom(host, input.context, e, e.plans[i], m) && BuiltFrom(host, input.context, e, e.plans[j], n)
    ensures m.action.Name() == n.action.Name() || StrLess(m.action.Name(), n.action.Name())
    ensures m.action.Name() == n.action.Name() ==>
            m.componentId == n.componentId || StrLess(m.componentId, n.componentId)
    ensures m.action.Name() == n.action.Name() && m.componentId == n.componentId ==>
              m.sourceId == n.sourceId || StrLess(m.sourceId, n.sourceId)
  {
    hide EvaluateOnce, BuildPlan, PackMaterials, IdsLess, SolutionAction.Name;
    EvaluationStages(host, input, e);
    var materials := AllMaterials(host, input.context, e.recall.representatives).value;
    BuiltPointwise(host, input.context, e.assessments, materials, e.plans);
    m, n := materials[i], materials[j];
    var all := PackMaterials(host, input.context, e.recall.representatives).value
      + Map(input.context.currentActions, CurrentMaterial);
    ByKeyOrder(MaterialKey);
    SortSorts(all, ByKey(MaterialKey));
    assert materials == SortBy(all, MaterialKey);
    assert !ByKey(MaterialKey)(n, m);
    ThreeParts(MaterialKey(n), MaterialKey(m));
  }

  lemma ThreeParts(a: seq<string>, b: seq<string>)
    requires |a| == |b| == 3 && !IdsLess(a, b)
    ensures b[0] == a[0] || StrLess(b[0], a[0])
    ensures b[0] == a[0] ==> b[1] == a[1] || StrLess(b[1], a[1])
    ensures b[0] == a[0] && b[1] == a[1] ==> b[2] == a[2] || StrLess(b[2], a[2])
  {
    StrOrder();
    var c, d := a[1..], b[1..];
    IdsStep(a, b);
    IdsStep(c, d);
    IdsStep(c[1..], d[1..]);
    assert c[1..][1..] == [] && d[1..][1..] == [];
  }

  lemma IdsStep(a: seq<string>, b: seq<string>)
    requires a != [] && b != []
    ensures IdsLess(a, b) <==> if a[0] == b[0] then IdsLess(a[1..], b[1..]) else StrLess(a[0], b[0])
    ensures !IdsLess(a, [])
  {
  }
}
