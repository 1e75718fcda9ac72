/** Which plan an evaluation selects, and what its frontiers mean. */
module RankGuarantees {
  import opened Outcomes
  import opened Ordering
  import opened Domain
  import opened Bounds
  import opened Stability
  import opened GraphModels
  import opened Evidence
  import opened Gates
  import opened Dimensions
  import opened Materials
  import opened Engine
  import opened Guarantees

  // ---- Bounds of every plan are well formed ----

  lemma {:induction false} OfferMapValues(host: Host, aliases: map<string, string>, offers: seq<OfferCost>)
    ensures forall k :: k in OfferMap(host, aliases, offers) ==> OfferMap(host, aliases, offers)[k] in offers
  {
    if offers != [] {
      OfferMapValues(host, aliases, offers[..|offers| - 1]);
      assert offers == offers[..|offers| - 1] + [offers[|offers| - 1]];
    }
  }

  predicate OrderedCosts(costs: seq<OfferCost>) {
    forall c :: c in costs ==> OrderedCost(c)
  }

  lemma {:induction false} PresentOrdered(offers: map<string, OfferCost>, records: seq<RawCandidate>)
    requires forall k :: k in offers ==> OrderedCost(offers[k])
    ensures OrderedCosts(Present(offers, records))
  {
    if records != [] { PresentOrdered(offers, records[1..]); }
  }

  lemma {:induction false} AmountsOrdered(costs: seq<OfferCost>)
    requires OrderedCosts(costs)
    requires forall c :: c in costs ==> c.low.Some? && c.base.Some? && c.high.Some?
    ensures Amounts(costs, LowOf) <= Amounts(costs, BaseOf) <= Amounts(costs, HighOf)
  {
    if costs != [] {
      assert costs[0] in costs && forall c :: c in costs[1..] ==> c in costs;
      AmountsOrdered(costs[1..]);
    }
  }

  /** Bundling keeps stated totals ordered. */
  lemma BundleOrdered(host: Host, costs: seq<OfferCost>, expected: nat)
    requires OrderedCosts(costs)
    ensures OrderedCost(Bundle(host, costs, expected))
  {
    var b := Bundle(host, costs, expected);
    if b.low.Some? && b.base.Some? && b.high.Some? {
      forall c | c in costs ensures c.low.Some? && c.base.Some? && c.high.Some? {
        assert LowOf(c).Some? && BaseOf(c).Some? && HighOf(c).Some?;
      }
      AmountsOrdered(costs);
    }
  }

  lemma CombinedOrdered(host: Host, records: seq<RawCandidate>, offers: map<string, OfferCost>)
    requires forall k :: k in offers ==> OrderedCost(offers[k])
    ensures OrderedCost(CombinedCost(host, records, offers).0)
  {
    var costs := Present(offers, records);
    PresentOrdered(offers, records);
    BundleOrdered(host, costs, |records|);
    if |costs| == 1 { assert costs[0] in costs; }
  }

  /** The frozen offers and current-stack costs are ordered, as their source guarantees. */
  predicate OrderedInputs(context: DecisionContext) {
    OrderedCosts(context.offers) && forall a :: a in context.currentActions ==> OrderedCost(a.cost)
  }

  lemma PackCost(host: Host, context: DecisionContext, representatives: seq<RawCandidate>, m: PlanMaterial)
    requires OrderedInputs(context)
    requires PackMaterials(host, context, representatives).Ok?
             && m in PackMaterials(host, context, representatives).value
    ensures OrderedCost(m.cost)
  {
    PackMaterialsFrom(host, context, representatives);
    var roots := Relabelled(host, context, representatives);
    var packs := PackMaterials(host, context, representatives).value;
    var i :| 0 <= i < |packs| && packs[i] == m;
    RootCost(host, context, CatalogOf(roots), roots[i], m);
  }

  lemma RootCost(host: Host, context: DecisionContext, catalog: Closure.Catalog, root: RawCandidate, m: PlanMaterial)
    requires OrderedInputs(context) && Closure.WellFiled(catalog)
    requires PackMaterial(host, context, OfferMap(host, context.aliases, context.offers), catalog, root) == Ok(m)
    ensures OrderedCost(m.cost)
  {
    var offers := OfferMap(host, context.aliases, context.offers);
    OfferMapValues(host, context.aliases, context.offers);
    PackMaterialCost(host, context, offers, catalog, root);
    CombinedOrdered(host, Closure.ClosureOf(catalog, root).0, offers);
  }

  lemma MaterialCost(host: Host, context: DecisionContext, representatives: seq<RawCandidate>, m: PlanMaterial)
    requires OrderedInputs(context)
    requires AllMaterials(host, context, representatives).Ok? && m in AllMaterials(host, context, representatives).value
    ensures OrderedCost(m.cost)
  {
    MaterialSources(host, context, representatives, m);
    if m in PackMaterials(host, context, representatives).value {
      PackCost(host, context, representatives, m);
    } else {
      var current := Map(context.currentActions, CurrentMaterial);
      var i :| 0 <= i < |current| && current[i] == m;
    }
  }

  lemma AssessmentAges(host: Host, context: DecisionContext, representatives: seq<RawCandidate>)
    requires AssessEvidence(host, context, representatives).Ok?
    ensures SoundAges(AssessEvidence(host, context, representatives).value)
  {
    var pairs := SortedTuples(MaterialPairs(context, representatives));
    var assessor := Assessor(host, context);
    TraversePointwise(pairs, assessor);
    var assessments := Traverse(pairs, assessor).value;
    forall a | a in assessments && a.ageBounds.Some? ensures 0.0 <= a.ageBounds.value.low <= a.ageBounds.value.high {
      var i :| 0 <= i < |assessments| && assessments[i] == a;
      assert assessor(pairs[i]) == Ok(a);
      PairAge(host, context, pairs[i][0], pairs[i][1]);
    }
  }

  lemma PairAge(host: Host, context: DecisionContext, evidenceId: string, field: string)
    ensures var a := AssessPair(host, context, evidenceId, field);
            a.Ok? && a.value.ageBounds.Some? ==> 0.0 <= a.value.ageBounds.value.low <= a.value.ageBounds.value.high
  {
    var policy := Find(context.evidencePolicies, (p: EvidencePolicy) => p.field == field);
    var record := Find(context.evidence, (r: EvidenceRecord) => r.evidenceId == evidenceId);
    if policy.Some? && record.Some? && record.value.observed.Some? {
      var t := record.value.observed.value;
      if EvidenceAge(context.evaluatedAt, t.lower, t.upper, policy.value.freshnessSlaSeconds).Ok? {
        EvidenceAgeInRange(context.evaluatedAt, t.lower, t.upper, policy.value.freshnessSlaSeconds);
      }
    }
  }

  /** In every evaluation every plan's bounds are well formed. */
  lemma PlansWellFormed(host: Host, input: DecisionInput, e: Evaluation, p: EvaluatedPlan)
    requires ValidContext(input.context) && OrderedInputs(input.context)
    requires EvaluateOnce(host, input) == Ok(e) && p in e.plans
    ensures WellFormed(p.dimensions) && p.stableActionIds != []
  {
    hide EvaluateOnce, AllMaterials, BuildPlan, WellFormed;
    EvaluationStages(host, input, e);
    PlansHaveMaterials(host, input, e);
    var m :| BuiltFrom(host, input.context, e, p, m);
    PlanWellFormed(host, input.context, e.recall.representatives, e.assessments, m);
  }

  lemma PlanWellFormed(host: Host, context: DecisionContext, representatives: seq<RawCandidate>,
      assessments: seq<EvidenceAssessment>, m: PlanMaterial)
    requires ValidContext(context) && OrderedInputs(context)
    requires AssessEvidence(host, context, representatives) == Ok(assessments)
    requires AllMaterials(host, context, representatives).Ok? && m in AllMaterials(host, context, representatives).value
    requires BuildPlan(host, context, assessments, m).Ok?
    ensures WellFormed(BuildPlan(host, context, assessments, m).value.dimensions)
    ensures BuildPlan(host, context, assessments, m).value.stableActionIds != []
  {
    AssessmentAges(host, context, representatives);
    MaterialCost(host, context, representatives, m);
    DimensionsWellFormed(host, context, m, assessments);
    PlanDimensionsOf(host, context, assessments, m);
  }

  lemma PlanDimensionsOf(host: Host, context: DecisionContext, assessments: seq<EvidenceAssessment>, m: PlanMaterial)
    requires BuildPlan(host, context, assessments, m).Ok?
    ensures DimensionsOf(host, context, m, assessments) == Ok(BuildPlan(host, context, assessments, m).value.dimensions)
    ensures BuildPlan(host, context, assessments, m).value.stableActionIds != []
  {
  }

  // ---- Ranking ----

  ghost predicate AllWellFormed(plans: seq<EvaluatedPlan>) {
    forall p :: p in plans ==> WellFormed(p.dimensions) && p.stableActionIds != []
  }

  /** The plan whose horizon an identifier stands for. */
  lemma {:induction false} HorizonFrom(plans: seq<EvaluatedPlan>, id: string) returns (p: EvaluatedPlan)
    requires id in HorizonByPlan(plans)
    ensures p in plans && p.status.IsEligible() && p.planId == id
            && p.dimensions.totalCost.horizonDays == HorizonByPlan(plans)[id]
  {
    var before, last := plans[..|plans| - 1], plans[|plans| - 1];
    assert plans == before + [last];
    if last.status.IsEligible() && last.planId == id {
      p := last;
    } else {
      p := HorizonFrom(before, id);
    }
  }

  /** Well-formed plans always turn into bounded plans, so ranking can only fail on incomparable costs. */
  lemma RankTotal(plans: seq<EvaluatedPlan>)
    requires AllWellFormed(plans)
    ensures Rank(plans).Raise? <==> |CostSignatures(plans)| > 1
    ensures Rank(plans).Raise? ==> Rank(plans).error == IncomparableCosts
  {
    var eligible := Filter(plans, HasEligibleStatus);
    TraversePointwise(eligible, Bounder);
    forall i | 0 <= i < |eligible| ensures Bounder(eligible[i]).Ok? {
      assert eligible[i] in eligible && WellFormed(eligible[i].dimensions);
    }
  }

  /** p can be ranked: eligible, with bounds. */
  predicate Rankable(p: EvaluatedPlan) {
    p.status.IsEligible() && p.dimensions.OrderingBounds().Some?
  }

  function AsBounded(p: EvaluatedPlan, resolved: bool): BoundedPlan {
    BoundedPlan(p.planId, if resolved then Eligible
      else p.status, p.stableActionIds, p.dimensions.OrderingBounds(), p.dimensions.boundUnavailableReasons)
  }

  lemma BoundedAre(plans: seq<EvaluatedPlan>, bounded: seq<BoundedPlan>)
    requires Traverse(Filter(plans, HasEligibleStatus), Bounder) == Ok(bounded)
    ensures forall b :: b in bounded <==> exists p :: p in plans && p.status.IsEligible() && b == AsBounded(p, false)
  {
    var eligible := Filter(plans, HasEligibleStatus);
    TraversePointwise(eligible, Bounder);
    forall b | b in bounded ensures exists p :: p in plans && p.status.IsEligible() && b == AsBounded(p, false) {
      var i :| 0 <= i < |bounded| && bounded[i] == b;
      assert eligible[i] in eligible && Bounder(eligible[i]) == Ok(b);
    }
    forall p | p in plans && p.status.IsEligible() ensures AsBounded(p, false) in bounded {
      assert p in eligible;
      var i :| 0 <= i < |eligible| && eligible[i] == p;
      assert Bounder(eligible[i]) == Ok(bounded[i]);
    }
  }

  lemma RankOrder()
    ensures WeakOrder(RanksBefore)
  {
    KeyOrder();
    forall x, y, z | !RanksBefore(y, x) && !RanksBefore(z, y) ensures !RanksBefore(z, x) {
      var a, b, c := RankKey(x), RankKey(y), RankKey(z);
      assert KeyLess(a, b) || a == b;
      assert KeyLess(b, c) || b == c;
    }
  }

  /** What ranking did on the way to its result. */
  lemma RankParts(plans: seq<EvaluatedPlan>) returns (bounded: seq<BoundedPlan>, ranked: seq<BoundedPlan>)
    requires Rank(plans).Ok?
    ensures Traverse(Filter(plans, HasEligibleStatus), Bounder) == Ok(bounded)
    ensures ranked == Sort(Filter(bounded, HasBounds), RanksBefore)
    ensures Rank(plans).value.rankedPlanIds == PlanIds(ranked)
    ensures ranked == [] <==> Rank(plans).value.selected == None
    ensures ranked != [] ==> Rank(plans).value.selected == Some(ranked[0])
    ensures ranked != [] ==> Rank(plans).value.resolutionFrontier == ResolutionFrontier(plans, ranked[0])
    ensures ranked != [] ==>
              var result := AssessRankStability(ranked[0], Filter(bounded, OtherThan(ranked[0])));
              && Rank(plans).value.stability == result.status
              && Rank(plans).value.orderingFrontier == {ranked[0].planId} + set id | id in result.orderingFrontier
  {
    bounded := Traverse(Filter(plans, HasEligibleStatus), Bounder).value;
    ranked := Sort(Filter(bounded, HasBounds), RanksBefore);
  }

  /**
   * A plan is selected exactly when some eligible plan has bounds; it is then such a plan, and no
   * other such plan ranks before it.
   */
  lemma SelectionExact(plans: seq<EvaluatedPlan>)
    requires Rank(plans).Ok?
    ensures Rank(plans).value.selected.Some? <==> exists p :: p in plans && Rankable(p)
    ensures Rank(plans).value.selected.Some? ==>
              && (exists p :: p in plans && Rankable(p) && Rank(plans).value.selected.value == AsBounded(p, false))
              && (forall q ::
                   q in plans && Rankable(q) ==> !RanksBefore(AsBounded(q, false), Rank(plans).value.selected.value))
              && |Rank(plans).value.rankedPlanIds| > 0
                 && Rank(plans).value.rankedPlanIds[0] == Rank(plans).value.selected.value.planId
    ensures Rank(plans).value.selected.None? ==> Rank(plans).value.rankedPlanIds == []
  {
    hide Rank, AssessRankStability, RanksBefore, Traverse, Sort, ResolutionFrontier, WellFormed;
    var bounded, ranked := RankParts(plans);
    BoundedAre(plans, bounded);
    var candidates := Filter(bounded, HasBounds);
    SortPermutes(candidates, RanksBefore);
    RankOrder();
    SortSorts(candidates, RanksBefore);
    forall q | q in plans && Rankable(q) ensures AsBounded(q, false) in ranked {
      assert AsBounded(q, false) in bounded;
    }
    if ranked != [] {
      assert ranked[0] in candidates && ranked[0] in bounded;
      forall q | q in plans && Rankable(q) ensures !RanksBefore(AsBounded(q, false), ranked[0]) {
        var j :| 0 <= j < |ranked| && ranked[j] == AsBounded(q, false);
        KeyOrder();
      }
    }
  }

  /**
   * The resolution frontier holds exactly the pending plans that, once resolved, could precede the
   * selected plan for some way their dimensions turn out.
   */
  lemma ResolutionFrontierExact(plans: seq<EvaluatedPlan>, id: string)
    requires AllWellFormed(plans)
    requires Rank(plans).Ok? && Rank(plans).value.selected.Some?
    ensures Rank(plans).value.selected.value.bounds.Some?
    ensures id in Rank(plans).value.resolutionFrontier
            <==> exists p ::
                 p in plans && IsResolvable(p) && p.planId == id
                   && MayPrecede(AsBounded(p, true), Rank(plans).value.selected.value)
  {
    SelectionExact(plans);
    var bounded, ranked := RankParts(plans);
    var selected := ranked[0];
    var s :| s in plans && Rankable(s) && selected == AsBounded(s, false);
    forall p | p in plans && IsResolvable(p)
      ensures BoundedPlanOf(p, true) == Ok(AsBounded(p, true))
      ensures Threatens(AsBounded(p, true), selected) <==> MayPrecede(AsBounded(p, true), selected)
    {
      ThreatMeansMayPrecede(AsBounded(p, true), selected);
    }
  }

  /**
   * With every eligible plan bounded, the evaluation calls its choice STABLE exactly when the selected
   * plan precedes every eligible plan with another identifier whatever the dimensions turn out to be.
   */
  lemma StableSelectionExact(plans: seq<EvaluatedPlan>)
    requires AllWellFormed(plans)
    requires Rank(plans).Ok? && Rank(plans).value.selected.Some?
    requires forall p :: p in plans && p.status.IsEligible() ==> p.dimensions.OrderingBounds().Some?
    ensures var selected := Rank(plans).value.selected.value;
            && selected.bounds.Some?
            && (Rank(plans).value.stability == Stable
                <==> forall p ::
                     p in plans && Rankable(p) && p.planId != selected.planId ==>
                       AlwaysBefore(selected, AsBounded(p, false)))
  {
    SelectionExact(plans);
    var bounded, ranked := RankParts(plans);
    BoundedAre(plans, bounded);
    var selected := ranked[0];
    var competitors := Filter(bounded, OtherThan(selected));
    var s :| s in plans && Rankable(s) && selected == AsBounded(s, false);
    CompetitorsStable(plans, bounded, selected);
  }

  lemma CompetitorsStable(plans: seq<EvaluatedPlan>, bounded: seq<BoundedPlan>, selected: BoundedPlan)
    requires AllWellFormed(plans)
    requires forall b :: b in bounded <==> exists p :: p in plans && p.status.IsEligible() && b == AsBounded(p, false)
    requires forall p :: p in plans && p.status.IsEligible() ==> p.dimensions.OrderingBounds().Some?
    requires selected in bounded && selected.bounds.Some?
    ensures AssessRankStability(selected, Filter(bounded, OtherThan(selected))).status == Stable
            <==> forall p ::
                 p in plans && Rankable(p) && p.planId != selected.planId ==>
                   AlwaysBefore(selected, AsBounded(p, false))
  {
    var competitors := Filter(bounded, OtherThan(selected));
    forall b | b in [selected] + competitors ensures b.bounds.Some? && b.bounds.value.Valid() {
      var p :| p in plans && p.status.IsEligible() && b == AsBounded(p, false);
    }
    StabilityExact(selected, competitors);
    forall p | p in plans && Rankable(p) && p.planId != selected.planId ensures AsBounded(p, false) in competitors {
      assert AsBounded(p, false) in bounded;
    }
  }

  /** An eligible plan the selected one is held against: one with another identifier. */
  predicate IsRival(p: EvaluatedPlan, selected: BoundedPlan) {
    p.status.IsEligible() && p.planId != selected.planId
  }

  /** Some rival without bounds. */
  ghost predicate UnboundedRival(plans: seq<EvaluatedPlan>, selected: BoundedPlan) {
    exists p :: p in plans && IsRival(p, selected) && p.dimensions.OrderingBounds().None?
  }

  /** Some rival with the identifier precedes the selected plan for some way their dimensions turn out. */
  ghost predicate RivalMayPrecede(plans: seq<EvaluatedPlan>, selected: BoundedPlan, id: string)
    requires selected.bounds.Some?
  {
    exists p :: p in plans && IsRival(p, selected) && p.planId == id && p.dimensions.OrderingBounds().Some?
                && MayPrecede(AsBounded(p, false), selected)
  }

  /** The bounded plans are those of the eligible plans. */
  ghost predicate BoundedOf(plans: seq<EvaluatedPlan>, bounded: seq<BoundedPlan>) {
    forall b :: b in bounded <==> exists p :: p in plans && p.status.IsEligible() && b == AsBounded(p, false)
  }

  lemma BoundedOfPlans(plans: seq<EvaluatedPlan>, bounded: seq<BoundedPlan>)
    requires Traverse(Filter(plans, HasEligibleStatus), Bounder) == Ok(bounded)
    ensures BoundedOf(plans, bounded)
  {
    BoundedAre(plans, bounded);
  }

  lemma CompetitorSource(plans: seq<EvaluatedPlan>, bounded: seq<BoundedPlan>, selected: BoundedPlan, b: BoundedPlan)
    returns (p: EvaluatedPlan)
    requires BoundedOf(plans, bounded) && b in Filter(bounded, OtherThan(selected))
    ensures p in plans && IsRival(p, selected) && b == AsBounded(p, false)
  {
    p :| p in plans && p.status.IsEligible() && b == AsBounded(p, false);
  }

  lemma RivalCompetes(plans: seq<EvaluatedPlan>, bounded: seq<BoundedPlan>, selected: BoundedPlan, p: EvaluatedPlan)
    requires BoundedOf(plans, bounded) && p in plans && IsRival(p, selected)
    ensures AsBounded(p, false) in Filter(bounded, OtherThan(selected))
  {
    assert AsBounded(p, false) in bounded;
  }

  lemma FrontierOf(plans: seq<EvaluatedPlan>, bounded: seq<BoundedPlan>, selected: BoundedPlan, id: string)
    requires AllWellFormed(plans) && BoundedOf(plans, bounded)
    requires selected.bounds.Some? && selected.bounds.value.Valid()
    ensures var result := AssessRankStability(selected, Filter(bounded, OtherThan(selected)));
            && (result.status == Undetermined <==> UnboundedRival(plans, selected))
            && (result.status == Undetermined ==> result.orderingFrontier == [])
            && (result.status != Undetermined ==>
                 (id in result.orderingFrontier <==> RivalMayPrecede(plans, selected, id)))
  {
    hide BoundedOf, MayPrecede, AlwaysBefore;
    var competitors := Filter(bounded, OtherThan(selected));
    forall b | b in competitors && b.bounds.Some? ensures b.bounds.value.Valid() {
      var p := CompetitorSource(plans, bounded, selected, b);
    }
    StabilityExact(selected, competitors);
    var result := AssessRankStability(selected, competitors);
    if !AllBounded([selected] + competitors) {
      var b :| b in competitors && !(b.bounds.Some? && b.bounds.value.Valid());
      var p := CompetitorSource(plans, bounded, selected, b);
      assert UnboundedRival(plans, selected);
    }
    if p :| p in plans && IsRival(p, selected) && p.dimensions.OrderingBounds().None? {
      RivalCompetes(plans, bounded, selected, p);
      assert AsBounded(p, false) in [selected] + competitors;
    }
    if b :|
        result.status != Undetermined && b in competitors && b.bounds.Some? && MayPrecede(b, selected)
          && b.planId == id {
      var p := CompetitorSource(plans, bounded, selected, b);
      assert RivalMayPrecede(plans, selected, id);
    }
    if p :|
        p in plans && IsRival(p, selected) && p.planId == id && p.dimensions.OrderingBounds().Some?
          && MayPrecede(AsBounded(p, false), selected) {
      RivalCompetes(plans, bounded, selected, p);
    }
  }

  /**
   * The answer is UNDETERMINED, with the selected plan alone on the ordering frontier, exactly when an
   * eligible plan with another identifier lacks bounds. Otherwise the frontier holds the selected plan and
   * exactly the eligible plans with other identifiers that precede it for some way the dimensions turn out.
   */
  lemma OrderingFrontierExact(plans: seq<EvaluatedPlan>, id: string)
    requires AllWellFormed(plans)
    requires Rank(plans).Ok? && Rank(plans).value.selected.Some?
    ensures var r := Rank(plans).value;
            && r.selected.value.bounds.Some?
            && (r.stability == Undetermined <==> UnboundedRival(plans, r.selected.value))
            && (r.stability == Undetermined ==> r.orderingFrontier == {r.selected.value.planId})
            && (r.stability != Undetermined ==>
                  (id in r.orderingFrontier
                   <==> id == r.selected.value.planId || RivalMayPrecede(plans, r.selected.value, id)))
  {
    hide Rank, AssessRankStability, RanksBefore, Sort, ResolutionFrontier, MayPrecede, BoundedOf, UnboundedRival,
         RivalMayPrecede, Traverse;
    SelectionExact(plans);
    var s :| s in plans && Rankable(s) && Rank(plans).value.selected.value == AsBounded(s, false);
    var bounded, ranked := RankParts(plans);
    BoundedOfPlans(plans, bounded);
    FrontierOf(plans, bounded, ranked[0], id);
  }
}
