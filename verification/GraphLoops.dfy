/** Closure, gates, scores, risk, plans and ranking as the program runs them: state updated in place. */
module GraphLoops {
  import opened Outcomes
  import opened Ordering
  import opened Domain
  import opened Bounds
  import opened Stability
  import opened GraphModels
  import opened Recall
  import opened Evidence
  import opened Gates
  import opened Dimensions
  import opened Closure
  import opened Materials
  import opened Engine
  import opened RecallLoops

  // ---- Dependency closure ----

  /** The search of one root, which fills in its four collections as it goes. */
  class ClosureSearch {
    const catalog: Catalog
    var ordered: seq<RawCandidate>
    var issues: set<string>
    var visiting: set<string>
    var visited: set<string>

    ghost function State(): Search
      reads this
    {
      Search(ordered, issues, visiting, visited)
    }

    constructor (catalog: Catalog)
      requires WellFiled(catalog)
      ensures this.catalog == catalog && State() == Search([], {}, {}, {})
    {
      this.catalog := catalog;
      ordered := [];
      issues := {};
      visiting := {};
      visited := {};
    }

    method VisitRecord(r: RawCandidate)
      requires r.productId in catalog && WellFiled(catalog)
      modifies this
      ensures State() == Visit(catalog, old(State()), r)
      decreases Budget(catalog, State())
    {
      if r.productId in visiting {
        issues := issues + {CYCLIC};
        return;
      }
      if r.productId in visited {
        return;
      }
      BudgetFalls(catalog, State(), r.productId);
      visiting := visiting + {r.productId};
      ghost var inner := State();
      var required := SortedIds(r.requiredProductIds);
      assert required[0..] == required;
      for i := 0 to |required|
        invariant visiting == inner.visiting
        invariant VisitAll(catalog, inner, required) == VisitAll(catalog, State(), required[i..])
      {
        assert required[i..][1..] == required[i + 1..] && required[i..][0] == required[i];
        if required[i] !in catalog {
          issues := issues + {MISSING};
        } else if |catalog[required[i]]| > 1 {
          issues := issues + {AMBIGUOUS};
        } else {
          assert catalog[required[i]][0] in catalog[required[i]];
          VisitRecord(catalog[required[i]][0]);
        }
      }
      visiting := visiting - {r.productId};
      visited := visited + {r.productId};
      ordered := ordered + [r];
    }
  }

  /** The closure of a root by a fresh search. */
  method FindClosure(catalog: Catalog, root: RawCandidate) returns (records: seq<RawCandidate>, issues: set<string>)
    requires WellFiled(catalog) && root.productId in catalog
    ensures (records, issues) == ClosureOf(catalog, root)
  {
    var search := new ClosureSearch(catalog);
    search.VisitRecord(root);
    records, issues := search.ordered, search.issues;
    assert Search([], {}, {}, {}).(visiting := {} + {root.productId}) == Search([], {}, {root.productId}, {});
  }

  // ---- One gate ----

  /** Truth values and reasons, gathered predicate by predicate. */
  method CollectTallies(host: Host, gate: GateRule, m: PlanMaterial, buyer: map<string, FactValue>,
      index: AssessmentIndex)
    returns (r: Result<Tally, Error>)
    ensures r == Collected(host, gate, m, buyer, index)
  {
    hide PredicateTally, SellerEvidenceTally;
    var start := SellerEvidenceTally(gate, index);
    var states, reasons := start.states, start.reasons;
    ghost var done: seq<Tally> := [];
    var tallier := Tallier(host, gate, m, buyer, index);
    LoopStarts(gate.predicates, tallier);
    PlusAssociates(start, start, start);
    for i := 0 to |gate.predicates|
      invariant Traverse(gate.predicates, tallier) == After(done, Traverse(gate.predicates[i..], tallier))
      invariant Tally(states, reasons) == start.Plus(SumTallies(done))
    {
      LoopStep(gate.predicates, i, tallier, done);
      var tally := tallier(gate.predicates[i]);
      if tally.Raise? {
        return Raise(tally.error);
      }
      SumSnoc(done, tally.value);
      PlusAssociates(start, SumTallies(done), tally.value);
      states, reasons := states + tally.value.states, reasons + tally.value.reasons;
      done := done + [tally.value];
    }
    LoopEnds(gate.predicates, tallier, done);
    r := Ok(Tally(states, reasons));
  }

  lemma PlusAssociates(a: Tally, b: Tally, c: Tally)
    ensures a.Plus(b).Plus(c) == a.Plus(b.Plus(c))
    ensures Tally({}, []).Plus(a) == a && a.Plus(Tally({}, [])) == a
  {
    assert a.states + b.states + c.states == a.states + (b.states + c.states);
    assert a.reasons + b.reasons + c.reasons == a.reasons + (b.reasons + c.reasons);
  }

  lemma {:induction false} SumSnoc(ts: seq<Tally>, t: Tally)
    ensures SumTallies(ts + [t]) == SumTallies(ts).Plus(t)
  {
    hide Tally.Plus;
    PlusAssociates(t, t, t);
    if ts == [] {
      assert [t][1..] == [] && [] + [t] == [t];
    } else {
      assert (ts + [t])[1..] == ts[1..] + [t];
      SumSnoc(ts[1..], t);
      PlusAssociates(ts[0], SumTallies(ts[1..]), t);
    }
  }

  /** Evaluates the applicable gates in order, after the gates every plan has. */
  method RunGates(host: Host, context: DecisionContext, m: PlanMaterial, index: AssessmentIndex)
    returns (r: Result<seq<GateResult>, Error>)
    ensures r == EvaluateGates(host, context, m, index)
  {
    hide Collected, ApplicableGates, DependencyGates, AuthorityGates, Conclude, Report, ValueMap, ActiveFacts;
    var buyer, rules := ValueMap(ActiveFacts(context)), ApplicableGates(context, m);
    var evaluate := GateEvaluator(host, m, buyer, index);
    var results: seq<GateResult> := [];
    LoopStarts(rules, evaluate);
    for i := 0 to |rules|
      invariant Traverse(rules, evaluate) == After(results, Traverse(rules[i..], evaluate))
    {
      LoopStep(rules, i, evaluate, results);
      var collected := CollectTallies(host, rules[i], m, buyer, index);
      if collected.Raise? {
        return Raise(collected.error);
      }
      var conclusion := Conclude(rules[i], collected.value);
      results := results + [GateResult(rules[i].gateId, conclusion.0, Report(conclusion.1),
                                       Map(rules[i].predicates, (p: Predicate) => p.field),
                                         rules[i].permittedResolution)];
    }
    LoopEnds(rules, evaluate, results);
    r := Ok([AvailabilityGate(m)] + DependencyGates(m.sourceId, m.dependencyIssues, 1) + AuthorityGates(m) + results);
  }

  // ---- Scores and risk ----

  /** Scores the applicable criteria in order and gathers the reasons that leave bounds open. */
  method ScoreComponents(host: Host, context: DecisionContext, m: PlanMaterial, index: AssessmentIndex)
    returns (r: Result<seq<Scored>, Error>, reasons: set<BoundReason>)
    ensures r == Scores(host, context, m, index)
    ensures r.Ok? ==> reasons == ScoreReasons(r.value)
  {
    hide ScoreCriterion, ApplicableCriteria;
    var criteria := ApplicableCriteria(context, m);
    var scores: seq<Scored> := [];
    reasons := {};
    var scorer := Scorer(host, context, m, index);
    LoopStarts(criteria, scorer);
    for i := 0 to |criteria|
      invariant Traverse(criteria, scorer) == After(scores, Traverse(criteria[i..], scorer))
      invariant reasons == ScoreReasons(scores)
    {
      LoopStep(criteria, i, scorer, scores);
      var score := scorer(criteria[i]);
      if score.Raise? {
        return Raise(score.error), reasons;
      }
      assert forall s :: s in scores + [score.value] <==> s in scores || s == score.value;
      scores := scores + [score.value];
      reasons := reasons + score.value.reasons;
    }
    LoopEnds(criteria, scorer, scores);
    r := Ok(scores);
  }

  /** Applies the risk rules in order, gathering contributions and missing inputs. */
  method BoundRisk(host: Host, context: DecisionContext, m: PlanMaterial, index: AssessmentIndex)
    returns (r: Result<(Option<RiskBounds>, set<BoundReason>), Error>)
    ensures r == match RiskSteps(host, context, m, index)
                 case Raise(e) => Raise(e)
                 case Ok(steps) => Ok(ConcludeRisk(steps, context.riskRuleSetComplete))
  {
    hide RiskOf, AggregateRisk;
    var rules := SortBy(context.riskRules, RuleKey);
    var bounds: seq<RiskBounds>, missing: set<BoundReason> := [], {};
    ghost var done: seq<RiskStep> := [];
    var stepper := RiskStepper(host, m, index);
    LoopStarts(rules, stepper);
    for i := 0 to |rules|
      invariant Traverse(rules, stepper) == After(done, Traverse(rules[i..], stepper))
      invariant bounds == Contributions(done) && missing == MissingInputs(done)
    {
      LoopStep(rules, i, stepper, done);
      var step := stepper(rules[i]);
      if step.Raise? {
        return Raise(step.error);
      }
      OneStep(done, step.value);
      match step.value {
        case Silent =>
        case Contributes(b) => bounds := bounds + [b];
        case LacksInput(id) => missing := missing + {RiskInputMissing(id)};
      }
      done := done + [step.value];
    }
    LoopEnds(rules, stepper, done);
    if missing != {} {
      return Ok((None, missing));
    }
    if bounds == [] {
      if !context.riskRuleSetComplete {
        return Ok((None, {RiskRulesIncomplete}));
      }
      return Ok((Some(RiskBounds(Low, Low, Low)), {}));
    }
    r := Ok((Some(AggregateRisk(bounds)), {}));
  }

  lemma {:induction false} OneStep(steps: seq<RiskStep>, step: RiskStep)
    ensures Contributions(steps + [step]) == Contributions(steps) + if step.Contributes? then [step.bounds] else []
    ensures MissingInputs(steps + [step]) == MissingInputs(steps) + if step.LacksInput?
      then {RiskInputMissing(step.ruleId)} else {}
  {
    assert forall s :: s in steps + [step] <==> s in steps || s == step;
    if steps == [] {
      assert [step][1..] == [] && [] + [step] == [step];
    } else {
      assert (steps + [step])[1..] == steps[1..] + [step];
      OneStep(steps[1..], step);
    }
  }

  /** All dimensions of a material: scores, preference, risk, coverage, cost and age, in this order. */
  method RunDimensions(host: Host, context: DecisionContext, m: PlanMaterial, assessments: seq<EvidenceAssessment>)
    returns (r: Result<PlanDimensions, Error>)
    ensures r == DimensionsOf(host, context, m, assessments)
  {
    hide Scores, RiskSteps, ConcludeRisk, PreferenceOf, AggregateCoverage, ValidCost, AggregateAge, MaterialAssessments,
         ScoreReasons, ApplicableCriteria;
    var index := IndexOf(assessments);
    var scores, reasons := ScoreComponents(host, context, m, index);
    if scores.Raise? {
      return Raise(scores.error);
    }
    var preference := PreferenceOf(scores.value);
    if preference.Raise? {
      return Raise(preference.error);
    }
    var risk := BoundRisk(host, context, m, index);
    if risk.Raise? {
      return Raise(risk.error);
    }
    ScoresPair(host, context, m, index);
    var coverage := AggregateCoverage(CoverageCriteria(ApplicableCriteria(context, m), scores.value));
    if coverage.Raise? {
      return Raise(coverage.error);
    }
    var cost := ValidCost(m.cost, m.paymentComponentCount);
    if cost.Raise? {
      return Raise(cost.error);
    }
    var material := MaterialAssessments(m, scores.value, assessments);
    r := Ok(PlanDimensions(
              preference.value, risk.value.0, m.cost, coverage.value, AggregateAge(Ages(material)),
              reasons
              + (if scores.value == [] then {NoApplicablePreference} else {})
              + risk.value.1
              + TimeReason(exists x :: x in material && x.timeUnavailable)
              + (if cost.value.Some? then {cost.value.value} else {})));
  }

  lemma ScoresPair(host: Host, context: DecisionContext, m: PlanMaterial, index: AssessmentIndex)
    requires Scores(host, context, m, index).Ok?
    ensures |Scores(host, context, m, index).value| == |ApplicableCriteria(context, m)|
  {
    TraversePointwise(ApplicableCriteria(context, m), Scorer(host, context, m, index));
  }

  // ---- Materials ----

  /** Offers by canonical identifier, a later one replacing an earlier one. */
  method FillOffers(host: Host, aliases: map<string, string>, offers: seq<OfferCost>)
    returns (m: map<string, OfferCost>)
    ensures m == OfferMap(host, aliases, offers)
  {
    hide CanonicalOffer;
    m := map[];
    for i := 0 to |offers|
      invariant m == OfferMap(host, aliases, offers[..i])
    {
      assert offers[..i + 1][..i] == offers[..i];
      m := m[CanonicalOffer(host, aliases, offers[i].offerId) := offers[i]];
    }
    assert offers[..|offers|] == offers;
  }

  /** The catalog with one more record. */
  function FiledAlso(c: Catalog, r: RawCandidate): Catalog {
    c[r.productId := (if r.productId in c then c[r.productId] else []) + [r]]
  }

  lemma CatalogMore(records: seq<RawCandidate>, i: nat)
    requires i < |records|
    ensures CatalogOf(records[..i + 1]) == FiledAlso(CatalogOf(records[..i]), records[i])
  {
    assert records[..i + 1][..i] == records[..i];
  }

  /** Records filed under their products, in order. */
  method FileProducts(records: seq<RawCandidate>) returns (c: Catalog)
    ensures c == CatalogOf(records)
  {
    hide CatalogOf, FiledAlso;
    c := map[];
    assert c == CatalogOf(records[..0]) by { NothingFiled(records[..0]); }
    for i := 0 to |records|
      invariant c == CatalogOf(records[..i])
    {
      CatalogMore(records, i);
      c := FiledAlso(c, records[i]);
    }
    assert records[..|records|] == records;
  }

  lemma NothingFiled(records: seq<RawCandidate>)
    requires records == []
    ensures CatalogOf(records) == map[]
  {
  }

  /** The facts of a bundle: those on other fields as they are, then what the preferences make of each field. */
  method RunAggregation(host: Host, context: DecisionContext, records: seq<RawCandidate>)
    returns (r: Result<seq<ProductFact>, Error>)
    requires records != []
    ensures r == AggregateFacts(host, context, records)
  {
    hide BundleFields, FlatMap, AllFacts, Filter, OffFields;
    var raw := AllFacts(records);
    if |records| == 1 {
      return Ok(raw);
    }
    var keys := set c | c in context.preferences :: c.field;
    var fields := SortedIds(keys);
    var bundle := BundleFields(host, context, records);
    var kept := Filter(raw, OffFields(keys));
    var retained := kept;
    ghost var done: seq<seq<ProductFact>> := [];
    NoParts(kept);
    LoopStarts(fields, bundle);
    for i := 0 to |fields|
      invariant Traverse(fields, bundle) == After(done, Traverse(fields[i..], bundle))
      invariant retained == kept + FlatMap(done, OwnFacts)
    {
      LoopStep(fields, i, bundle, done);
      var part := bundle(fields[i]);
      if part.Raise? {
        return Raise(part.error);
      }
      OneMorePart(kept, done, part.value);
      retained := retained + part.value;
      done := done + [part.value];
    }
    LoopEnds(fields, bundle, done);
    r := Ok(retained);
  }

  lemma NoParts(kept: seq<ProductFact>)
    ensures kept + FlatMap([], OwnFacts) == kept
  {
  }

  lemma OneMorePart(kept: seq<ProductFact>, done: seq<seq<ProductFact>>, part: seq<ProductFact>)
    ensures kept + FlatMap(done + [part], OwnFacts) == kept + FlatMap(done, OwnFacts) + part
  {
    FlatMapAppend(done, [part], OwnFacts);
    assert [part][1..] == [] && FlatMap([part], OwnFacts) == part + [];
  }

  /** The material of one root: its closure, what that costs together, and the facts of the bundle. */
  method BuildMaterial(host: Host, context: DecisionContext, offers: map<string, OfferCost>, catalog: Catalog,
      root: RawCandidate)
    returns (r: Result<PlanMaterial, Error>)
    requires WellFiled(catalog) && root.productId in catalog
    ensures r == PackMaterial(host, context, offers, catalog, root)
  {
    hide CombinedCost, AggregateFacts, ClosureOf, AllFacts, CostEvidence, CostFacts;
    var records, issues := FindClosure(catalog, root);
    var (cost, payments, costIssues) := CombinedCost(host, records, offers);
    var raw := AllFacts(records);
    var evidence := CostEvidence(raw);
    var facts := RunAggregation(host, context, records);
    if facts.Raise? {
      return Raise(facts.error);
    }
    r := Ok(PlanMaterial(
              root.recordId, Replace, root.productId, Products(records),
              Filter(facts.value, NotLandedTotal) + CostFacts(host, cost, evidence, [root]),
              Filter(raw, NotLandedTotal) + CostFacts(host, cost, evidence, records),
              cost, payments,
              forall x :: x in records ==> x.available,
              Some(AuthorityFloor(records)),
              set x, g | x in records && g in x.sellerGateIds :: g,
              None, root.productId,
              SortedIds(issues + costIssues)));
  }

  /** Every plan material: root after root, then the current stack's actions, sorted. */
  method RunMaterials(host: Host, context: DecisionContext, representatives: seq<RawCandidate>)
    returns (r: Result<seq<PlanMaterial>, Error>)
    ensures r == AllMaterials(host, context, representatives)
  {
    hide PackMaterial, OfferMap, CatalogOf, Relabel, CurrentMaterial, Sort;
    var offers := FillOffers(host, context.aliases, context.offers);
    var roots := Relabelled(host, context, representatives);
    var catalog := FileProducts(roots);
    var materials: seq<PlanMaterial> := [];
    var packer := Packer(host, context, offers, catalog);
    LoopStarts(roots, packer);
    for i := 0 to |roots|
      invariant Traverse(roots, packer) == After(materials, Traverse(roots[i..], packer))
    {
      LoopStep(roots, i, packer, materials);
      assert roots[i] in roots;
      var material := BuildMaterial(host, context, offers, catalog, roots[i]);
      if material.Raise? {
        return Raise(material.error);
      }
      materials := materials + [material.value];
    }
    LoopEnds(roots, packer, materials);
    r := Ok(SortBy(materials + Map(context.currentActions, CurrentMaterial), MaterialKey));
  }

  // ---- Plans and ranking ----

  /** One plan: its gates first, then its dimensions. */
  method RunPlan(host: Host, context: DecisionContext, assessments: seq<EvidenceAssessment>, m: PlanMaterial)
    returns (r: Result<EvaluatedPlan, Error>)
    ensures r == BuildPlan(host, context, assessments, m)
  {
    hide EvaluateGates, DimensionsOf, PrimaryStatus, PermittedResolution, LifecycleOf;
    var gates := RunGates(host, context, m, IndexOf(assessments));
    if gates.Raise? {
      return Raise(gates.error);
    }
    var (status, primary) := PrimaryStatus(gates.value);
    var dimensions := RunDimensions(host, context, m, assessments);
    if dimensions.Raise? {
      return Raise(dimensions.error);
    }
    var resolution := PermittedResolution(gates.value, m);
    r := Ok(EvaluatedPlan(
              host.planId(m.action, m.componentIds), m.action, m.componentIds,
              LifecycleOf(status, dimensions.value.OrderingBounds().Some?, resolution),
              status, primary, gates.value, dimensions.value,
              [m.action.StableId()] + m.componentIds, resolution));
  }

  /** Builds the plans one material after another. */
  method BuildPlans(host: Host, context: DecisionContext, representatives: seq<RawCandidate>,
      assessments: seq<EvidenceAssessment>)
    returns (r: Result<seq<EvaluatedPlan>, Error>)
    ensures r == BuildSolutionPlans(host, context, representatives, assessments)
  {
    hide BuildPlan, AllMaterials;
    var materials := RunMaterials(host, context, representatives);
    if materials.Raise? {
      return Raise(materials.error);
    }
    var plans: seq<EvaluatedPlan> := [];
    var builder := PlanBuilder(host, context, assessments);
    LoopStarts(materials.value, builder);
    for i := 0 to |materials.value|
      invariant Traverse(materials.value, builder) == After(plans, Traverse(materials.value[i..], builder))
    {
      LoopStep(materials.value, i, builder, plans);
      var plan := RunPlan(host, context, assessments, materials.value[i]);
      if plan.Raise? {
        return Raise(plan.error);
      }
      plans := plans + [plan.value];
    }
    LoopEnds(materials.value, builder, plans);
    r := Ok(plans);
  }

  /** Gathers the pending plans that would threaten the selected one if their resolution came through. */
  method CollectResolutionFrontier(plans: seq<EvaluatedPlan>, selected: BoundedPlan) returns (frontier: set<string>)
    ensures frontier == ResolutionFrontier(plans, selected)
  {
    frontier := {};
    for i := 0 to |plans|
      invariant frontier == ResolutionFrontier(plans[..i], selected)
    {
      hide Threatens, BoundedPlanOf, IsResolvable;
      assert plans[..i + 1] == plans[..i] + [plans[i]];
      if IsResolvable(plans[i]) {
        var hypothetical := BoundedPlanOf(plans[i], true);
        if hypothetical.Ok? && Threatens(hypothetical.value, selected) {
          frontier := frontier + {plans[i].planId};
        }
      }
    }
    assert plans[..|plans|] == plans;
  }

  /** Ranks the eligible plans and gathers both frontiers. */
  method RankPlans(plans: seq<EvaluatedPlan>) returns (r: Result<Ranking, Error>)
    ensures r == Rank(plans)
  {
    hide AssessRankStability, ResolutionFrontier, Sort, SortBy, CostSignatures;
    var eligible := Filter(plans, HasEligibleStatus);
    var bounded: seq<BoundedPlan> := [];
    LoopStarts(eligible, Bounder);
    for i := 0 to |eligible|
      invariant Traverse(eligible, Bounder) == After(bounded, Traverse(eligible[i..], Bounder))
    {
      LoopStep(eligible, i, Bounder, bounded);
      var plan := Bounder(eligible[i]);
      if plan.Raise? {
        return Raise(plan.error);
      }
      bounded := bounded + [plan.value];
    }
    LoopEnds(eligible, Bounder, bounded);
    if |CostSignatures(plans)| > 1 {
      return Raise(IncomparableCosts);
    }
    var ranked := Sort(Filter(bounded, HasBounds), RanksBefore);
    if ranked == [] {
      return Ok(Ranking([], None, Undetermined, {}, SortBy(PlanIds(bounded), Identity), {}));
    }
    var stability := AssessRankStability(ranked[0], Filter(bounded, OtherThan(ranked[0])));
    var frontier := CollectResolutionFrontier(plans, ranked[0]);
    r := Ok(Ranking(PlanIds(ranked), Some(ranked[0]), stability.status,
                    {ranked[0].planId} + (set id | id in stability.orderingFrontier), stability.boundUnavailable,
                      frontier));
  }

  // ---- One evaluation ----

  /** Recall, assessment, plans and ranking, one stage after the other. */
  method RunEvaluation(host: Host, input: DecisionInput) returns (r: Result<Evaluation, Error>)
    ensures r == EvaluateOnce(host, input)
  {
    hide RecallAndDeduplicate, AssessEvidence, BuildSolutionPlans, Rank;
    if !input.UniqueIdentifiers() {
      return Raise(DuplicateIdentifier);
    }
    var recall := RunRecall(host, input);
    if recall.Raise? {
      return Raise(recall.error);
    }
    var assessments := RunAssessment(host, input.context, recall.value.representatives);
    if assessments.Raise? {
      return Raise(assessments.error);
    }
    var plans := BuildPlans(host, input.context, recall.value.representatives, assessments.value);
    if plans.Raise? {
      return Raise(plans.error);
    }
    var ranking := RankPlans(plans.value);
    if ranking.Raise? {
      return Raise(ranking.error);
    }
    r := Ok(Evaluation(recall.value, assessments.value, plans.value, ranking.value));
  }
}
