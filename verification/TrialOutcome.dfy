/** The status, bounds and key of the plan each verdict of a proof campaign becomes. */
module TrialOutcome {
  import opened Outcomes
  import opened Ordering
  import opened Domain
  import opened Bounds
  import opened GraphModels
  import opened Evidence
  import opened Gates
  import opened Dimensions
  import opened Guarantees
  import opened Bridge
  import opened TrialRecall
  import opened TrialPlans

  /** The verdict passed every active gate. */
  ghost predicate Clear(active: seq<ProofGate>, v: CandidateVerdict) {
    forall g :: g in active ==> Passed(v, g)
  }

  /** What gates and dimensions read of the context. */
  ghost predicate Ruled(active: seq<ProofGate>, context: DecisionContext) {
    && context.buyerFacts == Map(active, GateFact) + [PRICE_FACT]
    && context.removedFactIds == {}
    && context.gates == Map(active, TrialGate)
    && context.preferences == [PRICE_CRITERION]
    && context.riskRules == [ADAPTER_RISK] && context.riskRuleSetComplete
  }

  // ---- Gates ----

  lemma SourcesActive(active: seq<ProofGate>, context: DecisionContext)
    requires Ruled(active, context)
    ensures forall g :: g in active ==> g.SourceId() in ActiveSourceIds(context)
    ensures PRICE_POLICY in ActiveSourceIds(context)
  {
    hide TrialGate;
    var facts := context.buyerFacts;
    forall g | g in active ensures g.SourceId() in ActiveSourceIds(context) {
      var i :| 0 <= i < |active| && active[i] == g;
      assert facts[i] == GateFact(g) && GateFact(g) in ActiveFacts(context);
    }
    assert facts[|active|] == PRICE_FACT && PRICE_FACT in ActiveFacts(context);
  }

  lemma GatesListed(active: seq<ProofGate>, rule: GateRule)
    ensures rule in Map(active, TrialGate) <==> exists g :: g in active && rule == TrialGate(g)
  {
    var rules := Map(active, TrialGate);
    if rule in rules {
      var i :| 0 <= i < |rules| && rules[i] == rule;
      assert active[i] in active;
    }
    if g :| g in active && rule == TrialGate(g) {
      var i :| 0 <= i < |active| && active[i] == g;
      assert rules[i] == rule;
    }
  }

  lemma GatesApplicable(active: seq<ProofGate>, context: DecisionContext, m: PlanMaterial)
    requires Ruled(active, context) && m.action == Replace
    ensures forall rule :: rule in ApplicableGates(context, m) <==> exists g :: g in active && rule == TrialGate(g)
  {
    hide ActiveSourceIds, ActiveFacts, TrialGate, GateApplies;
    SourcesActive(active, context);
    SortPermutes(context.gates, ByKey(GateOrder));
    forall g | g in active ensures GateApplies(TrialGate(g), m, ActiveSourceIds(context)) {
      TrialGateApplies(g, m, ActiveSourceIds(context));
    }
    forall rule
      ensures rule in ApplicableGates(context, m) <==> exists g :: g in active && rule == TrialGate(g)
    {
      GatesListed(active, rule);
      assert rule in ApplicableGates(context, m)
        <==> rule in context.gates && GateApplies(rule, m, ActiveSourceIds(context));
    }
  }

  lemma TrialGateApplies(g: ProofGate, m: PlanMaterial, sources: set<string>)
    requires g.SourceId() in sources && m.action == Replace
    ensures GateApplies(TrialGate(g), m, sources)
  {
  }

  lemma OneState(host: Host, m: PlanMaterial, field: string, index: AssessmentIndex, s: FieldState)
    requires |m.componentIds| == 1 && FieldStateOf(host, m.gateFacts, field, index) == s
    ensures ComponentFieldStates(host, m, field, index) == [s]
  {
  }

  lemma BooleanTally(host: Host, field: string, flag: bool, e: string)
    ensures BuyerPredicateTally(host, Predicate(field, Eq, Truth(true)),
              [FieldState([Truth(flag)], Acceptable, {e}, false)])
         == Ok(Tally({if flag then True else False}, []))
  {
    var p, s := Predicate(field, Eq, Truth(true)), FieldState([Truth(flag)], Acceptable, {e}, false);
    AllMatchSingle(host, p, s);
    TraverseOne(s, StateMatcher(host, p), flag);
    var truths := set b | b in [flag] :: if b then True else False;
    assert flag in [flag] && (if flag then True else False) in truths;
    assert truths == {if flag then True else False};
    assert forall x :: x in [s] ==> x == s;
    assert BuyerPredicateTally(host, p, [s]) == Ok(Tally(truths, []));
  }

  lemma GateTally(host: Host, g: ProofGate, m: PlanMaterial, buyer: map<string, FactValue>, index: AssessmentIndex,
      flag: bool, e: string)
    requires |m.componentIds| == 1 && Says(m.gateFacts, g.Field(), Truth(flag), e) && HasCurrent(index, e, g.Field())
    ensures PredicateTally(host, TrialGate(g), m, buyer, index, Predicate(g.Field(), Eq, Truth(true)))
            == Ok(Tally({if flag then True else False}, []))
  {
    ConstantField(host, m.gateFacts, g.Field(), Truth(flag), e, index);
    OneState(host, m, g.Field(), index, FieldState([Truth(flag)], Acceptable, {e}, false));
    BooleanTally(host, g.Field(), flag, e);
  }

  lemma GateCollected(host: Host, g: ProofGate, m: PlanMaterial, buyer: map<string, FactValue>, index: AssessmentIndex,
      t: Tally)
    requires PredicateTally(host, TrialGate(g), m, buyer, index, Predicate(g.Field(), Eq, Truth(true))) == Ok(t)
    ensures Collected(host, TrialGate(g), m, buyer, index) == Ok(t)
  {
    var p := Predicate(g.Field(), Eq, Truth(true));
    var tallier := Tallier(host, TrialGate(g), m, buyer, index);
    TraverseOne(p, tallier, t);
    assert SumTallies([t]) == t.Plus(SumTallies([t][1..])) && [t][1..] == [];
    assert Tally({}, []).Plus(t.Plus(Tally({}, []))) == t;
  }

  /** A gate leaves a reason exactly when the verdict failed it. */
  lemma GateOutcome(host: Host, g: ProofGate, m: PlanMaterial, buyer: map<string, FactValue>, index: AssessmentIndex,
      flag: bool, e: string)
    requires |m.componentIds| == 1 && Says(m.gateFacts, g.Field(), Truth(flag), e) && HasCurrent(index, e, g.Field())
    ensures var r := EvaluateGate(host, TrialGate(g), m, buyer, index); r.Ok? && (r.value.reasons == [] <==> flag)
  {
    hide PredicateTally, Collected, FieldStateOf, Says, HasCurrent;
    GateTally(host, g, m, buyer, index, flag, e);
    GateCollected(host, g, m, buyer, index, Tally({if flag then True else False}, []));
    ReportKeeps(Conclude(TrialGate(g), Tally({if flag then True else False}, [])).1);
  }

  /** The index answers for everything the verdict states. */
  ghost predicate Answers(active: seq<ProofGate>, v: CandidateVerdict, index: AssessmentIndex) {
    forall field, value :: States(active, v, field, value) ==> HasCurrent(index, TrialEvidenceId(v), field)
  }

  lemma RuleOutcome(host: Host, active: seq<ProofGate>, m: PlanMaterial, v: CandidateVerdict, c: CandidateVerdict,
      buyer: map<string, FactValue>, index: AssessmentIndex, g: ProofGate)
    requires Stands(host, active, m, v, c) && Answers(active, v, index) && g in active
    ensures var r := EvaluateGate(host, TrialGate(g), m, buyer, index);
            r.Ok? && (r.value.reasons == [] <==> Passed(v, g))
  {
    assert States(active, v, g.Field(), Truth(Passed(v, g)));
    GateOutcome(host, g, m, buyer, index, Passed(v, g), TrialEvidenceId(v));
  }

  lemma GatesEvaluate(host: Host, active: seq<ProofGate>, context: DecisionContext, m: PlanMaterial,
      v: CandidateVerdict, c: CandidateVerdict, index: AssessmentIndex)
    requires Ruled(active, context) && Stands(host, active, m, v, c) && Answers(active, v, index)
    ensures EvaluateGates(host, context, m, index).Ok?
  {
    var rules, evaluate := ApplicableGates(context, m), GateEvaluator(host, m, ValueMap(ActiveFacts(context)), index);
    GatesApplicable(active, context, m);
    TraversePointwise(rules, evaluate);
    forall i | 0 <= i < |rules| ensures evaluate(rules[i]).Ok? {
      assert rules[i] in rules;
      var g :| g in active && rules[i] == TrialGate(g);
      RuleOutcome(host, active, m, v, c, ValueMap(ActiveFacts(context)), index, g);
    }
  }

  lemma RulesSound(active: seq<ProofGate>, context: DecisionContext)
    requires Ruled(active, context)
    ensures SoundRules(context)
  {
    forall rule | rule in context.gates ensures !rule.blockedStatus.IsEligible() {
      var i :| 0 <= i < |context.gates| && context.gates[i] == rule;
    }
  }

  /** The plan is eligible exactly when the verdict passed every active gate. */
  lemma TrialStatus(host: Host, active: seq<ProofGate>, context: DecisionContext, m: PlanMaterial, v: CandidateVerdict,
      c: CandidateVerdict, index: AssessmentIndex)
    requires Ruled(active, context) && Stands(host, active, m, v, c) && Answers(active, v, index)
    ensures EvaluateGates(host, context, m, index).Ok?
    ensures var status := PrimaryStatus(EvaluateGates(host, context, m, index).value).0;
            (status.IsEligible() <==> Clear(active, v)) && (status.IsEligible() ==> status == Eligible)
  {
    hide FieldStateOf, EvaluateGates, PrimaryStatus, ApplicableGates, EvaluateGate, TrialGate, IndexOf, SaysAll,
         Answers, ActiveFacts, ValueMap;
    GatesEvaluate(host, active, context, m, v, c, index);
    RulesSound(active, context);
    EligibleMeansAllTrue(host, context, m, index);
    StatusExactFor(host, context, m, index);
    var gates := EvaluateGates(host, context, m, index).value;
    var buyer := ValueMap(ActiveFacts(context));
    GatesApplicable(active, context, m);
    RuleGates(host, context, m, index);
    if forall r :: r in gates ==> r.reasons == [] {
      forall g | g in active ensures Passed(v, g) {
        RuleOutcome(host, active, m, v, c, buyer, index, g);
        assert TrialGate(g) in ApplicableGates(context, m);
      }
    }
    if Clear(active, v) {
      forall r | r in gates ensures r.reasons == [] {
        if rule :| rule in ApplicableGates(context, m) && EvaluateGate(host, rule, m, buyer, index) == Ok(r) {
          var g :| g in active && rule == TrialGate(g);
          RuleOutcome(host, active, m, v, c, buyer, index, g);
        }
      }
    }
  }

  // ---- Dimensions ----

  /** Two cents or less satisfies the price preference; anything dearer does not. */
  function Satisfaction(cents: nat): real {
    if cents <= 2 then 1.0 else 0.0
  }

  lemma PriceNormalized(host: Host, cents: nat)
    ensures Normalize(host, PRICE_CRITERION, Whole(cents)) == Ok(Satisfaction(cents))
  {
    var points := PRICE_CRITERION.lowerIsBetterPoints;
    assert points[1..][1..] == [];
    assert SatisfactionAt(points[1..], cents as real) == 0.0;
  }

  function PriceScore(v: CandidateVerdict): Scored {
    var s := Satisfaction(v.priceCents);
    Scored(ScoreComponent(PRICE_CRITERION.criterionId, 5, Interval(s, s), {TrialEvidenceId(v)}, Acceptable, false), {})
  }

  lemma PriceScored(host: Host, active: seq<ProofGate>, context: DecisionContext, m: PlanMaterial, v: CandidateVerdict,
      c: CandidateVerdict, index: AssessmentIndex)
    requires Stands(host, active, m, v, c) && Answers(active, v, index)
    ensures ScoreCriterion(host, context, m, index, PRICE_CRITERION) == Ok(PriceScore(v))
  {
    assert States(active, v, PRICE_FIELD, Whole(v.priceCents));
    ConstantField(host, m.facts, PRICE_FIELD, Whole(v.priceCents), TrialEvidenceId(v), index);
    PriceNormalized(host, v.priceCents);
    TraverseOne(Whole(v.priceCents), Normalizer(host, PRICE_CRITERION), Satisfaction(v.priceCents));
  }

  lemma PriceApplies(active: seq<ProofGate>, context: DecisionContext, m: PlanMaterial)
    requires Ruled(active, context) && m.action == Replace
    ensures ApplicableCriteria(context, m) == [PRICE_CRITERION]
  {
    SourcesActive(active, context);
    SortOne(PRICE_CRITERION, ByKey(CriterionKey));
    assert [PRICE_CRITERION][1..] == [];
    assert CriterionApplies(PRICE_CRITERION, m, ActiveSourceIds(context));
  }

  function PriceInterval(v: CandidateVerdict): Interval {
    Interval(100.0 * Satisfaction(v.priceCents), 100.0 * Satisfaction(v.priceCents))
  }

  lemma PricePreference(v: CandidateVerdict)
    ensures PreferenceOf([PriceScore(v)]) == Ok(Some(PriceInterval(v)))
  {
    var s := Satisfaction(v.priceCents);
    var bounds := [PreferenceCriterionBound(PRICE_CRITERION.criterionId, 5, Interval(s, s))];
    assert [PriceScore(v)][1..] == [] && Map([PriceScore(v)], PreferenceBound) == bounds;
    assert bounds[1..] == [];
    assert TotalWeight(bounds) == 5 && WeightedSum(bounds, false) == 5.0 * s && WeightedSum(bounds, true) == 5.0 * s;
    QuotientIs(100.0 * (5.0 * s), 5.0, 100.0 * s);
  }

  lemma PriceCoverage(v: CandidateVerdict)
    ensures AggregateCoverage(CoverageCriteria([PRICE_CRITERION], [PriceScore(v)])) == Ok(Interval(1.0, 1.0))
  {
    var c := CoverageCriterion(PRICE_CRITERION.criterionId, 5, true, true);
    assert CoverageCriteria([PRICE_CRITERION], [PriceScore(v)]) == [c];
    assert [c][1..] == [];
    assert CoveredWeight([c], Counted) == 5 && CoveredWeight([c], CoveredNow) == 5
      && CoveredWeight([c], CoveredAtBest) == 5;
    QuotientIs(5.0, 5.0, 1.0);
  }

  const LOWEST := RiskBounds(Low, Low, Low)

  lemma TrialRisk(host: Host, active: seq<ProofGate>, context: DecisionContext, m: PlanMaterial, index: AssessmentIndex)
    requires Ruled(active, context) && m.action == Replace
    ensures RiskSteps(host, context, m, index) == Ok([Contributes(LOWEST)])
    ensures ConcludeRisk([Contributes(LOWEST)], true) == (Some(LOWEST), {})
  {
    SortOne(ADAPTER_RISK, ByKey(RuleKey));
    TraverseOne(ADAPTER_RISK, RiskStepper(host, m, index), Contributes(LOWEST));
    var steps := [Contributes(LOWEST)];
    assert steps[1..] == [] && Contributions(steps) == [LOWEST];
    assert MissingInputs(steps) == {};
  }

  lemma {:induction false} ZeroAges(assessments: seq<EvidenceAssessment>)
    requires forall a :: a in assessments ==> IsCurrent(a)
    ensures AggregateAge(Ages(assessments)) == Interval(0.0, 0.0)
  {
    if assessments != [] {
      assert assessments[0] in assessments && forall a :: a in assessments[1..] ==> a in assessments;
      ZeroAges(assessments[1..]);
      assert Ages(assessments) == [Interval(0.0, 0.0)] + Ages(assessments[1..]);
    }
  }

  lemma TrialCost(v: CandidateVerdict)
    ensures ValidCost(TrialOffer(v), 0) == Ok(None)
  {
    assert Filter([], IsFee) == [];
  }

  /** The bounds of v's plan when c's offer is charged: everything certain, and that offer's price as the cost. */
  function TrialBounds(v: CandidateVerdict, c: CandidateVerdict): OrderingBounds {
    var price := Money(c.priceCents, "USD");
    OrderingBounds(PriceInterval(v), LOWEST, CostBounds(price, price, price), Interval(1.0, 1.0), Interval(0.0, 0.0))
  }

  function TrialDimensions(v: CandidateVerdict, c: CandidateVerdict): PlanDimensions {
    PlanDimensions(Some(PriceInterval(v)), Some(LOWEST), TrialOffer(c), Interval(1.0, 1.0), Interval(0.0, 0.0), {})
  }

  /** Dimensions assembled from the results of their parts. */
  lemma Assembled(
    host: Host, context: DecisionContext, m: PlanMaterial, assessments: seq<EvidenceAssessment>,
    scores: seq<Scored>, steps: seq<RiskStep>, d: PlanDimensions)
    requires Scores(host, context, m, IndexOf(assessments)) == Ok(scores) && scores != []
    requires |scores| == |ApplicableCriteria(context, m)|
    requires PreferenceOf(scores) == Ok(d.preference)
    requires RiskSteps(host, context, m, IndexOf(assessments)) == Ok(steps)
    requires ConcludeRisk(steps, context.riskRuleSetComplete) == (d.stackRisk, {})
    requires AggregateCoverage(CoverageCriteria(ApplicableCriteria(context, m), scores)) == Ok(d.coverage)
    requires ValidCost(m.cost, m.paymentComponentCount) == Ok(None) && d.totalCost == m.cost
    requires AggregateAge(Ages(MaterialAssessments(m, scores, assessments))) == d.evidenceAge
    requires ScoreReasons(scores) == {} && d.boundUnavailableReasons == {}
    requires forall a :: a in assessments ==> !a.timeUnavailable
    ensures DimensionsOf(host, context, m, assessments) == Ok(d)
  {
    var material := MaterialAssessments(m, scores, assessments);
    assert forall a :: a in material ==> a in assessments;
  }

  lemma PriceScores(host: Host, active: seq<ProofGate>, context: DecisionContext, m: PlanMaterial, v: CandidateVerdict,
      c: CandidateVerdict, index: AssessmentIndex)
    requires Ruled(active, context) && Stands(host, active, m, v, c) && Answers(active, v, index)
    ensures ApplicableCriteria(context, m) == [PRICE_CRITERION]
    ensures Scores(host, context, m, index) == Ok([PriceScore(v)])
  {
    PriceApplies(active, context, m);
    PriceScored(host, active, context, m, v, c, index);
    TraverseOne(PRICE_CRITERION, Scorer(host, context, m, index), PriceScore(v));
  }

  lemma MeasuredFrom(host: Host, context: DecisionContext, m: PlanMaterial, v: CandidateVerdict, c: CandidateVerdict,
      assessments: seq<EvidenceAssessment>)
    requires ApplicableCriteria(context, m) == [PRICE_CRITERION] && context.riskRuleSetComplete
    requires Scores(host, context, m, IndexOf(assessments)) == Ok([PriceScore(v)])
    requires RiskSteps(host, context, m, IndexOf(assessments)) == Ok([Contributes(LOWEST)])
    requires ConcludeRisk([Contributes(LOWEST)], true) == (Some(LOWEST), {})
    requires m.cost == TrialOffer(c) && m.paymentComponentCount == 0
    requires forall a :: a in assessments ==> IsCurrent(a)
    ensures DimensionsOf(host, context, m, assessments) == Ok(TrialDimensions(v, c))
  {
    hide Scores, RiskSteps, ConcludeRisk, ApplicableCriteria, PreferenceOf, AggregateCoverage, CoverageCriteria,
         ValidCost, AggregateAge, DimensionsOf, IndexOf, TrialOffer, Satisfaction;
    var scores := [PriceScore(v)];
    PricePreference(v);
    PriceCoverage(v);
    TrialCost(c);
    ZeroAges(MaterialAssessments(m, scores, assessments));
    assert ScoreReasons(scores) == {};
    Assembled(host, context, m, assessments, scores, [Contributes(LOWEST)], TrialDimensions(v, c));
  }

  /** The dimensions of a verdict's plan are all known exactly. */
  lemma TrialMeasured(host: Host, active: seq<ProofGate>, context: DecisionContext, m: PlanMaterial,
      v: CandidateVerdict, c: CandidateVerdict, assessments: seq<EvidenceAssessment>)
    requires Ruled(active, context) && Stands(host, active, m, v, c) && Answers(active, v, IndexOf(assessments))
    requires forall a :: a in assessments ==> IsCurrent(a)
    ensures DimensionsOf(host, context, m, assessments) == Ok(TrialDimensions(v, c))
  {
    PriceScores(host, active, context, m, v, c, IndexOf(assessments));
    TrialRisk(host, active, context, m, IndexOf(assessments));
    MeasuredFrom(host, context, m, v, c, assessments);
  }
}
