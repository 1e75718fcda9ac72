/** What an evaluation can raise. */
module Exceptions {
  import opened Outcomes
  import opened Ordering
  import opened Domain
  import opened Bounds
  import opened GraphModels
  import opened Recall
  import opened Evidence
  import opened Gates
  import opened Dimensions
  import opened Closure
  import opened Materials
  import opened Engine
  import opened RankGuarantees

  /** The result is a value or one of these exceptions. */
  predicate Among<T>(r: Result<T, Error>, errors: set<Error>) {
    r.Raise? ==> r.error in errors
  }

  lemma {:induction false} TraverseAmong<T, U>(s: seq<T>, f: T -> Result<U, Error>, errors: set<Error>)
    requires forall x :: x in s ==> Among(f(x), errors)
    ensures Among(Traverse(s, f), errors)
  {
    if s != [] {
      assert s[0] in s && forall x :: x in s[1..] ==> x in s;
      TraverseAmong(s[1..], f, errors);
    }
  }

  const POLICY_ERRORS := {UnparsableNumber, UnsupportedOperator}
  const EVIDENCE_ERRORS := {MissingEvidencePolicy, InvalidFreshnessAllowance, EvidenceAfterEvaluation}

  // ---- Stage by stage ----

  lemma AgeRaises(evaluatedAt: int, lower: int, upper: int, sla: nat)
    ensures Among(EvidenceAge(evaluatedAt, lower, upper, sla), EVIDENCE_ERRORS)
  {
  }

  lemma PairRaises(host: Host, context: DecisionContext, p: seq<string>)
    ensures Among(Assessor(host, context)(p), EVIDENCE_ERRORS)
  {
    hide EvidenceAge, ScopeMatches, StateOf, Find;
    if |p| == 2 {
      var policy := Find(context.evidencePolicies, (x: EvidencePolicy) => x.field == p[1]);
      var record := Find(context.evidence, (x: EvidenceRecord) => x.evidenceId == p[0]);
      if policy.Some? && record.Some? && record.value.observed.Some? {
        var t := record.value.observed.value;
        AgeRaises(context.evaluatedAt, t.lower, t.upper, policy.value.freshnessSlaSeconds);
      }
    }
  }

  lemma AssessmentRaises(host: Host, context: DecisionContext, representatives: seq<RawCandidate>)
    ensures Among(AssessEvidence(host, context, representatives), EVIDENCE_ERRORS)
  {
    hide AssessPair, MaterialPairs, Assessor;
    var pairs := SortedTuples(MaterialPairs(context, representatives));
    forall p | p in pairs ensures Among(Assessor(host, context)(p), EVIDENCE_ERRORS) { PairRaises(host, context, p); }
    TraverseAmong(pairs, Assessor(host, context), EVIDENCE_ERRORS);
  }

  lemma BuyerTallyRaises(host: Host, p: Predicate, states: seq<FieldState>)
    ensures Among(BuyerPredicateTally(host, p, states), POLICY_ERRORS)
  {
    forall s | s in states ensures Among(StateMatcher(host, p)(s), POLICY_ERRORS) { MatchErrors(host, p, s); }
    TraverseAmong(states, StateMatcher(host, p), POLICY_ERRORS);
  }

  lemma GateRaises(host: Host, gate: GateRule, m: PlanMaterial, buyer: map<string, FactValue>, index: AssessmentIndex)
    ensures Among(EvaluateGate(host, gate, m, buyer, index), POLICY_ERRORS)
  {
    hide BuyerPredicateTally, ComponentFieldStates, Conclude, Report;
    var tallier := Tallier(host, gate, m, buyer, index);
    forall p | p in gate.predicates ensures Among(tallier(p), POLICY_ERRORS) {
      BuyerTallyRaises(host, p, ComponentFieldStates(host, m, p.field, index));
    }
    TraverseAmong(gate.predicates, tallier, POLICY_ERRORS);
  }

  lemma GatesRaise(host: Host, context: DecisionContext, m: PlanMaterial, index: AssessmentIndex)
    ensures Among(EvaluateGates(host, context, m, index), POLICY_ERRORS)
  {
    hide EvaluateGate, ApplicableGates, DependencyGates, AuthorityGates, ActiveFacts, ValueMap;
    var rules, evaluate := ApplicableGates(context, m), GateEvaluator(host, m, ValueMap(ActiveFacts(context)), index);
    forall rule | rule in rules ensures Among(evaluate(rule), POLICY_ERRORS) {
      GateRaises(host, rule, m, ValueMap(ActiveFacts(context)), index);
    }
    TraverseAmong(rules, evaluate, POLICY_ERRORS);
  }

  lemma PlanRaises(host: Host, context: DecisionContext, assessments: seq<EvidenceAssessment>, m: PlanMaterial)
    requires ValidContext(context) && SoundAges(assessments) && OrderedCost(m.cost)
    ensures Among(BuildPlan(host, context, assessments, m), POLICY_ERRORS)
  {
    hide EvaluateGates, DimensionsOf, PrimaryStatus;
    GatesRaise(host, context, m, IndexOf(assessments));
    DimensionsWellFormed(host, context, m, assessments);
  }

  lemma CombineRaises(host: Host, how: Aggregation, values: seq<FactValue>)
    requires values != []
    ensures Among(CombineValues(host, how, values), POLICY_ERRORS)
  {
    forall v | v in values ensures Among(NumberOf(host)(v), POLICY_ERRORS) {}
    TraverseAmong(values, NumberOf(host), POLICY_ERRORS);
  }

  lemma AggregateRaises(host: Host, context: DecisionContext, records: seq<RawCandidate>)
    requires records != []
    ensures Among(AggregateFacts(host, context, records), POLICY_ERRORS)
  {
    hide BundleField, CriterionOn, FlatMap;
    var fields := SortedIds(set c | c in context.preferences :: c.field);
    forall field | field in fields ensures Among(BundleFields(host, context, records)(field), POLICY_ERRORS) {
      if CriterionOn(context.preferences, field).Some? {
        BundleRaises(host, CriterionOn(context.preferences, field).value, records);
      }
    }
    TraverseAmong(fields, BundleFields(host, context, records), POLICY_ERRORS);
  }

  lemma BundleRaises(host: Host, c: PreferenceCriterion, records: seq<RawCandidate>)
    requires records != []
    ensures Among(BundleField(host, c, records), POLICY_ERRORS)
  {
    hide CombineValues, EvidenceIdsOf;
    var perComponent := FactsOnField(records, c.field);
    var facts := FlatMap(perComponent, OwnFacts);
    if facts != [] { CombineRaises(host, c.aggregation, Map(facts, FactValueOf)); }
  }

  lemma MaterialsRaise(host: Host, context: DecisionContext, representatives: seq<RawCandidate>)
    ensures Among(AllMaterials(host, context, representatives), POLICY_ERRORS)
  {
    hide PackMaterial, CatalogOf, OfferMap, Relabel;
    var roots := Relabelled(host, context, representatives);
    var offers, catalog := OfferMap(host, context.aliases, context.offers), CatalogOf(roots);
    forall root | root in roots ensures Among(Packer(host, context, offers, catalog)(root), POLICY_ERRORS) {
      PackRaises(host, context, offers, catalog, root);
    }
    TraverseAmong(roots, Packer(host, context, offers, catalog), POLICY_ERRORS);
  }

  lemma PackRaises(host: Host, context: DecisionContext, offers: map<string, OfferCost>, catalog: Catalog,
      root: RawCandidate)
    requires WellFiled(catalog)
    ensures Among(PackMaterial(host, context, offers, catalog, root), POLICY_ERRORS)
  {
    hide ClosureOf, CombinedCost, AggregateFacts;
    AggregateRaises(host, context, ClosureOf(catalog, root).0);
  }

  lemma PlansRaise(host: Host, context: DecisionContext, representatives: seq<RawCandidate>,
      assessments: seq<EvidenceAssessment>)
    requires ValidContext(context) && OrderedInputs(context)
    requires AssessEvidence(host, context, representatives) == Ok(assessments)
    ensures Among(BuildSolutionPlans(host, context, representatives, assessments), POLICY_ERRORS)
    ensures BuildSolutionPlans(host, context, representatives, assessments).Ok? ==>
              AllWellFormed(BuildSolutionPlans(host, context, representatives, assessments).value)
  {
    hide AllMaterials, BuildPlan, AssessEvidence, WellFormed;
    MaterialsRaise(host, context, representatives);
    var materials := AllMaterials(host, context, representatives);
    if materials.Ok? {
      var builder := PlanBuilder(host, context, assessments);
      AssessmentAges(host, context, representatives);
      forall m | m in materials.value ensures Among(builder(m), POLICY_ERRORS) {
        MaterialCost(host, context, representatives, m);
        PlanRaises(host, context, assessments, m);
      }
      TraverseAmong(materials.value, builder, POLICY_ERRORS);
      TraversePointwise(materials.value, builder);
      var plans := Traverse(materials.value, builder);
      if plans.Ok? {
        forall p | p in plans.value ensures WellFormed(p.dimensions) && p.stableActionIds != [] {
          var i :| 0 <= i < |plans.value| && plans.value[i] == p;
          assert materials.value[i] in materials.value && builder(materials.value[i]) == Ok(p);
          PlanWellFormed(host, context, representatives, assessments, materials.value[i]);
        }
      }
    }
  }

  const RECALLED_ERRORS := EVIDENCE_ERRORS + POLICY_ERRORS + {IncomparableCosts}

  lemma RecalledRaises(host: Host, context: DecisionContext, recall: RecallResult)
    requires ValidContext(context) && OrderedInputs(context)
    ensures Among(EvaluateRecalled(host, context, recall), RECALLED_ERRORS)
  {
    hide AssessEvidence, BuildSolutionPlans, Rank, ValidContext, OrderedInputs, AllWellFormed;
    AssessmentRaises(host, context, recall.representatives);
    var assessments := AssessEvidence(host, context, recall.representatives);
    if assessments.Ok? {
      PlansRaise(host, context, recall.representatives, assessments.value);
      var plans := BuildSolutionPlans(host, context, recall.representatives, assessments.value);
      if plans.Ok? { RankTotal(plans.value); }
    }
  }

  /**
   * An evaluation of a valid context is refused for a repeated identifier exactly when there is one. All it
   * can raise besides is an alias cycle, evidence without a policy or observed too late, text that is no
   * number or an unknown operator in a policy, and costs that cannot be compared.
   */
  lemma EvaluationRaises(host: Host, input: DecisionInput)
    requires ValidContext(input.context) && OrderedInputs(input.context)
    ensures EvaluateOnce(host, input) == Raise(DuplicateIdentifier) <==> !input.UniqueIdentifiers()
    ensures Among(EvaluateOnce(host, input), RECALLED_ERRORS + {DuplicateIdentifier, AliasCycle})
  {
    hide RecallAndDeduplicate, EvaluateRecalled, ValidContext, OrderedInputs, Distinct;
    RecallRaisesOnlyCycles(host, input);
    var recall := RecallAndDeduplicate(host, input);
    if recall.Ok? { RecalledRaises(host, input.context, recall.value); }
  }
}
