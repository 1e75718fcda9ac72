/** What the decision graph guarantees about every evaluation. */
module Guarantees {
  import opened Outcomes
  import opened Ordering
  import opened Domain
  import opened GraphModels
  import opened Recall
  import opened Evidence
  import opened Gates
  import opened Dimensions
  import opened Closure
  import opened Materials
  import opened Engine

  // ---- The order of candidates does not matter ----

  /** Arranging the candidate records differently changes nothing in the evaluation. */
  lemma EvaluationForgetsOrder(host: Host, context: DecisionContext, a: seq<RawCandidate>, b: seq<RawCandidate>)
    requires multiset(a) == multiset(b)
    ensures EvaluateOnce(host, DecisionInput(a, context)) == EvaluateOnce(host, DecisionInput(b, context))
  {
    hide RecallAndDeduplicate, EvaluateRecalled;
    RearrangedKeys(a, b, RecordId);
    RearrangedKeys(b, a, RecordId);
    if Distinct(Map(a, RecordId)) { RecallForgetsOrder(host, context, a, b); }
  }

  // ---- Plans and their materials ----

  /** m is the material plan p was built from in evaluation e. */
  ghost predicate BuiltFrom(host: Host, context: DecisionContext, e: Evaluation, p: EvaluatedPlan, m: PlanMaterial) {
    && AllMaterials(host, context, e.recall.representatives).Ok?
    && m in AllMaterials(host, context, e.recall.representatives).value
    && BuildPlan(host, context, e.assessments, m) == Ok(p)
  }

  lemma BuiltPointwise(host: Host, context: DecisionContext, assessments: seq<EvidenceAssessment>,
      materials: seq<PlanMaterial>, plans: seq<EvaluatedPlan>)
    requires Traverse(materials, PlanBuilder(host, context, assessments)) == Ok(plans)
    ensures |plans| == |materials|
    ensures forall i :: 0 <= i < |plans| ==> BuildPlan(host, context, assessments, materials[i]) == Ok(plans[i])
  {
    TraversePointwise(materials, PlanBuilder(host, context, assessments));
  }

  lemma EvaluationStages(host: Host, input: DecisionInput, e: Evaluation)
    requires EvaluateOnce(host, input) == Ok(e)
    ensures RecallAndDeduplicate(host, input) == Ok(e.recall)
    ensures AssessEvidence(host, input.context, e.recall.representatives) == Ok(e.assessments)
    ensures AllMaterials(host, input.context, e.recall.representatives).Ok?
    ensures Traverse(AllMaterials(host, input.context, e.recall.representatives).value,
              PlanBuilder(host, input.context, e.assessments)) == Ok(e.plans)
    ensures Rank(e.plans) == Ok(e.ranking)
  {
    hide RecallAndDeduplicate, AssessEvidence, AllMaterials, Rank, BuildPlan;
  }

  /** Plans and materials correspond one to one, in order. */
  lemma PlansHaveMaterials(host: Host, input: DecisionInput, e: Evaluation)
    requires EvaluateOnce(host, input) == Ok(e)
    ensures AllMaterials(host, input.context, e.recall.representatives).Ok?
    ensures forall p :: p in e.plans ==> exists m :: BuiltFrom(host, input.context, e, p, m)
    ensures forall m :: m in AllMaterials(host, input.context, e.recall.representatives).value ==>
              exists p :: p in e.plans && BuiltFrom(host, input.context, e, p, m)
  {
    hide EvaluateOnce, BuildPlan, AllMaterials;
    EvaluationStages(host, input, e);
    var materials := AllMaterials(host, input.context, e.recall.representatives).value;
    BuiltPointwise(host, input.context, e.assessments, materials, e.plans);
    forall p | p in e.plans ensures exists m :: BuiltFrom(host, input.context, e, p, m) {
      var i :| 0 <= i < |e.plans| && e.plans[i] == p;
      assert BuiltFrom(host, input.context, e, p, materials[i]);
    }
    forall m | m in materials ensures exists p :: p in e.plans && BuiltFrom(host, input.context, e, p, m) {
      var i :| 0 <= i < |materials| && materials[i] == m;
      assert BuiltFrom(host, input.context, e, e.plans[i], m);
    }
  }

  // ---- Eligibility fails closed ----

  /** A plan is executable exactly when no gate has a reason and its bounds are available. */
  lemma ExecutableExact(host: Host, context: DecisionContext, assessments: seq<EvidenceAssessment>, m: PlanMaterial)
    requires SoundRules(context)
    requires BuildPlan(host, context, assessments, m).Ok?
    ensures var p := BuildPlan(host, context, assessments, m).value;
            && (p.lifecycle == Executable <==>
                  p.dimensions.OrderingBounds().Some? && forall g :: g in p.gateResults ==> g.reasons == [])
            && (p.lifecycle == Executable ==>
                 p.status == Eligible && forall g :: g in p.gateResults ==> g.truth == True)
  {
    hide EvaluateGates, PrimaryStatus, DimensionsOf;
    EligibleMeansAllTrue(host, context, m, IndexOf(assessments));
    StatusExactFor(host, context, m, IndexOf(assessments));
  }

  lemma StatusExactFor(host: Host, context: DecisionContext, m: PlanMaterial, index: AssessmentIndex)
    requires SoundRules(context) && EvaluateGates(host, context, m, index).Ok?
    ensures var status := PrimaryStatus(EvaluateGates(host, context, m, index).value).0;
            status.IsEligible() ==> status == Eligible
  {
    EligibleMeansAllTrue(host, context, m, index);
    var gates := EvaluateGates(host, context, m, index).value;
    if PrimaryStatus(gates).0.IsEligible() { StatusExact(gates); }
  }

  lemma SupportedRequirement(host: Host, context: DecisionContext, m: PlanMaterial, index: AssessmentIndex,
      gates: seq<GateResult>, rule: GateRule)
    requires EvaluateGates(host, context, m, index) == Ok(gates)
    requires forall g :: g in gates ==> g.truth == True
    requires rule in ApplicableGates(context, m) && rule.mode == RequireMatch && rule.blockedStatus != SeilPass
    ensures AllSupported(host, rule, m, index)
  {
    RuleGates(host, context, m, index);
    RequireMatchExact(host, rule, m, ValueMap(ActiveFacts(context)), index);
  }

  /**
   * In every evaluation, an executable plan has every gate TRUE, and for each applicable required
   * match of the buyer, every predicate and every component, the field has one value, current
   * acceptable evidence, and that value matches.
   */
  lemma EligibilityFailsClosed(host: Host, input: DecisionInput, e: Evaluation, p: EvaluatedPlan, m: PlanMaterial,
      rule: GateRule)
    requires SoundRules(input.context)
    requires EvaluateOnce(host, input) == Ok(e) && p in e.plans && p.lifecycle == Executable
    requires BuiltFrom(host, input.context, e, p, m)
    requires rule in ApplicableGates(input.context, m) && rule.mode == RequireMatch && rule.blockedStatus != SeilPass
    ensures forall g :: g in p.gateResults ==> g.truth == True
    ensures AllSupported(host, rule, m, IndexOf(e.assessments))
  {
    hide EvaluateOnce, BuildPlan, AllSupported, EvaluateGates, ApplicableGates, AllMaterials;
    ExecutableExact(host, input.context, e.assessments, m);
    PlanGates(host, input.context, e.assessments, m);
    SupportedRequirement(host, input.context, m, IndexOf(e.assessments), p.gateResults, rule);
  }

  // ---- Disagreeing duplicates cannot be hidden ----

  /** What a built plan takes from its gates. */
  lemma PlanGates(host: Host, context: DecisionContext, assessments: seq<EvidenceAssessment>, m: PlanMaterial)
    requires BuildPlan(host, context, assessments, m).Ok?
    ensures var p := BuildPlan(host, context, assessments, m).value;
            && EvaluateGates(host, context, m, IndexOf(assessments)) == Ok(p.gateResults)
            && p.status == PrimaryStatus(p.gateResults).0
            && p.lifecycle == LifecycleOf(p.status, p.dimensions.OrderingBounds().Some?, p.permittedResolution)
            && p.componentIds == m.componentIds && p.action == m.action
  {
  }

  /** A buyer gate that meets a conflict blocks its plan. */
  lemma ConflictBlocks(host: Host, context: DecisionContext, assessments: seq<EvidenceAssessment>, m: PlanMaterial,
      rule: GateRule, on: Predicate)
    requires BuildPlan(host, context, assessments, m).Ok?
    requires rule in ApplicableGates(context, m) && rule.blockedStatus != SeilPass && on in rule.predicates
    requires HasConflict(host, m, on.field, IndexOf(assessments))
    ensures var p := BuildPlan(host, context, assessments, m).value;
            && p.lifecycle == Blocked
            && exists g :: g in p.gateResults && g.gateId == rule.gateId && g.truth == TruthValue.Conflict
  {
    PlanGates(host, context, assessments, m);
    var p := BuildPlan(host, context, assessments, m).value;
    var g := ConflictResult(host, context, m, IndexOf(assessments), rule, on);
    ConflictStatus(p.gateResults, g, p.dimensions.OrderingBounds().Some?, p.permittedResolution);
  }

  lemma ConflictStatus(gates: seq<GateResult>, g: GateResult, bounded: bool, resolution: Option<string>)
    requires g in gates && GateReason("CONFLICTING_EVIDENCE", ConflictingEvidence) in g.reasons
    ensures LifecycleOf(PrimaryStatus(gates).0, bounded, resolution) == Blocked
  {
    StatusPrecedence(gates, g, GateReason("CONFLICTING_EVIDENCE", ConflictingEvidence));
  }

  lemma ConflictResult(host: Host, context: DecisionContext, m: PlanMaterial, index: AssessmentIndex, rule: GateRule,
      on: Predicate)
    returns (g: GateResult)
    requires EvaluateGates(host, context, m, index).Ok?
    requires rule in ApplicableGates(context, m) && rule.blockedStatus != SeilPass && on in rule.predicates
    requires HasConflict(host, m, on.field, index)
    ensures g in EvaluateGates(host, context, m, index).value
    ensures g.gateId == rule.gateId && g.truth == TruthValue.Conflict
    ensures GateReason("CONFLICTING_EVIDENCE", ConflictingEvidence) in g.reasons
  {
    var buyer := ValueMap(ActiveFacts(context));
    RuleGates(host, context, m, index);
    ConflictSurfaces(host, rule, m, buyer, index, on);
    g := EvaluateGate(host, rule, m, buyer, index).value;
  }

  lemma TwoValuesConflict(host: Host, facts: seq<ProductFact>, field: string, index: AssessmentIndex, x: ProductFact,
      y: ProductFact)
    requires x in facts && y in facts && x.field == field && y.field == field && x.value != y.value
    ensures FieldStateOf(host, facts, field, index).state == EvidenceState.Conflict
  {
    var matching := OnField(facts, field);
    assert x in matching && y in matching;
    var values := Map(matching, FactValueOf);
    var i :| 0 <= i < |matching| && matching[i] == x;
    var j :| 0 <= j < |matching| && matching[j] == y;
    assert values[i] == x.value && values[j] == y.value;
    DedupKeeps(values, x.value);
    DedupKeeps(values, y.value);
    SortPermutes(Dedup(values), ByKey(ValueOrder(host)));
    FieldStateShape(host, facts, field, index);
    assert x.value in ValuesOf(host, matching) && y.value in ValuesOf(host, matching);
  }

  /** Two facts of one component that disagree are a conflict of the whole plan. */
  lemma ComponentConflict(host: Host, m: PlanMaterial, index: AssessmentIndex, product: string, x: ProductFact,
      y: ProductFact)
    requires product in m.componentIds
    requires x in m.gateFacts && y in m.gateFacts && x.componentId == Some(product) && y.componentId == Some(product)
    requires x.field == y.field && x.value != y.value
    ensures HasConflict(host, m, x.field, index)
  {
    hide FieldStateOf;
    var states := ComponentFieldStates(host, m, x.field, index);
    if |m.componentIds| == 1 {
      TwoValuesConflict(host, m.gateFacts, x.field, index, x, y);
      assert states[0] in states;
    } else {
      var i :| 0 <= i < |m.componentIds| && m.componentIds[i] == product;
      TwoValuesConflict(host, FactsOfComponent(m, product), x.field, index, x, y);
      assert states[i] in states;
    }
  }

  /** m is the material of the plan whose root is given, and rep is one of its records. */
  ghost predicate Covers(host: Host, context: DecisionContext, roots: seq<RawCandidate>, rep: RawCandidate,
      root: RawCandidate, m: PlanMaterial)
  {
    && rep in ClosureOf(CatalogOf(roots), root).0
    && PackMaterial(host, context, OfferMap(host, context.aliases, context.offers), CatalogOf(roots), root) == Ok(m)
  }

  lemma CoveredFacts(host: Host, context: DecisionContext, roots: seq<RawCandidate>, rep: RawCandidate,
      root: RawCandidate, m: PlanMaterial)
    requires Covers(host, context, roots, rep, root, m)
    ensures rep.productId in m.componentIds
    ensures forall f :: f in rep.facts && f.field != LANDED_TOTAL ==> f in m.gateFacts
  {
    var records := ClosureOf(CatalogOf(roots), root).0;
    var i :| 0 <= i < |records| && records[i] == rep;
    assert Products(records)[i] == rep.productId;
    forall f | f in rep.facts && f.field != LANDED_TOTAL ensures f in m.gateFacts {
      FlatMapMembers(records, FactsOf, f);
      assert f in Filter(AllFacts(records), NotLandedTotal);
    }
  }

  /** Blocked, with the rule's own gate at CONFLICT. */
  ghost predicate BlockedByConflict(p: EvaluatedPlan, gateId: string) {
    p.lifecycle == Blocked && exists g :: g in p.gateResults && g.gateId == gateId && g.truth == TruthValue.Conflict
  }

  /** An applicable buyer gate with a predicate on the field. */
  ghost predicate Reads(context: DecisionContext, m: PlanMaterial, rule: GateRule, on: Predicate, field: string) {
    rule in ApplicableGates(context, m) && rule.blockedStatus != SeilPass && on in rule.predicates && on.field == field
  }

  /** rep states two different values for the field. */
  ghost predicate Disagrees(rep: RawCandidate, field: string) {
    exists x, y :: x in rep.facts && y in rep.facts && x.field == field && y.field == field && x.value != y.value
                   && x.componentId == Some(rep.productId) && y.componentId == Some(rep.productId)
  }

  lemma DisagreementBlocks(
    host: Host, context: DecisionContext, assessments: seq<EvidenceAssessment>, roots: seq<RawCandidate>,
    rep: RawCandidate, root: RawCandidate, m: PlanMaterial, rule: GateRule, on: Predicate, field: string)
    requires BuildPlan(host, context, assessments, m).Ok?
    requires Covers(host, context, roots, rep, root, m)
    requires Disagrees(rep, field) && field != LANDED_TOTAL
    requires Reads(context, m, rule, on, field)
    ensures BlockedByConflict(BuildPlan(host, context, assessments, m).value, rule.gateId)
  {
    var x, y :| x in rep.facts && y in rep.facts && x.field == field && y.field == field && x.value != y.value
                && x.componentId == Some(rep.productId) && y.componentId == Some(rep.productId);
    CoveredFacts(host, context, roots, rep, root, m);
    ComponentConflict(host, m, IndexOf(assessments), rep.productId, x, y);
    ConflictBlocks(host, context, assessments, m, rule, on);
  }

  lemma DisagreeingRoot(
    host: Host, input: DecisionInput, recall: RecallResult, key: IdentityKey,
    a: RawCandidate, b: RawCandidate, fa: ProductFact, fb: ProductFact)
    returns (rep: RawCandidate)
    requires RecallAndDeduplicate(host, input) == Ok(recall)
    requires a in input.candidates && Classify(host, input.context, a) == Ok(Kept(a, key)) && fa in a.facts
    requires b in input.candidates && Classify(host, input.context, b) == Ok(Kept(b, key)) && fb in b.facts
    requires fa.field == fb.field && fa.value != fb.value
    ensures rep in Relabelled(host, input.context, recall.representatives)
    ensures rep.recordId == host.canonicalId(key) && rep.productId == key.product
    ensures Disagrees(rep, fa.field)
  {
    var plain := SharedRepresentative(host, input, a, b, key);
    var relabel := Relabel(host, input.context.aliases);
    rep := relabel(plain);
    var roots := Relabelled(host, input.context, recall.representatives);
    var i :| 0 <= i < |recall.representatives| && recall.representatives[i] == plain;
    assert roots[i] == rep;
    assert Carries(plain, fa) && Carries(plain, fb);
  }

  /** p is the plan of a root whose closure holds rep, and the rule reads the field of p's material. */
  ghost predicate Exposed(
    host: Host, context: DecisionContext, assessments: seq<EvidenceAssessment>, roots: seq<RawCandidate>,
    rep: RawCandidate, field: string, root: RawCandidate, m: PlanMaterial, p: EvaluatedPlan, rule: GateRule,
      on: Predicate)
  {
    && Covers(host, context, roots, rep, root, m)
    && BuildPlan(host, context, assessments, m) == Ok(p)
    && Reads(context, m, rule, on, field)
  }

  /**
   * Two kept records of one identity that state different values for a field other than the landed
   * total share a representative; and every plan that contains it, and has an applicable buyer gate
   * on the field, has that gate at CONFLICT and is blocked.
   */
  lemma DisagreementSurfaces(
    host: Host, input: DecisionInput, recall: RecallResult, assessments: seq<EvidenceAssessment>, key: IdentityKey,
    a: RawCandidate, b: RawCandidate, fa: ProductFact, fb: ProductFact)
    returns (rep: RawCandidate)
    requires RecallAndDeduplicate(host, input) == Ok(recall)
    requires a in input.candidates && Classify(host, input.context, a) == Ok(Kept(a, key)) && fa in a.facts
    requires b in input.candidates && Classify(host, input.context, b) == Ok(Kept(b, key)) && fb in b.facts
    requires fa.field == fb.field != LANDED_TOTAL && fa.value != fb.value
    ensures rep in Relabelled(host, input.context, recall.representatives)
    ensures rep.recordId == host.canonicalId(key) && rep.productId == key.product
    ensures forall root, m, p, rule, on ::
              Exposed(host, input.context, assessments, Relabelled(host, input.context, recall.representatives), rep,
                fa.field, root, m, p, rule, on)
              ==> BlockedByConflict(p, rule.gateId)
  {
    rep := DisagreeingRoot(host, input, recall, key, a, b, fa, fb);
    ExposedBlocked(host, input.context, assessments, Relabelled(host, input.context, recall.representatives), rep,
      fa.field);
  }

  lemma ExposedBlocked(host: Host, context: DecisionContext, assessments: seq<EvidenceAssessment>,
      roots: seq<RawCandidate>, rep: RawCandidate, field: string)
    requires Disagrees(rep, field) && field != LANDED_TOTAL
    ensures forall root, m, p, rule, on ::
              Exposed(host, context, assessments, roots, rep, field, root, m, p, rule, on) ==>
                BlockedByConflict(p, rule.gateId)
  {
    forall root, m, p, rule, on | Exposed(host, context, assessments, roots, rep, field, root, m, p, rule, on)
      ensures BlockedByConflict(p, rule.gateId)
    {
      DisagreementBlocks(host, context, assessments, roots, rep, root, m, rule, on, field);
    }
  }
}
