/** When a plan waits for a resolution although one of its gates has failed. */
module Pending {
  import opened Outcomes
  import opened Ordering
  import opened Domain
  import opened Bounds
  import opened GraphModels
  import opened Evidence
  import opened Gates
  import opened Failures
  import opened Dimensions
  import opened Materials
  import opened Recall
  import opened PlainRecall
  import opened Engine
  import opened Guarantees
  import opened Duplicates

  // ---- A failed gate reports its own reason ----

  function OwnReason(gate: GateRule): GateReason {
    GateReason(gate.reasonCode, gate.blockedStatus)
  }

  /** The reasons a buyer rule reports about the evidence it reads. */
  const EVIDENCE_REASONS := {
    GateReason("CONFLICTING_EVIDENCE", ConflictingEvidence), GateReason("STALE_EVIDENCE", StaleEvidence),
    GateReason("INSUFFICIENT_EVIDENCE", InsufficientEvidence)}

  /**
   * Reasons a rule has collected before it concludes: about evidence, or for a seller rule with other
   * statuses than its own.
   */
  ghost predicate Foreign(gate: GateRule, reasons: seq<GateReason>) {
    forall r :: r in reasons ==> if gate.blockedStatus == SeilPass then r.status != SeilPass else r in EVIDENCE_REASONS
  }

  lemma TallyForeign(host: Host, gate: GateRule, m: PlanMaterial, buyer: map<string, FactValue>, index: AssessmentIndex,
      p: Predicate)
    requires PredicateTally(host, gate, m, buyer, index, p).Ok?
    ensures Foreign(gate, PredicateTally(host, gate, m, buyer, index, p).value.reasons)
  {
    hide FieldStateOf, Matches, ComponentFieldStates;
  }

  lemma {:induction false} SumForeign(gate: GateRule, ts: seq<Tally>)
    requires forall t :: t in ts ==> Foreign(gate, t.reasons)
    ensures Foreign(gate, SumTallies(ts).reasons)
  {
    if ts != [] {
      assert ts[0] in ts;
      SumForeign(gate, ts[1..]);
    }
  }

  lemma ClaimsForeign(gate: GateRule, index: AssessmentIndex)
    ensures Foreign(gate, SellerEvidenceTally(gate, index).reasons)
  {
  }

  lemma CollectedForeign(host: Host, gate: GateRule, m: PlanMaterial, buyer: map<string, FactValue>,
      index: AssessmentIndex)
    requires Collected(host, gate, m, buyer, index).Ok?
    ensures Foreign(gate, Collected(host, gate, m, buyer, index).value.reasons)
  {
    hide PredicateTally;
    var tallier := Tallier(host, gate, m, buyer, index);
    TraversePointwise(gate.predicates, tallier);
    var tallies := Traverse(gate.predicates, tallier).value;
    forall t | t in tallies ensures Foreign(gate, t.reasons) {
      var i :| 0 <= i < |tallies| && tallies[i] == t;
      TallyForeign(host, gate, m, buyer, index, gate.predicates[i]);
    }
    SumForeign(gate, tallies);
    ClaimsForeign(gate, index);
  }

  lemma ConcludeOwn(gate: GateRule, t: Tally)
    ensures Conclude(gate, t).0 == False ==> OwnReason(gate) in Conclude(gate, t).1
    ensures OwnReason(gate) in Conclude(gate, t).1 ==> Conclude(gate, t).0 == False || OwnReason(gate) in t.reasons
  {
    var own := [OwnReason(gate)];
    assert own[0] in t.reasons + own by { assert (t.reasons + own)[|t.reasons|] == own[0]; }
  }

  /**
   * A FALSE gate reports its rule's own reason, and a gate that reports it is FALSE, unless the rule words it
   * as one about evidence.
   */
  lemma FalseExact(host: Host, gate: GateRule, m: PlanMaterial, buyer: map<string, FactValue>, index: AssessmentIndex)
    requires EvaluateGate(host, gate, m, buyer, index).Ok?
    ensures var r := EvaluateGate(host, gate, m, buyer, index).value;
            && (r.truth == False ==> OwnReason(gate) in r.reasons)
            && (OwnReason(gate) !in EVIDENCE_REASONS ==> (r.truth == False <==> OwnReason(gate) in r.reasons))
  {
    hide Collected, Conclude, EvaluateGate, Report;
    GateParts(host, gate, m, buyer, index);
    CollectedForeign(host, gate, m, buyer, index);
    var t := Collected(host, gate, m, buyer, index).value;
    ConcludeOwn(gate, t);
    ReportKeeps(Conclude(gate, t).1);
  }

  // ---- When a plan waits ----

  /** Some pending status is reported, and no reason outranks it. */
  ghost predicate PendingFirst(reasons: seq<GateReason>) {
    exists r :: r in reasons && IsPending(r.status) && forall x :: x in reasons ==> r.status.Rank() <= x.status.Rank()
  }

  predicate HasResolution(p: EvaluatedPlan) {
    p.permittedResolution.Some? && p.permittedResolution.value != ""
  }

  lemma SameRank(a: CandidateStatus, b: CandidateStatus)
    requires a.Rank() == b.Rank()
    ensures a == b
  {
  }

  lemma StatusPending(gates: seq<GateResult>)
    ensures IsPending(PrimaryStatus(gates).0) <==> PendingFirst(AllReasons(gates))
  {
    var reasons := AllReasons(gates);
    if reasons != [] {
      var least := MinReason(reasons);
      forall x | x in reasons ensures least.status.Rank() <= x.status.Rank() { assert !ReasonLess(x, least); }
      if r :| r in reasons && IsPending(r.status) && forall x :: x in reasons ==> r.status.Rank() <= x.status.Rank() {
        SameRank(r.status, least.status);
      }
    }
  }

  /** A plan waits exactly when a resolution is permitted and the first of all its gates' reasons is a pending one. */
  lemma PendingExact(host: Host, context: DecisionContext, assessments: seq<EvidenceAssessment>, m: PlanMaterial)
    requires BuildPlan(host, context, assessments, m).Ok?
    ensures var p := BuildPlan(host, context, assessments, m).value;
            p.lifecycle == ResolutionPending
            <==> HasResolution(p) && PendingFirst(AllReasons(p.gateResults))
  {
    hide BuildPlan, PrimaryStatus, PendingFirst, EvaluateGates;
    PlanGates(host, context, assessments, m);
    StatusPending(BuildPlan(host, context, assessments, m).value.gateResults);
  }

  // ---- Which gates of a pending plan have failed ----

  ghost predicate HasFalse(gates: seq<GateResult>) {
    exists g :: g in gates && g.truth == False
  }

  /** Some gate is FALSE and nothing is permitted to resolve it. */
  ghost predicate HasUnresolvable(gates: seq<GateResult>) {
    exists g :: g in gates && g.truth == False && g.permittedResolution.None?
  }

  /** Some applicable rule fails. */
  ghost predicate SomeFails(host: Host, context: DecisionContext, m: PlanMaterial, index: AssessmentIndex) {
    exists rule :: rule in ApplicableGates(context, m) && Fails(host, rule, m, ValueMap(ActiveFacts(context)), index)
  }

  /** Some applicable rule without a permitted resolution fails. */
  ghost predicate SomeFailsForGood(host: Host, context: DecisionContext, m: PlanMaterial, index: AssessmentIndex) {
    exists rule :: rule in ApplicableGates(context, m) && rule.permittedResolution.None?
                   && Fails(host, rule, m, ValueMap(ActiveFacts(context)), index)
  }

  /** The publisher is not a seller who sealed the pack. */
  predicate Unsealed(m: PlanMaterial) {
    m.authority.Some? && m.authority != Some(SellerSealed)
  }

  lemma GateResolution(host: Host, gate: GateRule, m: PlanMaterial, buyer: map<string, FactValue>,
      index: AssessmentIndex)
    requires EvaluateGate(host, gate, m, buyer, index).Ok?
    ensures EvaluateGate(host, gate, m, buyer, index).value.permittedResolution == gate.permittedResolution
  {
    hide Collected, Conclude, Report;
  }

  lemma {:induction false} DependencyResolution(sourceId: string, issues: seq<string>, index: nat)
    ensures forall g ::
            g in DependencyGates(sourceId, issues, index) ==> g.truth == False && g.permittedResolution.None?
    ensures issues != [] ==> exists g :: g in DependencyGates(sourceId, issues, index)
  {
    if issues != [] {
      DependencyResolution(sourceId, issues[1..], index + 1);
      assert DependencyGates(sourceId, issues, index)[0] in DependencyGates(sourceId, issues, index);
    }
  }

  lemma OwnGates(host: Host, context: DecisionContext, m: PlanMaterial, index: AssessmentIndex)
    requires EvaluateGates(host, context, m, index).Ok?
    ensures var gates := EvaluateGates(host, context, m, index).value;
            && AvailabilityGate(m) in gates
            && (forall g :: g in DependencyGates(m.sourceId, m.dependencyIssues, 1) ==> g in gates)
            && (forall g :: g in AuthorityGates(m) ==> g in gates)
  {
    hide ApplicableGates, DependencyGates, AuthorityGates, ActiveFacts, ValueMap, EvaluateGate;
    var gates := EvaluateGates(host, context, m, index).value;
    assert gates[0] == AvailabilityGate(m);
  }

  lemma RuleGate(host: Host, context: DecisionContext, m: PlanMaterial, index: AssessmentIndex, rule: GateRule)
    returns (g: GateResult)
    requires EvaluateGates(host, context, m, index).Ok? && rule in ApplicableGates(context, m)
    ensures g in EvaluateGates(host, context, m, index).value
    ensures EvaluateGate(host, rule, m, ValueMap(ActiveFacts(context)), index) == Ok(g)
    ensures g.truth == False <==> Fails(host, rule, m, ValueMap(ActiveFacts(context)), index)
    ensures g.permittedResolution == rule.permittedResolution
  {
    hide EvaluateGates, EvaluateGate, ApplicableGates, Fails;
    RuleGates(host, context, m, index);
    g := EvaluateGate(host, rule, m, ValueMap(ActiveFacts(context)), index).value;
    FailsExact(host, rule, m, ValueMap(ActiveFacts(context)), index);
    GateResolution(host, rule, m, ValueMap(ActiveFacts(context)), index);
  }

  /** What a FALSE gate of a plan goes back to. */
  lemma FalseGateSource(host: Host, context: DecisionContext, m: PlanMaterial, index: AssessmentIndex, g: GateResult)
    requires EvaluateGates(host, context, m, index).Ok? && g in EvaluateGates(host, context, m, index).value
    requires g.truth == False
    ensures (g == AvailabilityGate(m) && !m.available) || m.dependencyIssues != []
            || (Unsealed(m) && g.permittedResolution.Some?)
            || (SomeFails(host, context, m, index)
                && (g.permittedResolution.None? ==> SomeFailsForGood(host, context, m, index)))
  {
    hide EvaluateGates, EvaluateGate, ApplicableGates, Fails;
    RuleGates(host, context, m, index);
    if rule :|
        rule in ApplicableGates(context, m)
          && EvaluateGate(host, rule, m, ValueMap(ActiveFacts(context)), index) == Ok(g) {
      var r := RuleGate(host, context, m, index, rule);
    }
  }

  /** Exactly what makes some gate of a plan FALSE, and some FALSE gate unresolvable. */
  lemma FalseGates(host: Host, context: DecisionContext, m: PlanMaterial, index: AssessmentIndex)
    requires EvaluateGates(host, context, m, index).Ok?
    ensures var gates := EvaluateGates(host, context, m, index).value;
            && (HasFalse(gates)
                <==> !m.available || m.dependencyIssues != [] || Unsealed(m) || SomeFails(host, context, m, index))
            && (HasUnresolvable(gates)
                <==> (!m.available && m.permittedResolution.None?) || m.dependencyIssues != []
                     || SomeFailsForGood(host, context, m, index))
  {
    hide EvaluateGates, EvaluateGate, ApplicableGates, Fails, ActiveFacts, ValueMap;
    var gates := EvaluateGates(host, context, m, index).value;
    OwnGates(host, context, m, index);
    DependencyResolution(m.sourceId, m.dependencyIssues, 1);
    if g :| g in gates && g.truth == False { FalseGateSource(host, context, m, index, g); }
    if g :|
        g in gates && g.truth == False && g.permittedResolution.None? { FalseGateSource(host, context, m, index, g); }
    if Unsealed(m) { assert AuthorityGates(m)[0] in AuthorityGates(m); }
    if rule :| rule in ApplicableGates(context, m) && Fails(host, rule, m, ValueMap(ActiveFacts(context)), index) {
      var g := RuleGate(host, context, m, index, rule);
    }
    if rule :|
        rule in ApplicableGates(context, m) && rule.permittedResolution.None?
          && Fails(host, rule, m, ValueMap(ActiveFacts(context)), index) {
      var g := RuleGate(host, context, m, index, rule);
    }
  }

  lemma PendingAvailable(host: Host, context: DecisionContext, assessments: seq<EvidenceAssessment>, m: PlanMaterial)
    requires BuildPlan(host, context, assessments, m).Ok?
    requires BuildPlan(host, context, assessments, m).value.lifecycle == ResolutionPending
    ensures m.available
  {
    hide BuildPlan, EvaluateGates, PrimaryStatus;
    PlanGates(host, context, assessments, m);
    var p := BuildPlan(host, context, assessments, m).value;
    OwnGates(host, context, m, IndexOf(assessments));
    if !m.available {
      StatusPrecedence(p.gateResults, AvailabilityGate(m), GateReason("UNAVAILABLE", Unavailable));
    }
  }

  /**
   * In every evaluation a pending plan has a FALSE gate exactly when a dependency is unmet, its publisher has
   * not sealed it, or an applicable rule fails; and one that nothing is permitted to resolve exactly when a
   * dependency is unmet or an applicable rule without a permitted resolution fails.
   */
  lemma PendingWithFalse(host: Host, input: DecisionInput, e: Evaluation, p: EvaluatedPlan, m: PlanMaterial)
    requires EvaluateOnce(host, input) == Ok(e) && p in e.plans && BuiltFrom(host, input.context, e, p, m)
    requires p.lifecycle == ResolutionPending
    ensures HasFalse(p.gateResults)
            <==> m.dependencyIssues != [] || Unsealed(m) || SomeFails(host, input.context, m, IndexOf(e.assessments))
    ensures HasUnresolvable(p.gateResults)
            <==> m.dependencyIssues != [] || SomeFailsForGood(host, input.context, m, IndexOf(e.assessments))
  {
    hide EvaluateOnce, BuildPlan, EvaluateGates, AllMaterials, HasFalse, HasUnresolvable, SomeFails, SomeFailsForGood;
    PendingAvailable(host, input.context, e.assessments, m);
    PlanGates(host, input.context, e.assessments, m);
    FalseGates(host, input.context, m, IndexOf(e.assessments));
  }

  // ---- An evaluation whose plan waits although it has failed for good ----

  /** Requires x, on which the evidence is stale, and the absence of y, which is there. */
  const WAITING_RULE := GateRule(
    "gate", [Predicate("x", Eq, Truth(true)), Predicate("y", Eq, Truth(false))], RequireMatch, SiraIneligible, "HAS_Y",
    {}, {}, {}, None)

  const FREE := OfferCost("offer", None, None, None, 1, [], false)
  const WAITING_FACTS := [FactOn("x", "a1"), FactOn("y", "a2")]
  const WAITING_ACTION :=
    CurrentAction("action", ReuseExisting, "product", WAITING_FACTS, FREE, true, Some("REFRESH_EVIDENCE"))

  const WAITING_CONTEXT := DecisionContext(
    2_000_000, [], [], [Witness("a1", 0), Witness("a2", 2_000_000)], [OneSecond("x"), OneSecond("y")],
    [WAITING_RULE], [], [], true, [WAITING_ACTION], map[], [], {}, None)

  const WAITING_INPUT := DecisionInput([], WAITING_CONTEXT)

  lemma WaitingNames()
    ensures "x" != "y" && "a1" != "a2"
  {
    assert "x"[0] != "y"[0] && "a1"[1] != "a2"[1];
  }

  lemma WaitingUnique()
    ensures WAITING_INPUT.UniqueIdentifiers()
  {
    WaitingNames();
  }

  lemma WaitingRecalled(host: Host)
    ensures RecallAndDeduplicate(host, WAITING_INPUT).Ok?
    ensures RecallAndDeduplicate(host, WAITING_INPUT).value.representatives == []
  {
    PlainRecallExact(host, WAITING_INPUT);
    var representatives := RecallAndDeduplicate(host, WAITING_INPUT).value.representatives;
    assert forall r :: r !in representatives;
  }

  lemma WaitingPairs(host: Host)
    ensures MaterialPairs(WAITING_CONTEXT, []) == {Pair("a1", "x"), Pair("a2", "y")}
  {
    assert WAITING_FACTS[0] == FactOn("x", "a1") && WAITING_FACTS[1] == FactOn("y", "a2");
    assert FactPairs(WAITING_FACTS) == {Pair("a1", "x"), Pair("a2", "y")};
    assert WAITING_CONTEXT.currentActions[0] == WAITING_ACTION;
  }

  lemma WaitingStale(host: Host)
    ensures var a := AssessPair(host, WAITING_CONTEXT, "a1", "x"); a.Ok? && a.value.state == EvidenceState.Stale
  {
    WaitingNames();
    FirstFound(WAITING_CONTEXT.evidencePolicies, (p: EvidencePolicy) => p.field == "x", 0);
    FirstFound(WAITING_CONTEXT.evidence, (r: EvidenceRecord) => r.evidenceId == "a1", 0);
  }

  lemma WaitingCurrent(host: Host)
    ensures var a := AssessPair(host, WAITING_CONTEXT, "a2", "y"); a.Ok? && a.value.state == Acceptable
  {
    WaitingNames();
    FirstFound(WAITING_CONTEXT.evidencePolicies, (p: EvidencePolicy) => p.field == "y", 1);
    FirstFound(WAITING_CONTEXT.evidence, (r: EvidenceRecord) => r.evidenceId == "a2", 1);
  }

  lemma WaitingAssessed(host: Host)
    ensures AssessEvidence(host, WAITING_CONTEXT, []).Ok?
    ensures var index := IndexOf(AssessEvidence(host, WAITING_CONTEXT, []).value);
            && ("a1", "x") in index && index[("a1", "x")].state == EvidenceState.Stale
            && ("a2", "y") in index && index[("a2", "y")].state == Acceptable
  {
    hide AssessPair, MaterialPairs, IndexOf;
    WaitingPairs(host);
    WaitingStale(host);
    WaitingCurrent(host);
    var pairs := SortedTuples(MaterialPairs(WAITING_CONTEXT, []));
    TraversePointwise(pairs, Assessor(host, WAITING_CONTEXT));
    forall i | 0 <= i < |pairs| ensures Assessor(host, WAITING_CONTEXT)(pairs[i]).Ok? {
      assert pairs[i] in pairs;
    }
    AssessedExactly(host, WAITING_CONTEXT, []);
  }

  /** Stale on x, acceptable and TRUE on y. */
  ghost predicate SplitFields(host: Host, index: AssessmentIndex) {
    && FieldStateOf(host, WAITING_FACTS, "x", index).state == EvidenceState.Stale
    && FieldStateOf(host, WAITING_FACTS, "y", index).state == Acceptable
    && FieldStateOf(host, WAITING_FACTS, "y", index).values == [Truth(true)]
  }

  lemma WaitingStates(host: Host, index: AssessmentIndex)
    requires ("a1", "x") in index && index[("a1", "x")].state == EvidenceState.Stale
    requires ("a2", "y") in index && index[("a2", "y")].state == Acceptable
    ensures SplitFields(host, index)
  {
    hide FieldStateOf, Backed, OneValue;
    WaitingNames();
    TwoFacts(WAITING_FACTS, "x", "a1", "y", "a2", index);
    FieldStateExact(host, WAITING_FACTS, "x", index);
    FieldStateExact(host, WAITING_FACTS, "y", index);
    FieldStateShape(host, WAITING_FACTS, "y", index);
    StatedValue(host, WAITING_FACTS, "y", index);
    var values := FieldStateOf(host, WAITING_FACTS, "y", index).values;
    assert values[0] in values && values == [values[0]];
    assert forall f :: f in WAITING_FACTS ==> f.value == Truth(true);
  }

  lemma StatedValue(host: Host, facts: seq<ProductFact>, field: string, index: AssessmentIndex)
    ensures forall v ::
            v in FieldStateOf(host, facts, field, index).values ==>
              exists f :: f in facts && f.field == field && f.value == v
  {
    forall v | v in FieldStateOf(host, facts, field, index).values
      ensures exists f :: f in facts && f.field == field && f.value == v
    {
      ValueStated(host, facts, field, v);
    }
  }

  lemma StaleTally(host: Host, p: Predicate, s: FieldState)
    requires s.state == EvidenceState.Stale
    ensures BuyerPredicateTally(host, p, [s])
            == Ok(Tally({TruthValue.Unknown}, [GateReason("STALE_EVIDENCE", StaleEvidence)]))
  {
    assert s in [s] && forall x :: x in [s] ==> x == s;
  }

  lemma MismatchTally(host: Host, p: Predicate, s: FieldState)
    requires s.state == Acceptable && |s.values| == 1 && Matches(host, s.values[0], p) == Ok(false)
    ensures BuyerPredicateTally(host, p, [s]) == Ok(Tally({False}, []))
  {
    assert forall x :: x in [s] ==> x == s;
    AllMatchSingle(host, p, s);
    TraverseOne(s, StateMatcher(host, p), false);
    var truths := set b | b in [false] :: if b then True else False;
    assert false in [false];
    assert truths == {False};
  }

  /** One predicate stale and the other failed: the rule evaluates, and reports both. */
  lemma StaleAndFailed(host: Host, gate: GateRule, m: PlanMaterial, buyer: map<string, FactValue>,
      index: AssessmentIndex, p: Predicate, q: Predicate)
    requires gate.predicates == [p, q] && gate.mode == RequireMatch && gate.blockedStatus != SeilPass
             && |m.componentIds| == 1
    requires FieldStateOf(host, m.gateFacts, p.field, index).state == EvidenceState.Stale
    requires var s := FieldStateOf(host, m.gateFacts, q.field, index);
             s.state == Acceptable && |s.values| == 1 && Matches(host, s.values[0], q) == Ok(false)
    ensures var r := EvaluateGate(host, gate, m, buyer, index);
            && r.Ok? && r.value.truth == False
            && (forall x ::
                 x in r.value.reasons <==> x == GateReason("STALE_EVIDENCE", StaleEvidence) || x == OwnReason(gate))
  {
    hide FieldStateOf, Matches, Report;
    var stale := GateReason("STALE_EVIDENCE", StaleEvidence);
    var s, t := FieldStateOf(host, m.gateFacts, p.field, index), FieldStateOf(host, m.gateFacts, q.field, index);
    StaleTally(host, p, s);
    MismatchTally(host, q, t);
    var tallier := Tallier(host, gate, m, buyer, index);
    assert tallier(p) == Ok(Tally({TruthValue.Unknown}, [stale])) && tallier(q) == Ok(Tally({False}, []));
    TwoTallies(gate.predicates, tallier, p, q);
    ReportKeeps([stale] + [OwnReason(gate)]);
    var collected := Collected(host, gate, m, buyer, index);
    assert [] + ([stale] + []) == [stale] && {} + ({TruthValue.Unknown} + {False}) == {TruthValue.Unknown, False};
    assert collected == Ok(Tally({TruthValue.Unknown, False}, [stale]));
    assert Conclude(gate, collected.value) == (False, [stale] + [OwnReason(gate)]);
  }

  lemma TwoTallies(ps: seq<Predicate>, tallier: Predicate -> Result<Tally, Error>, p: Predicate, q: Predicate)
    requires ps == [p, q] && tallier(p).Ok? && tallier(q).Ok?
    ensures Traverse(ps, tallier).Ok?
    ensures SumTallies(Traverse(ps, tallier).value) == tallier(p).value.Plus(tallier(q).value)
  {
    assert ps[1..] == [q] && [q][1..] == [];
    var ts := [tallier(p).value, tallier(q).value];
    TraverseOne(q, tallier, tallier(q).value);
    assert Traverse(ps[1..], tallier) == Ok([tallier(q).value]);
    assert Traverse(ps, tallier) == Ok([tallier(p).value] + [tallier(q).value]);
    assert ts[1..] == [tallier(q).value] && ts[1..][1..] == [];
    assert SumTallies(ts[1..]) == tallier(q).value.Plus(Tally({}, []));
    assert tallier(q).value.Plus(Tally({}, [])) == tallier(q).value;
  }

  const WAITING_MATERIAL := CurrentMaterial(WAITING_ACTION)

  lemma WaitingGates(host: Host, index: AssessmentIndex) returns (r: GateResult)
    requires SplitFields(host, index)
    ensures EvaluateGates(host, WAITING_CONTEXT, WAITING_MATERIAL, index) == Ok([AvailabilityGate(WAITING_MATERIAL), r])
    ensures r.truth == False && r.permittedResolution.None?
    ensures forall x ::
            x in r.reasons <==> x == GateReason("STALE_EVIDENCE", StaleEvidence) || x == OwnReason(WAITING_RULE)
  {
    hide EvaluateGate, FieldStateOf;
    var rule := WAITING_RULE;
    StaleAndFailed(host, rule, WAITING_MATERIAL, map[], index, rule.predicates[0], rule.predicates[1]);
    GateResolution(host, rule, WAITING_MATERIAL, map[], index);
    r := EvaluateGate(host, rule, WAITING_MATERIAL, map[], index).value;
    SortOne(rule, ByKey(GateOrder));
    assert [rule][1..] == [];
    assert ActiveFacts(WAITING_CONTEXT) == [] && ActiveSourceIds(WAITING_CONTEXT) == {};
    assert ApplicableGates(WAITING_CONTEXT, WAITING_MATERIAL) == [rule];
    TraverseOne(rule, GateEvaluator(host, WAITING_MATERIAL, map[], index), r);
    assert [AvailabilityGate(WAITING_MATERIAL)] + [] + [] + [r] == [AvailabilityGate(WAITING_MATERIAL), r];
  }

  lemma WaitingMeasured(host: Host, assessments: seq<EvidenceAssessment>)
    ensures DimensionsOf(host, WAITING_CONTEXT, WAITING_MATERIAL, assessments).Ok?
  {
    hide IndexOf, AggregateAge, MaterialAssessments;
    assert ApplicableCriteria(WAITING_CONTEXT, WAITING_MATERIAL) == [];
    assert SortBy(WAITING_CONTEXT.riskRules, RuleKey) == [];
  }

  lemma WaitingResolution(r: GateResult)
    requires r.permittedResolution.None?
    ensures PermittedResolution([AvailabilityGate(WAITING_MATERIAL), r], WAITING_MATERIAL) == Some("REFRESH_EVIDENCE")
  {
    var gates := [AvailabilityGate(WAITING_MATERIAL), r];
    assert (set g | g in gates && g.reasons != [] && g.permittedResolution.Some? :: g.permittedResolution.value) == {};
    assert PendingResolutions(gates) == [];
  }

  lemma WaitingReasons(r: GateResult)
    requires forall x ::
             x in r.reasons <==> x == GateReason("STALE_EVIDENCE", StaleEvidence) || x == OwnReason(WAITING_RULE)
    ensures PendingFirst(AllReasons([AvailabilityGate(WAITING_MATERIAL), r]))
  {
    var gates := [AvailabilityGate(WAITING_MATERIAL), r];
    assert AllReasons(gates) == r.reasons by {
      assert gates[1..] == [r] && [r][1..] == [];
      assert FlatMap([r], ReasonsOf) == ReasonsOf(r) + FlatMap([r][1..], ReasonsOf);
      assert ReasonsOf(r) + [] == r.reasons && [] + r.reasons == r.reasons;
      assert FlatMap(gates, ReasonsOf) == ReasonsOf(gates[0]) + FlatMap(gates[1..], ReasonsOf);
    }
    assert GateReason("STALE_EVIDENCE", StaleEvidence) in r.reasons;
  }

  lemma BuildsFrom(host: Host, context: DecisionContext, assessments: seq<EvidenceAssessment>, m: PlanMaterial,
      gates: seq<GateResult>)
    requires EvaluateGates(host, context, m, IndexOf(assessments)) == Ok(gates)
    requires DimensionsOf(host, context, m, assessments).Ok?
    ensures var p := BuildPlan(host, context, assessments, m);
            p.Ok? && p.value.gateResults == gates && p.value.permittedResolution == PermittedResolution(gates, m)
  {
    hide EvaluateGates, DimensionsOf, PermittedResolution, PrimaryStatus;
  }

  lemma WaitingBuilt(host: Host, assessments: seq<EvidenceAssessment>) returns (p: EvaluatedPlan)
    requires SplitFields(host, IndexOf(assessments))
    ensures BuildPlan(host, WAITING_CONTEXT, assessments, WAITING_MATERIAL) == Ok(p)
    ensures p.lifecycle == ResolutionPending && HasUnresolvable(p.gateResults)
  {
    hide EvaluateGates, DimensionsOf, BuildPlan, IndexOf, PendingFirst, AllReasons, SplitFields, PermittedResolution;
    var r := WaitingGates(host, IndexOf(assessments));
    var gates := [AvailabilityGate(WAITING_MATERIAL), r];
    WaitingMeasured(host, assessments);
    BuildsFrom(host, WAITING_CONTEXT, assessments, WAITING_MATERIAL, gates);
    WaitingResolution(r);
    WaitingReasons(r);
    PendingExact(host, WAITING_CONTEXT, assessments, WAITING_MATERIAL);
    p := BuildPlan(host, WAITING_CONTEXT, assessments, WAITING_MATERIAL).value;
    assert gates[1] == r;
  }

  lemma WaitingMaterials(host: Host)
    ensures AllMaterials(host, WAITING_CONTEXT, []) == Ok([WAITING_MATERIAL])
  {
    assert Relabelled(host, WAITING_CONTEXT, []) == [];
    assert [WAITING_ACTION][1..] == [];
    assert [] + Map(WAITING_CONTEXT.currentActions, CurrentMaterial) == [WAITING_MATERIAL];
    SortOne(WAITING_MATERIAL, ByKey(MaterialKey));
  }

  /** Plans that wait are not ranked. */
  lemma NothingRanked(p: EvaluatedPlan)
    requires !p.status.IsEligible()
    ensures Rank([p]).Ok?
  {
    assert Filter([p], HasEligibleStatus) == [];
    assert CostSignatures([p]) == {};
  }

  lemma WaitingNotEligible(host: Host, assessments: seq<EvidenceAssessment>, p: EvaluatedPlan)
    requires BuildPlan(host, WAITING_CONTEXT, assessments, WAITING_MATERIAL) == Ok(p)
             && p.lifecycle == ResolutionPending
    ensures !p.status.IsEligible()
  {
    hide EvaluateGates, DimensionsOf, PermittedResolution, PrimaryStatus;
  }

  /**
   * An evaluation whose one plan, an action of the current stack with stale evidence on one field, waits for
   * a refresh although its gate has failed on another field and nothing is permitted to resolve that.
   */
  lemma WaitsThoughFailed(host: Host) returns (e: Evaluation, p: EvaluatedPlan)
    ensures EvaluateOnce(host, WAITING_INPUT) == Ok(e) && e.plans == [p]
    ensures p.lifecycle == ResolutionPending && HasUnresolvable(p.gateResults)
  {
    hide BuildPlan, RecallAndDeduplicate, AssessEvidence, AllMaterials, Rank, HasUnresolvable, SplitFields, IndexOf;
    WaitingUnique();
    WaitingRecalled(host);
    var recall := RecallAndDeduplicate(host, WAITING_INPUT).value;
    WaitingAssessed(host);
    var assessments := AssessEvidence(host, WAITING_CONTEXT, []).value;
    WaitingStates(host, IndexOf(assessments));
    p := WaitingBuilt(host, assessments);
    WaitingMaterials(host);
    TraverseOne(WAITING_MATERIAL, PlanBuilder(host, WAITING_CONTEXT, assessments), p);
    WaitingNotEligible(host, assessments, p);
    NothingRanked(p);
    e := Evaluation(recall, assessments, [p], Rank([p]).value);
  }
}
