/** Mapping verified trial verdicts onto the decision graph. */
module Bridge {
  import opened Outcomes
  import opened Ordering
  import opened Domain
  import opened Bounds
  import opened GraphModels
  import opened Engine
  import opened GraphLoops

  /** The gates a proof manifest can carry, and the canary that is always active. */
  datatype ProofGate = FunctionalCanary | ExecutionRegion | RequiredSchema | RawPii {
    /** The gate identifier in lower case; other identifiers are built from it. */
    function Lower(): string {
      match this
      case FunctionalCanary => "functional_canary_passed"
      case ExecutionRegion => "execution_region_allowed"
      case RequiredSchema => "required_schema_supported"
      case RawPii => "raw_pii_egress_forbidden"
    }

    function Field(): string {
      "proof." + Lower()
    }

    function SourceId(): string {
      "manifest_" + Lower()
    }

    function RuleId(): string {
      "proof_gate_" + Lower()
    }

    /** The reason code a failed gate reports: its own identifier. */
    function Name(): string {
      match this
      case FunctionalCanary => "FUNCTIONAL_CANARY_PASSED"
      case ExecutionRegion => "EXECUTION_REGION_ALLOWED"
      case RequiredSchema => "REQUIRED_SCHEMA_SUPPORTED"
      case RawPii => "RAW_PII_EGRESS_FORBIDDEN"
    }
  }

  /** What a trial can fail: a gate, or running at all. */
  datatype Failure = GateFailed(gate: ProofGate) | RuntimeIncomplete

  datatype CandidateVerdict = CandidateVerdict(adapterId: string, eligible: bool, failed: set<Failure>, priceCents: nat)

  const PRICE_FIELD := "proof.declared_price_cents"
  const PRICE_POLICY := "proof_fixed_price_policy"

  /** All gates by identifier, which is the order active manifest gates are listed in. */
  const GATES_BY_NAME := [ExecutionRegion, FunctionalCanary, RawPii, RequiredSchema]

  function ActiveGates(manifestGates: set<ProofGate>): seq<ProofGate> {
    [FunctionalCanary] + Filter(GATES_BY_NAME, (g: ProofGate) => g in manifestGates)
  }

  function Suffix(adapterId: string): string {
    Map(adapterId, Underscored)
  }

  function Underscored(c: char): char {
    if c == '-' then '_' else c
  }

  /** The offer identifier of an adapter. */
  function OfferIdOf(adapterId: string): string { "proof_offer_" + Suffix(adapterId) }

  function TrialRecordId(v: CandidateVerdict): string { "proof_record_" + Suffix(v.adapterId) }

  function TrialEvidenceId(v: CandidateVerdict): string { "proof_evidence_" + Suffix(v.adapterId) }

  function TrialOfferId(v: CandidateVerdict): string { OfferIdOf(v.adapterId) }

  function GateFact(g: ProofGate): BuyerFact {
    BuyerFact(g.SourceId(), g.Field(), Truth(true), true)
  }

  const PRICE_FACT := BuyerFact(PRICE_POLICY, "proof.price_policy", Text("LOWER_IS_BETTER"), false)

  function Passed(v: CandidateVerdict, g: ProofGate): bool {
    GateFailed(g) !in v.failed
  }

  function TrialGateFact(v: CandidateVerdict): ProofGate -> ProductFact {
    (g: ProofGate) => ProductFact(g.Field(), Truth(Passed(v, g)), {TrialEvidenceId(v)}, None)
  }

  function TrialPriceFact(v: CandidateVerdict): ProductFact {
    ProductFact(PRICE_FIELD, Whole(v.priceCents), {TrialEvidenceId(v)}, None)
  }

  function TrialFacts(active: seq<ProofGate>, v: CandidateVerdict): seq<ProductFact> {
    Map(active, TrialGateFact(v)) + [TrialPriceFact(v)]
  }

  function TrialCandidate(active: seq<ProofGate>): CandidateVerdict -> RawCandidate {
    (v: CandidateVerdict) => RawCandidate(
      TrialRecordId(v), "proof_pack_" + Suffix(v.adapterId), 1, "proof_seller_" + Suffix(v.adapterId),
      v.adapterId, "curated-v1", "EU", TrialOfferId(v), SellerSealed, true,
      TrialFacts(active, v), {}, {}, {}, Published, {})
  }

  function TrialOffer(v: CandidateVerdict): OfferCost {
    var price := Some(Money(v.priceCents, "USD"));
    OfferCost(TrialOfferId(v), price, price, price, 1, [], false)
  }

  const SOURCE_CLASS := "CURATED_ADAPTER_RUNTIME"
  const METHOD := "DETERMINISTIC_REPLAY"
  const SCOPE := "proof-campaign-v1"

  function TrialEvidence(evaluatedAt: int): CandidateVerdict -> EvidenceRecord {
    (v: CandidateVerdict) => EvidenceRecord(
      TrialEvidenceId(v), SOURCE_CLASS, METHOD, SCOPE, true, Some(ObservedTime(evaluatedAt, evaluatedAt)), false, false)
  }

  function TrialPolicy(field: string): EvidencePolicy {
    EvidencePolicy(field, {SOURCE_CLASS}, {METHOD}, SCOPE, 3600)
  }

  function FieldOf(g: ProofGate): string { g.Field() }

  function PolicyFields(active: seq<ProofGate>): set<string> {
    (set g | g in active :: FieldOf(g)) + {PRICE_FIELD}
  }

  function TrialGate(g: ProofGate): GateRule {
    GateRule(g.RuleId(), [Predicate(g.Field(), Eq, Truth(true))], RequireMatch, SiraIneligible, g.Name(),
             {g.SourceId()}, {Replace}, {}, None)
  }

  const PRICE_CRITERION := PreferenceCriterion(
    "proof_declared_price", PRICE_FIELD, 5, 5, LowerIsBetter, Whole(0), {PRICE_POLICY}, {Replace},
    {0.0, 1.0}, [(2, 1.0), (5, 0.0)], None, None, None, PrimaryComponent)

  const ADAPTER_RISK := RiskRule("proof_curated_adapter_risk", {Replace}, None, RiskBounds(Low, Low, Low), None)

  function TrialContext(active: seq<ProofGate>, verdicts: seq<CandidateVerdict>, evaluatedAt: int): DecisionContext {
    DecisionContext(
      evaluatedAt,
      Map(active, GateFact) + [PRICE_FACT],
      Map(verdicts, TrialOffer),
      Map(verdicts, TrialEvidence(evaluatedAt)),
      Map(SortedIds(PolicyFields(active)), TrialPolicy),
      Map(active, TrialGate),
      [PRICE_CRITERION],
      [ADAPTER_RISK],
      true,
      [], map[], [], {}, None)
  }

  function BuildDecisionGraphInput(manifestGates: set<ProofGate>, verdicts: seq<CandidateVerdict>, evaluatedAt: int)
    : DecisionInput
  {
    var active := ActiveGates(manifestGates);
    DecisionInput(Map(verdicts, TrialCandidate(active)), TrialContext(active, verdicts, evaluatedAt))
  }

  /** Assembles the input verdict by verdict and field by field. */
  method AssembleInput(manifestGates: set<ProofGate>, verdicts: seq<CandidateVerdict>, evaluatedAt: int)
    returns (input: DecisionInput)
    ensures input == BuildDecisionGraphInput(manifestGates, verdicts, evaluatedAt)
  {
    hide TrialFacts, TrialCandidate, TrialOffer, TrialEvidence, TrialPolicy, ActiveGates, PolicyFields;
    var active := ActiveGates(manifestGates);
    var fields := SortedIds(PolicyFields(active));
    var policies: seq<EvidencePolicy> := [];
    assert fields[..0] == [] && verdicts[..0] == [];
    for i := 0 to |fields|
      invariant policies == Map(fields[..i], TrialPolicy)
    {
      assert fields[..i + 1] == fields[..i] + [fields[i]];
      MapSnoc(fields[..i], fields[i], TrialPolicy);
      policies := policies + [TrialPolicy(fields[i])];
    }
    var candidates: seq<RawCandidate>, offers: seq<OfferCost>, evidence: seq<EvidenceRecord> := [], [], [];
    for i := 0 to |verdicts|
      invariant candidates == Map(verdicts[..i], TrialCandidate(active))
      invariant offers == Map(verdicts[..i], TrialOffer)
      invariant evidence == Map(verdicts[..i], TrialEvidence(evaluatedAt))
    {
      var v := verdicts[i];
      assert verdicts[..i + 1] == verdicts[..i] + [v];
      MapSnoc(verdicts[..i], v, TrialCandidate(active));
      MapSnoc(verdicts[..i], v, TrialOffer);
      MapSnoc(verdicts[..i], v, TrialEvidence(evaluatedAt));
      candidates := candidates + [TrialCandidate(active)(v)];
      offers := offers + [TrialOffer(v)];
      evidence := evidence + [TrialEvidence(evaluatedAt)(v)];
    }
    assert fields[..|fields|] == fields && verdicts[..|verdicts|] == verdicts;
    var context := TrialContext(active, verdicts, evaluatedAt);
    input := DecisionInput(candidates, context.(offers := offers, evidence := evidence, evidencePolicies := policies));
  }

  function PlanWith(plans: seq<EvaluatedPlan>, planId: string): Option<EvaluatedPlan> {
    if plans == [] then None
    else if plans[0].planId == planId then Some(plans[0])
    else PlanWith(plans[1..], planId)
  }

  datatype Winner = Winner(adapterId: string, planId: string)

  /** Run the whole decision graph on the verdicts and read off the selected adapter. */
  function EvaluateWithDecisionGraph(host: Host, manifestGates: set<ProofGate>, verdicts: seq<CandidateVerdict>,
      evaluatedAt: int)
    : Result<Winner, Error>
  {
    var evaluation :- EvaluateOnce(host, BuildDecisionGraphInput(manifestGates, verdicts, evaluatedAt));
    match evaluation.SelectedPlanId()
    case None => Raise(NoStableWinner)
    case Some(planId) =>
      match PlanWith(evaluation.plans, planId)
      case None => Raise(NoStableWinner)
      case Some(plan) =>
        if |plan.componentIds| != 1 then Raise(NoStableWinner)
        else Ok(Winner(plan.componentIds[0], planId))
  }

  /** The first plan with the identifier. */
  method FindPlan(plans: seq<EvaluatedPlan>, planId: string) returns (r: Option<EvaluatedPlan>)
    ensures r == PlanWith(plans, planId)
  {
    assert plans[0..] == plans;
    for i := 0 to |plans|
      invariant PlanWith(plans, planId) == PlanWith(plans[i..], planId)
    {
      assert plans[i..][1..] == plans[i + 1..];
      if plans[i].planId == planId {
        return Some(plans[i]);
      }
    }
    r := None;
  }

  /** Assembles the input, runs the decision graph on it, and reads the winner off the selected plan. */
  method RunBridge(host: Host, manifestGates: set<ProofGate>, verdicts: seq<CandidateVerdict>, evaluatedAt: int)
    returns (r: Result<Winner, Error>)
    ensures r == EvaluateWithDecisionGraph(host, manifestGates, verdicts, evaluatedAt)
  {
    hide EvaluateOnce, BuildDecisionGraphInput, PlanWith;
    var input := AssembleInput(manifestGates, verdicts, evaluatedAt);
    var evaluation := RunEvaluation(host, input);
    if evaluation.Raise? {
      return Raise(evaluation.error);
    }
    if evaluation.value.ranking.rankedPlanIds == [] {
      return Raise(NoStableWinner);
    }
    var planId := evaluation.value.ranking.rankedPlanIds[0];
    var plan := FindPlan(evaluation.value.plans, planId);
    if plan.None? || |plan.value.componentIds| != 1 {
      return Raise(NoStableWinner);
    }
    r := Ok(Winner(plan.value.componentIds[0], planId));
  }
}
