/** Value objects of the decision graph: frozen facts, policy and offers. */
module GraphModels {
  import opened Outcomes
  import opened Ordering
  import opened Domain
  import opened Bounds

  datatype FactValue = Absent | Truth(flag: bool) | Whole(number: int) | Text(text: string) | Names(items: seq<string>)

  datatype Operator = Eq | Neq | In | ContainsAll | Lte | Lt | Gte | Gt | Exists | OtherOperator

  datatype Predicate = Predicate(field: string, operator: Operator, value: FactValue)

  datatype ProductFact = ProductFact(field: string, value: FactValue, evidenceIds: set<string>,
      componentId: Option<string>)

  /** A frozen statement about the buyer; a private one may be removed for a counterfactual. */
  datatype BuyerFact = BuyerFact(factId: string, field: string, value: FactValue, private: bool)

  datatype EvidenceState = Acceptable | Unknown | Stale | Conflict

  datatype ObservedTime = ObservedTime(lower: int, upper: int)

  datatype EvidenceRecord = EvidenceRecord(
    evidenceId: string,
    sourceClass: string,
    verificationMethod: string,
    verificationScope: string,
    reconstructable: bool,
    observed: Option<ObservedTime>,
    disputed: bool,
    revoked: bool)

  datatype EvidencePolicy = EvidencePolicy(
    field: string,
    allowedSourceClasses: set<string>,
    allowedMethods: set<string>,
    requiredScope: string,
    freshnessSlaSeconds: nat)
  {
    predicate Valid() { freshnessSlaSeconds >= 1 }
  }

  datatype EvidenceAssessment = EvidenceAssessment(
    evidenceId: string,
    field: string,
    state: EvidenceState,
    timeUnavailable: bool,
    ageBounds: Option<Interval>)

  /** Assessments indexed by evidence identifier and field. */
  type AssessmentIndex = map<(string, string), EvidenceAssessment>

  datatype PackStatus = Published | Revoked | Superseded

  datatype RawCandidate = RawCandidate(
    recordId: string,
    packId: string,
    packVersion: nat,
    sellerId: string,
    productId: string,
    edition: string,
    region: string,
    offerId: string,
    authority: PackAuthority,
    available: bool,
    facts: seq<ProductFact>,
    sellerGateIds: set<string>,
    categoryIds: set<string>,
    jtbdIds: set<string>,
    packStatus: PackStatus,
    requiredProductIds: set<string>)

  datatype LineItemType =
    | MerchantSubtotal
    | SiraTransactionFee
    | Tax
    | ContractCost
    | MigrationCost
    | ImplementationCost

  datatype CostLineItem = CostLineItem(kind: LineItemType, low: Money, base: Money, high: Money)

  datatype OfferCost = OfferCost(
    offerId: string,
    low: Option<Money>,
    base: Option<Money>,
    high: Option<Money>,
    horizonDays: nat,
    lineItems: seq<CostLineItem>,
    paymentRequired: bool)

  datatype GateMode = RequireMatch | BlockOnMatch

  datatype GateRule = GateRule(
    gateId: string,
    predicates: seq<Predicate>,
    mode: GateMode,
    blockedStatus: CandidateStatus,
    reasonCode: string,
    sourceFactIds: set<string>,
    appliesToActions: set<SolutionAction>,
    evidenceClaimIds: set<string>,
    permittedResolution: Option<string>)

  datatype GateReason = GateReason(code: string, status: CandidateStatus)

  datatype GateResult = GateResult(
    gateId: string,
    truth: TruthValue,
    reasons: seq<GateReason>,
    evaluatedPredicates: seq<string>,
    permittedResolution: Option<string>)

  datatype Normalization = BooleanEquals | SetContainsAll | LowerIsBetter | OutcomeRate

  datatype Aggregation = PrimaryComponent | All | Any | Min | Max | Sum | Union

  datatype PreferenceCriterion = PreferenceCriterion(
    criterionId: string,
    field: string,
    weight: nat,
    coverageWeight: nat,
    normalization: Normalization,
    expected: FactValue,
    sourceFactIds: set<string>,
    appliesToActions: set<SolutionAction>,
    allowedSatisfactions: set<real>,
    lowerIsBetterPoints: seq<(int, real)>,
    unknownUpper: Option<real>,
    permittedEvidenceResolution: Option<string>,
    neutralPrior: Option<real>,
    aggregation: Aggregation)
  {
    /** What construction checks. */
    predicate Valid() {
      && 1 <= weight <= 5 && 1 <= coverageWeight <= 5
      && 0.0 in allowedSatisfactions
      && (forall s :: s in allowedSatisfactions ==> 0.0 <= s <= 1.0)
      && (unknownUpper.Some? ==> unknownUpper.value in allowedSatisfactions)
      && (neutralPrior.Some? ==> neutralPrior.value in allowedSatisfactions)
      && (normalization == LowerIsBetter ==>
            lowerIsBetterPoints != [] && forall p :: p in lowerIsBetterPoints ==> p.1 in allowedSatisfactions)
      && (normalization == SetContainsAll ==> expected.Names?)
      && (normalization == OutcomeRate ==> neutralPrior.Some?)
    }
  }

  datatype RiskRule = RiskRule(
    ruleId: string,
    actions: set<SolutionAction>,
    predicate_: Option<Predicate>,
    bounds: RiskBounds,
    missing: Option<RiskBounds>)
  {
    predicate Valid() {
      bounds.Valid() && (missing.Some? ==> missing.value.Valid())
    }
  }

  datatype CurrentAction = CurrentAction(
    actionId: string,
    action: SolutionAction,
    instanceId: string,
    facts: seq<ProductFact>,
    cost: OfferCost,
    available: bool,
    permittedResolution: Option<string>)

  datatype OutcomeObservation = OutcomeObservation(
    subjectId: string,
    criterionId: string,
    value: real,
    evidenceIds: set<string>,
    sourceFactIds: set<string>)

  datatype RecallPolicy = RecallPolicy(categoryId: string, jtbdId: string, allowedRegions: set<string>)

  /** Everything frozen for one evaluation except the candidate records. */
  datatype DecisionContext = DecisionContext(
    evaluatedAt: int,
    buyerFacts: seq<BuyerFact>,
    offers: seq<OfferCost>,
    evidence: seq<EvidenceRecord>,
    evidencePolicies: seq<EvidencePolicy>,
    gates: seq<GateRule>,
    preferences: seq<PreferenceCriterion>,
    riskRules: seq<RiskRule>,
    riskRuleSetComplete: bool,
    currentActions: seq<CurrentAction>,
    aliases: map<string, string>,
    outcomes: seq<OutcomeObservation>,
    removedFactIds: set<string>,
    recallPolicy: Option<RecallPolicy>)

  function FactId(f: BuyerFact): string { f.factId }

  function RecordId(c: RawCandidate): string { c.recordId }

  function OfferId(o: OfferCost): string { o.offerId }

  function EvidenceId(e: EvidenceRecord): string { e.evidenceId }

  function PolicyField(p: EvidencePolicy): string { p.field }

  function GateId(g: GateRule): string { g.gateId }

  function CriterionId(c: PreferenceCriterion): string { c.criterionId }

  function RuleId(r: RiskRule): string { r.ruleId }

  function ActionId(a: CurrentAction): string { a.actionId }

  datatype DecisionInput = DecisionInput(candidates: seq<RawCandidate>, context: DecisionContext) {
    /** Identifiers are unique within every group, as construction checks. */
    predicate UniqueIdentifiers() {
      && Distinct(Map(context.buyerFacts, FactId))
      && Distinct(Map(candidates, RecordId))
      && Distinct(Map(context.offers, OfferId))
      && Distinct(Map(context.evidence, EvidenceId))
      && Distinct(Map(context.evidencePolicies, PolicyField))
      && Distinct(Map(context.gates, GateId))
      && Distinct(Map(context.preferences, CriterionId))
      && Distinct(Map(context.riskRules, RuleId))
      && Distinct(Map(context.currentActions, ActionId))
    }
  }

  /** Seller, product, edition and region after normalization. */
  datatype IdentityKey = IdentityKey(seller: string, product: string, edition: string, region: string) {
    function Parts(): seq<string> {
      [seller, product, edition, region]
    }
  }

  /**
   * The operations the program takes from its platform: text folding, hashing into identifiers, and
   * conversion between amounts and decimal text. Theorems name what they need of these.
   */
  datatype Host = Host(
    fold: string -> string,
    valueHash: FactValue -> string,
    canonicalId: IdentityKey -> string,
    bundleId: seq<string> -> string,
    planId: (SolutionAction, seq<string>) -> string,
    decimalText: nat -> string,
    numberText: real -> string,
    parseNumber: string -> Option<real>)
}
