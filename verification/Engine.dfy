/** The decision graph: plans, ranking and frontiers, end to end. */
module Engine {
  import opened Outcomes
  import opened Ordering
  import opened Domain
  import opened Stability
  import opened GraphModels
  import opened Recall
  import opened Evidence
  import opened Gates
  import opened Dimensions
  import opened Materials

  datatype PlanLifecycle = Candidate | ResolutionPending | Executable | Blocked

  datatype EvaluatedPlan = EvaluatedPlan(
    planId: string,
    action: SolutionAction,
    componentIds: seq<string>,
    lifecycle: PlanLifecycle,
    status: CandidateStatus,
    primaryReason: Option<GateReason>,
    gateResults: seq<GateResult>,
    dimensions: PlanDimensions,
    stableActionIds: seq<string>,
    permittedResolution: Option<string>)

  // ---- One plan ----

  function Join(parts: seq<string>): string {
    if parts == [] then ""
    else if |parts| == 1 then parts[0]
    else parts[0] + "+" + Join(parts[1..])
  }

  function PendingResolutions(gates: seq<GateResult>): seq<string> {
    SortedIds(set g | g in gates && g.reasons != [] && g.permittedResolution.Some? :: g.permittedResolution.value)
  }

  /** The resolutions the gates with reasons permit, else the one the action permits. */
  function PermittedResolution(gates: seq<GateResult>, m: PlanMaterial): Option<string> {
    var pending := PendingResolutions(gates);
    if |pending| == 1 then Some(pending[0])
    else if Join(pending) != "" then Some(Join(pending))
    else m.permittedResolution
  }

  predicate IsPending(status: CandidateStatus) {
    status == Conditional || status == StaleEvidence || status == InsufficientEvidence || status == AdvisoryOnly
  }

  function LifecycleOf(status: CandidateStatus, bounded: bool, resolution: Option<string>): PlanLifecycle {
    if status.IsEligible() then (if bounded then Executable else Blocked)
    else if IsPending(status) && resolution.Some? && resolution.value != "" then ResolutionPending
    else Blocked
  }

  function BuildPlan(host: Host, context: DecisionContext, assessments: seq<EvidenceAssessment>, m: PlanMaterial)
    : Result<EvaluatedPlan, Error>
  {
    var gates :- EvaluateGates(host, context, m, IndexOf(assessments));
    var (status, primary) := PrimaryStatus(gates);
    var dimensions :- DimensionsOf(host, context, m, assessments);
    var resolution := PermittedResolution(gates, m);
    Ok(EvaluatedPlan(
         host.planId(m.action, m.componentIds), m.action, m.componentIds,
         LifecycleOf(status, dimensions.OrderingBounds().Some?, resolution),
         status, primary, gates, dimensions,
         [m.action.StableId()] + m.componentIds, resolution))
  }

  function PlanBuilder(host: Host, context: DecisionContext, assessments: seq<EvidenceAssessment>)
    : PlanMaterial -> Result<EvaluatedPlan, Error>
  {
    (m: PlanMaterial) => BuildPlan(host, context, assessments, m)
  }

  function BuildSolutionPlans(host: Host, context: DecisionContext, representatives: seq<RawCandidate>,
      assessments: seq<EvidenceAssessment>)
    : Result<seq<EvaluatedPlan>, Error>
  {
    var materials :- AllMaterials(host, context, representatives);
    Traverse(materials, PlanBuilder(host, context, assessments))
  }

  // ---- Ranking ----

  /** The plan as the ordering sees it; resolved treats a pending plan as eligible. */
  function BoundedPlanOf(p: EvaluatedPlan, resolved: bool): Result<BoundedPlan, Error> {
    MakeBoundedPlan(p.planId, if resolved then Eligible else p.status, p.stableActionIds,
                    p.dimensions.OrderingBounds(), p.dimensions.boundUnavailableReasons)
  }

  function Bounder(p: EvaluatedPlan): Result<BoundedPlan, Error> {
    BoundedPlanOf(p, false)
  }

  predicate HasEligibleStatus(p: EvaluatedPlan) {
    p.status.IsEligible()
  }

  predicate HasBounds(p: BoundedPlan) {
    p.bounds.Some?
  }

  /** The key plans are sorted by; only bounded plans are ever sorted. */
  function RankKey(p: BoundedPlan): OrderKey {
    if p.bounds.Some? then AuthoritativeKey(p)
    else OrderKey(p.StatusRank(), 0.0, 0, 0.0, 0.0, 0.0, p.stableActionIds, p.planId)
  }

  predicate RanksBefore(a: BoundedPlan, b: BoundedPlan) {
    KeyLess(RankKey(a), RankKey(b))
  }

  /** Horizons of the eligible plans by plan identifier; a later plan replaces an earlier one. */
  function HorizonByPlan(plans: seq<EvaluatedPlan>): (m: map<string, nat>)
    ensures forall p :: p in plans && p.status.IsEligible() ==> p.planId in m
  {
    if plans == [] then map[]
    else
      var last := plans[|plans| - 1];
      var before := HorizonByPlan(plans[..|plans| - 1]);
      if last.status.IsEligible() then before[last.planId := last.dimensions.totalCost.horizonDays] else before
  }

  /** Currency of every plan that is to be ranked, with the horizon its identifier stands for. */
  function CostSignatures(plans: seq<EvaluatedPlan>): set<(string, nat)> {
    set p | p in plans && p.status.IsEligible() && p.dimensions.OrderingBounds().Some?
      :: (p.dimensions.OrderingBounds().value.cost.base.currency, HorizonByPlan(plans)[p.planId])
  }

  datatype Ranking = Ranking(
    rankedPlanIds: seq<string>,
    selected: Option<BoundedPlan>,
    stability: RankStability,
    orderingFrontier: set<string>,
    boundUnavailable: seq<string>,
    resolutionFrontier: set<string>)

  function OtherThan(selected: BoundedPlan): BoundedPlan -> bool {
    (p: BoundedPlan) => p.planId != selected.planId
  }

  /** A plan that waits for a permitted resolution and has bounds. */
  predicate IsResolvable(p: EvaluatedPlan) {
    p.lifecycle == ResolutionPending && p.permittedResolution.Some? && p.dimensions.OrderingBounds().Some?
  }

  function ResolutionFrontier(plans: seq<EvaluatedPlan>, selected: BoundedPlan): set<string> {
    set p | p in plans && IsResolvable(p) && BoundedPlanOf(p, true).Ok?
      && Threatens(BoundedPlanOf(p, true).value, selected) :: p.planId
  }

  function Rank(plans: seq<EvaluatedPlan>): Result<Ranking, Error> {
    var bounded :- Traverse(Filter(plans, HasEligibleStatus), Bounder);
    if |CostSignatures(plans)| > 1 then Raise(IncomparableCosts)
    else
      var ranked := Sort(Filter(bounded, HasBounds), RanksBefore);
      if ranked == [] then
        Ok(Ranking([], None, Undetermined, {}, SortBy(PlanIds(bounded), Identity), {}))
      else
        var selected := ranked[0];
        var result := AssessRankStability(selected, Filter(bounded, OtherThan(selected)));
        Ok(Ranking(PlanIds(ranked), Some(selected), result.status,
                   {selected.planId} + (set id | id in result.orderingFrontier),
                   result.boundUnavailable, ResolutionFrontier(plans, selected)))
  }

  // ---- Evaluation ----

  datatype Evaluation = Evaluation(recall: RecallResult, assessments: seq<EvidenceAssessment>,
      plans: seq<EvaluatedPlan>, ranking: Ranking) {
    function SelectedPlanId(): Option<string> {
      if ranking.rankedPlanIds == [] then None else Some(ranking.rankedPlanIds[0])
    }
  }

  /** Everything after recall depends on the candidates only through it. */
  function EvaluateRecalled(host: Host, context: DecisionContext, recall: RecallResult): Result<Evaluation, Error> {
    var assessments :- AssessEvidence(host, context, recall.representatives);
    var plans :- BuildSolutionPlans(host, context, recall.representatives, assessments);
    var ranking :- Rank(plans);
    Ok(Evaluation(recall, assessments, plans, ranking))
  }

  function EvaluateOnce(host: Host, input: DecisionInput): Result<Evaluation, Error> {
    if !input.UniqueIdentifiers() then Raise(DuplicateIdentifier)
    else
      var recall :- RecallAndDeduplicate(host, input);
      EvaluateRecalled(host, input.context, recall)
  }
}
