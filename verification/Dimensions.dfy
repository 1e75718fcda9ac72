/** Scores, risk, coverage, evidence age and cost of one plan. */
module Dimensions {
  import opened Outcomes
  import opened Ordering
  import opened Domain
  import opened Bounds
  import opened GraphModels
  import opened Evidence
  import opened Gates

  // ---- Preference scores ----

  function SatisfactionAt(points: seq<(int, real)>, n: real): real {
    if points == [] then 0.0
    else if n <= points[0].0 as real then points[0].1
    else SatisfactionAt(points[1..], n)
  }

  function Normalize(host: Host, c: PreferenceCriterion, v: FactValue): Result<real, Error> {
    match c.normalization
    case BooleanEquals => Ok(if v == c.expected then 1.0 else 0.0)
    case SetContainsAll =>
      Ok(if v.Names? && c.expected.Names? && forall s :: s in c.expected.items ==> s in v.items then 1.0 else 0.0)
    case LowerIsBetter =>
      if !(v.Whole? || v.Text?) then Ok(0.0)
      else
        var n :- Numeric(host, v);
        Ok(SatisfactionAt(c.lowerIsBetterPoints, n))
    case OutcomeRate => Raise(UnsupportedOperator)
  }

  /** The last observation recorded for a subject and criterion whose sources are all active. */
  function OutcomeFor(context: DecisionContext, subjectId: string, criterionId: string): Option<OutcomeObservation> {
    var matching := Filter(context.outcomes, (o: OutcomeObservation) =>
      o.subjectId == subjectId && o.criterionId == criterionId && o.sourceFactIds <= ActiveSourceIds(context));
    if matching == [] then None else Some(matching[|matching| - 1])
  }

  datatype ScoreComponent = ScoreComponent(
    criterionId: string,
    weight: nat,
    satisfaction: Interval,
    evidenceIds: set<string>,
    evidenceState: EvidenceState,
    fromPrior: bool)

  datatype Scored = Scored(component: ScoreComponent, reasons: set<BoundReason>)

  function StrongestState(states: set<EvidenceState>): EvidenceState {
    if EvidenceState.Conflict in states then EvidenceState.Conflict
    else if Acceptable in states then Acceptable
    else if EvidenceState.Stale in states then EvidenceState.Stale
    else EvidenceState.Unknown
  }

  /** Nothing is granted; at best the declared upper bound, if one is declared. */
  function UnknownSatisfaction(c: PreferenceCriterion): (Interval, set<BoundReason>) {
    match c.unknownUpper
    case None => (Interval(0.0, 0.0), {UnknownBound(c.criterionId)})
    case Some(upper) => (Interval(0.0, upper), {})
  }

  function TimeReason(unknown: bool): set<BoundReason> {
    if unknown then {EvidenceTimeUnknown} else {}
  }

  function ScoreOutcome(context: DecisionContext, m: PlanMaterial, index: AssessmentIndex, c: PreferenceCriterion,
      field: FieldState)
    : Scored
  {
    match OutcomeFor(context, m.outcomeSubjectId, c.criterionId)
    case None =>
      (match c.neutralPrior
       case None =>
         Scored(ScoreComponent(c.criterionId, c.weight, Interval(0.0, 0.0), field.evidenceIds, EvidenceState.Unknown,
           false),
                {NeutralPriorMissing(c.criterionId)} + TimeReason(field.timeUnavailable))
       case Some(prior) =>
         Scored(ScoreComponent(c.criterionId, c.weight, Interval(prior, prior), field.evidenceIds,
           EvidenceState.Unknown, true),
                TimeReason(field.timeUnavailable)))
    case Some(o) =>
      var assessments := AssessmentsOn(o.evidenceIds, c.field, index);
      var state := StrongestState(StatesOf(assessments));
      var bound := if state == Acceptable then (Interval(o.value, o.value), {}) else UnknownSatisfaction(c);
      Scored(ScoreComponent(c.criterionId, c.weight, bound.0, o.evidenceIds, state, false),
             bound.1 + TimeReason(exists a :: a in assessments && a.timeUnavailable)
               + TimeReason(field.timeUnavailable))
  }

  function Least(values: seq<real>): (m: real)
    requires values != []
    ensures m in values && forall v :: v in values ==> m <= v
  {
    assert forall v :: v in values ==> v == values[0] || v in values[1..];
    if |values| == 1 then values[0]
    else
      var rest := Least(values[1..]);
      if rest < values[0] then rest else values[0]
  }

  function Greatest(values: seq<real>): (m: real)
    requires values != []
    ensures m in values && forall v :: v in values ==> v <= m
  {
    assert forall v :: v in values ==> v == values[0] || v in values[1..];
    if |values| == 1 then values[0] else MaxReal(values[0], Greatest(values[1..]))
  }

  function Normalizer(host: Host, c: PreferenceCriterion): FactValue -> Result<real, Error> {
    (v: FactValue) => Normalize(host, c, v)
  }

  function ScoreField(host: Host, c: PreferenceCriterion, field: FieldState): Result<Scored, Error> {
    if field.state == Acceptable && field.values != [] then
      var values :- Traverse(field.values, Normalizer(host, c));
      TraversePointwise(field.values, Normalizer(host, c));
      Ok(Scored(ScoreComponent(c.criterionId, c.weight, Interval(Least(values), Greatest(values)), field.evidenceIds,
        field.state, false),
                TimeReason(field.timeUnavailable)))
    else
      var bound := UnknownSatisfaction(c);
      Ok(Scored(ScoreComponent(c.criterionId, c.weight, bound.0, field.evidenceIds, field.state, false),
                bound.1 + TimeReason(field.timeUnavailable)))
  }

  function ScoreCriterion(host: Host, context: DecisionContext, m: PlanMaterial, index: AssessmentIndex,
      c: PreferenceCriterion)
    : Result<Scored, Error>
  {
    var field := FieldStateOf(host, m.facts, c.field, index);
    if c.normalization == OutcomeRate then Ok(ScoreOutcome(context, m, index, c, field))
    else ScoreField(host, c, field)
  }

  predicate CriterionApplies(c: PreferenceCriterion, m: PlanMaterial, active: set<string>) {
    (c.appliesToActions != {} ==> m.action in c.appliesToActions) && c.sourceFactIds <= active
  }

  function CriterionKey(c: PreferenceCriterion): seq<string> {
    [c.criterionId]
  }

  function ApplicableCriteria(context: DecisionContext, m: PlanMaterial): seq<PreferenceCriterion> {
    Filter(SortBy(context.preferences, CriterionKey),
      (c: PreferenceCriterion) => CriterionApplies(c, m, ActiveSourceIds(context)))
  }

  function Scorer(host: Host, context: DecisionContext, m: PlanMaterial, index: AssessmentIndex)
    : PreferenceCriterion -> Result<Scored, Error>
  {
    (c: PreferenceCriterion) => ScoreCriterion(host, context, m, index, c)
  }

  function Scores(host: Host, context: DecisionContext, m: PlanMaterial, index: AssessmentIndex)
    : Result<seq<Scored>, Error>
  {
    Traverse(ApplicableCriteria(context, m), Scorer(host, context, m, index))
  }

  function PreferenceBound(s: Scored): PreferenceCriterionBound {
    PreferenceCriterionBound(s.component.criterionId, s.component.weight, s.component.satisfaction)
  }

  function ScoreReasons(scores: seq<Scored>): set<BoundReason> {
    set s, r | s in scores && r in s.reasons :: r
  }

  /** No applicable preference leaves the plan without a preference interval. */
  function PreferenceOf(scores: seq<Scored>): Result<Option<Interval>, Error> {
    if scores == [] then Ok(None)
    else
      var interval :- AggregatePreference(Map(scores, PreferenceBound));
      Ok(Some(interval))
  }

  // ---- Risk ----

  datatype RiskStep = Silent | Contributes(bounds: RiskBounds) | LacksInput(ruleId: string)

  function RiskOf(host: Host, m: PlanMaterial, index: AssessmentIndex, rule: RiskRule): Result<RiskStep, Error> {
    if m.action !in rule.actions then Ok(Silent)
    else
      match rule.predicate_
      case None => Ok(Contributes(rule.bounds))
      case Some(p) =>
        var field := FieldStateOf(host, m.facts, p.field, index);
        if field.state != Acceptable || field.values == [] then
          Ok(if rule.missing.None? then LacksInput(rule.ruleId) else Contributes(rule.missing.value))
        else
          var matched :- AllMatch(host, p, field);
          Ok(if matched then Contributes(rule.bounds) else Silent)
  }

  function RuleKey(r: RiskRule): seq<string> {
    [r.ruleId]
  }

  function RiskStepper(host: Host, m: PlanMaterial, index: AssessmentIndex): RiskRule -> Result<RiskStep, Error> {
    (r: RiskRule) => RiskOf(host, m, index, r)
  }

  function Contributions(steps: seq<RiskStep>): seq<RiskBounds> {
    if steps == [] then []
    else (if steps[0].Contributes? then [steps[0].bounds] else []) + Contributions(steps[1..])
  }

  function MissingInputs(steps: seq<RiskStep>): set<BoundReason> {
    set s | s in steps && s.LacksInput? :: RiskInputMissing(s.ruleId)
  }

  function ConcludeRisk(steps: seq<RiskStep>, complete: bool): (Option<RiskBounds>, set<BoundReason>) {
    if MissingInputs(steps) != {} then (None, MissingInputs(steps))
    else if Contributions(steps) != [] then (Some(AggregateRisk(Contributions(steps))), {})
    else if complete then (Some(RiskBounds(Low, Low, Low)), {})
    else (None, {RiskRulesIncomplete})
  }

  function RiskSteps(host: Host, context: DecisionContext, m: PlanMaterial, index: AssessmentIndex)
    : Result<seq<RiskStep>, Error>
  {
    Traverse(SortBy(context.riskRules, RuleKey), RiskStepper(host, m, index))
  }

  // ---- Coverage and age ----

  function CoverageOf(c: PreferenceCriterion, s: ScoreComponent): CoverageCriterion {
    var conservative := s.evidenceState == Acceptable && !s.fromPrior;
    CoverageCriterion(
      c.criterionId, c.coverageWeight, conservative,
      conservative
        || (c.permittedEvidenceResolution.Some?
             && (s.evidenceState == EvidenceState.Unknown || s.evidenceState == EvidenceState.Stale)))
  }

  function CoverageCriteria(criteria: seq<PreferenceCriterion>, scores: seq<Scored>): (r: seq<CoverageCriterion>)
    requires |criteria| == |scores|
    ensures |r| == |criteria|
    ensures forall i :: 0 <= i < |criteria| ==> r[i] == CoverageOf(criteria[i], scores[i].component)
  {
    if criteria == [] then []
    else [CoverageOf(criteria[0], scores[0].component)] + CoverageCriteria(criteria[1..], scores[1..])
  }

  function MaterialEvidence(m: PlanMaterial, scores: seq<Scored>): set<string> {
    EvidenceIdsOf(m.facts) + set s, e | s in scores && e in s.component.evidenceIds :: e
  }

  function MaterialAssessments(m: PlanMaterial, scores: seq<Scored>, assessments: seq<EvidenceAssessment>)
    : seq<EvidenceAssessment>
  {
    Filter(assessments, (a: EvidenceAssessment) => a.evidenceId in MaterialEvidence(m, scores))
  }

  function Ages(assessments: seq<EvidenceAssessment>): seq<Interval> {
    if assessments == [] then []
    else (if assessments[0].ageBounds.Some? then [assessments[0].ageBounds.value] else []) + Ages(assessments[1..])
  }

  // ---- Cost ----

  function ItemTotal(items: seq<CostLineItem>, part: CostLineItem -> Money): nat {
    if items == [] then 0 else part(items[0]).amount + ItemTotal(items[1..], part)
  }

  function LowPart(i: CostLineItem): Money { i.low }

  function BasePart(i: CostLineItem): Money { i.base }

  function HighPart(i: CostLineItem): Money { i.high }

  function IsFee(i: CostLineItem): bool {
    i.kind == SiraTransactionFee
  }

  /** The first reason the stated totals or fees cannot be used, if there is one. */
  function CostReason(c: OfferCost, low: Money, base: Money, high: Money, payments: nat): Option<BoundReason> {
    var fees := |Filter(c.lineItems, IsFee)|;
    if c.lineItems != [] && ItemTotal(c.lineItems, LowPart) != low.amount then Some(LineItemsDisagree(c.offerId, "low"))
    else if c.lineItems != [] && ItemTotal(c.lineItems, BasePart) != base.amount
      then Some(LineItemsDisagree(c.offerId, "base"))
    else if c.lineItems != [] && ItemTotal(c.lineItems, HighPart) != high.amount
      then Some(LineItemsDisagree(c.offerId, "high"))
    else if c.paymentRequired && fees != payments then Some(FeeCountWrong(c.offerId))
    else if !c.paymentRequired && (fees > 0 || payments > 0) then Some(UnexpectedFee(c.offerId))
    else None
  }

  /** Usable costs have no reason; reversed or mixed-currency totals raise. */
  function ValidCost(c: OfferCost, payments: nat): Result<Option<BoundReason>, Error> {
    if c.low.None? || c.base.None? || c.high.None? then Ok(Some(TotalCostUnknown(c.offerId)))
    else if !CostBounds(c.low.value, c.base.value, c.high.value).Valid() then Raise(InvalidCostBounds)
    else Ok(CostReason(c, c.low.value, c.base.value, c.high.value, payments))
  }

  // ---- All dimensions ----

  datatype PlanDimensions = PlanDimensions(
    preference: Option<Interval>,
    stackRisk: Option<RiskBounds>,
    totalCost: OfferCost,
    coverage: Interval,
    evidenceAge: Interval,
    boundUnavailableReasons: set<BoundReason>)
  {
    /** Bounds to rank by, unless some part or reason is in the way. */
    function OrderingBounds(): Option<OrderingBounds> {
      if preference.None? || stackRisk.None? || totalCost.low.None? || totalCost.base.None? || totalCost.high.None?
         || boundUnavailableReasons != {}
      then None
      else Some(Bounds.OrderingBounds(
                  preference.value, stackRisk.value,
                  CostBounds(totalCost.low.value, totalCost.base.value, totalCost.high.value),
                  coverage, evidenceAge))
    }
  }

  function DimensionsOf(host: Host, context: DecisionContext, m: PlanMaterial, assessments: seq<EvidenceAssessment>)
    : Result<PlanDimensions, Error>
  {
    var index := IndexOf(assessments);
    var scores :- Scores(host, context, m, index);
    var preference :- PreferenceOf(scores);
    var steps :- RiskSteps(host, context, m, index);
    var risk := ConcludeRisk(steps, context.riskRuleSetComplete);
    TraversePointwise(ApplicableCriteria(context, m), Scorer(host, context, m, index));
    var coverage :- AggregateCoverage(CoverageCriteria(ApplicableCriteria(context, m), scores));
    var material := MaterialAssessments(m, scores, assessments);
    var cost :- ValidCost(m.cost, m.paymentComponentCount);
    Ok(PlanDimensions(
         preference, risk.0, m.cost, coverage, AggregateAge(Ages(material)),
         ScoreReasons(scores)
         + (if scores == [] then {NoApplicablePreference} else {})
         + risk.1
         + TimeReason(exists a :: a in material && a.timeUnavailable)
         + (if cost.Some? then {cost.value} else {})))
  }

  // ---- What risk comes to ----

  lemma {:induction false} Contributed(steps: seq<RiskStep>, b: RiskBounds)
    ensures b in Contributions(steps) <==> Contributes(b) in steps
  {
    if steps != [] {
      assert forall s :: s in steps <==> s == steps[0] || s in steps[1..];
      Contributed(steps[1..], b);
    }
  }

  lemma RiskAttained(steps: seq<RiskStep>)
    requires Contributions(steps) != []
    ensures Attained(steps, AggregateRisk(Contributions(steps)))
  {
    var r := AggregateRisk(Contributions(steps));
    var low :| low in Contributions(steps) && low.lower == r.lower;
    var base :| base in Contributions(steps) && base.base == r.base;
    var high :| high in Contributions(steps) && high.upper == r.upper;
    Contributed(steps, low);
    Contributed(steps, base);
    Contributed(steps, high);
    assert Contributes(low).bounds == low && Contributes(base).bounds == base && Contributes(high).bounds == high;
  }

  /** Each level of the risk is that of some contribution. */
  ghost predicate Attained(steps: seq<RiskStep>, r: RiskBounds) {
    && (exists s :: s in steps && s.Contributes? && s.bounds.lower == r.lower)
    && (exists s :: s in steps && s.Contributes? && s.bounds.base == r.base)
    && (exists s :: s in steps && s.Contributes? && s.bounds.upper == r.upper)
  }

  /**
   * Risk is open exactly when a rule lacks its input, or nothing contributes and the rules may be
   * incomplete; otherwise each level is the highest among the contributions, and the least risk
   * without contributions.
   */
  lemma RiskExact(steps: seq<RiskStep>, complete: bool)
    ensures var risk := ConcludeRisk(steps, complete);
            && (risk.0.None?
                <==> (exists s :: s in steps && s.LacksInput?)
                      || (!complete && forall s :: s in steps ==> !s.Contributes?))
            && (risk.0.Some? ==> forall s :: s in steps && s.Contributes? ==>
                  s.bounds.lower.Rank() <= risk.0.value.lower.Rank() && s.bounds.base.Rank() <= risk.0.value.base.Rank()
                  && s.bounds.upper.Rank() <= risk.0.value.upper.Rank())
            && (risk.0.Some? && (exists s :: s in steps && s.Contributes?) ==> Attained(steps, risk.0.value))
            && (risk.0.Some? && (forall s :: s in steps ==> !s.Contributes?) ==>
                 risk.0.value == RiskBounds(Low, Low, Low))
  {
    if s :| s in steps && s.LacksInput? { assert RiskInputMissing(s.ruleId) in MissingInputs(steps); }
    forall s | s in steps && s.Contributes? ensures s.bounds in Contributions(steps) { Contributed(steps, s.bounds); }
    if Contributions(steps) != [] {
      Contributed(steps, Contributions(steps)[0]);
      assert Contributes(Contributions(steps)[0]) in steps;
      RiskAttained(steps);
    }
  }

  // ---- What counts without evidence ----

  /** A score that rests neither on acceptable evidence nor on a declared prior grants nothing for certain. */
  lemma UnsupportedGrantsNothing(host: Host, context: DecisionContext, m: PlanMaterial, index: AssessmentIndex,
      c: PreferenceCriterion)
    requires ScoreCriterion(host, context, m, index, c).Ok?
    ensures var s := ScoreCriterion(host, context, m, index, c).value.component;
            && s.criterionId == c.criterionId && s.weight == c.weight
            && (s.evidenceState != Acceptable && !s.fromPrior ==> s.satisfaction.low == 0.0)
            && (s.fromPrior ==>
                 s.evidenceState != Acceptable && Some(s.satisfaction.low) == c.neutralPrior
                   && Some(s.satisfaction.high) == c.neutralPrior)
  {
    hide FieldStateOf, Normalize;
  }

  /** With acceptable evidence the satisfaction spans exactly the normalized values. */
  lemma SupportedSpansValues(host: Host, c: PreferenceCriterion, field: FieldState, v: FactValue)
    requires ScoreField(host, c, field).Ok? && field.state == Acceptable && v in field.values
    ensures Normalize(host, c, v).Ok?
    ensures var s := ScoreField(host, c, field).value.component.satisfaction;
            s.low <= Normalize(host, c, v).value <= s.high
  {
    hide Normalize;
    TraversePointwise(field.values, Normalizer(host, c));
    var values := Traverse(field.values, Normalizer(host, c)).value;
    var i :| 0 <= i < |field.values| && field.values[i] == v;
    assert Normalizer(host, c)(field.values[i]) == Ok(values[i]) && values[i] in values;
  }

  /** The stated totals are the sums of the line items, if there are any. */
  predicate TotalsAgree(c: OfferCost)
    requires c.low.Some? && c.base.Some? && c.high.Some?
  {
    c.lineItems != [] ==>
      && ItemTotal(c.lineItems, LowPart) == c.low.value.amount
      && ItemTotal(c.lineItems, BasePart) == c.base.value.amount
      && ItemTotal(c.lineItems, HighPart) == c.high.value.amount
  }

  /** One fee for each paying component, and none where nothing is paid. */
  predicate FeesAgree(c: OfferCost, payments: nat) {
    |Filter(c.lineItems, IsFee)| == (if c.paymentRequired then payments else 0)
      && (!c.paymentRequired ==> payments == 0)
  }

  /** A cost is usable exactly when it is fully stated, its totals agree with its items, and its fees are right. */
  lemma CostExact(c: OfferCost, payments: nat)
    ensures ValidCost(c, payments) == Ok(None)
            <==> && c.low.Some? && c.base.Some? && c.high.Some?
                 && CostBounds(c.low.value, c.base.value, c.high.value).Valid()
                 && TotalsAgree(c) && FeesAgree(c, payments)
    ensures ValidCost(c, payments).Raise?
            <==> c.low.Some? && c.base.Some? && c.high.Some?
                 && !CostBounds(c.low.value, c.base.value, c.high.value).Valid()
  {
  }

  // ---- Every bound that is offered is well formed ----

  lemma {:induction false} SatisfactionInRange(points: seq<(int, real)>, n: real)
    requires forall p :: p in points ==> 0.0 <= p.1 <= 1.0
    ensures 0.0 <= SatisfactionAt(points, n) <= 1.0
  {
    if points != [] {
      assert points[0] in points;
      SatisfactionInRange(points[1..], n);
    }
  }

  lemma NormalizeInRange(host: Host, c: PreferenceCriterion, v: FactValue)
    requires c.Valid() && c.normalization != OutcomeRate
    ensures Normalize(host, c, v).Ok? ==> 0.0 <= Normalize(host, c, v).value <= 1.0
    ensures RaisesPolicyErrors(Normalize(host, c, v))
  {
    if c.normalization == LowerIsBetter && Numeric(host, v).Ok? {
      SatisfactionInRange(c.lowerIsBetterPoints, Numeric(host, v).value);
    }
  }

  lemma {:induction false} ExtremesInRange(values: seq<real>)
    requires values != [] && forall v :: v in values ==> 0.0 <= v <= 1.0
    ensures 0.0 <= Least(values) <= Greatest(values) <= 1.0
  {
    assert values[0] in values;
    assert forall v :: v in values[1..] ==> v in values;
    if |values| > 1 { ExtremesInRange(values[1..]); }
  }

  /** Outcomes are rates. */
  predicate OutcomesAreRates(context: DecisionContext) {
    forall o :: o in context.outcomes ==> 0.0 <= o.value <= 1.0
  }

  /** The exceptions a policy can cause: text that is no number, or an unknown operator. */
  predicate PolicyError(e: Error) {
    e == UnparsableNumber || e == UnsupportedOperator
  }

  predicate RaisesPolicyErrors<T>(r: Result<T, Error>) {
    r.Raise? ==> PolicyError(r.error)
  }

  lemma {:induction false} TraverseError<T, U>(s: seq<T>, f: T -> Result<U, Error>)
    requires forall x :: x in s ==> RaisesPolicyErrors(f(x))
    ensures RaisesPolicyErrors(Traverse(s, f))
  {
    if s != [] {
      assert s[0] in s && forall x :: x in s[1..] ==> x in s;
      TraverseError(s[1..], f);
    }
  }

  lemma ScoreFieldValid(host: Host, c: PreferenceCriterion, field: FieldState)
    requires c.Valid() && c.normalization != OutcomeRate
    ensures ScoreField(host, c, field).Ok? ==>
              PreferenceBound(ScoreField(host, c, field).value).Valid()
                && ScoreField(host, c, field).value.component.criterionId == c.criterionId
    ensures RaisesPolicyErrors(ScoreField(host, c, field))
  {
    if field.state == Acceptable && field.values != [] {
      var normalizer := Normalizer(host, c);
      TraversePointwise(field.values, normalizer);
      forall v | v in field.values ensures RaisesPolicyErrors(normalizer(v)) {
        NormalizeInRange(host, c, v);
      }
      TraverseError(field.values, normalizer);
      var values := Traverse(field.values, normalizer);
      if values.Ok? {
        forall v | v in values.value ensures 0.0 <= v <= 1.0 {
          var i :| 0 <= i < |values.value| && values.value[i] == v;
          NormalizeInRange(host, c, field.values[i]);
        }
        ExtremesInRange(values.value);
      }
    }
  }

  lemma ScoreOutcomeValid(context: DecisionContext, m: PlanMaterial, index: AssessmentIndex, c: PreferenceCriterion,
      field: FieldState)
    requires c.Valid() && OutcomesAreRates(context)
    ensures PreferenceBound(ScoreOutcome(context, m, index, c, field)).Valid()
    ensures ScoreOutcome(context, m, index, c, field).component.criterionId == c.criterionId
  {
    var o := OutcomeFor(context, m.outcomeSubjectId, c.criterionId);
    if o.Some? { assert o.value in context.outcomes; }
  }

  lemma ScoreValid(host: Host, context: DecisionContext, m: PlanMaterial, index: AssessmentIndex,
      c: PreferenceCriterion)
    requires c.Valid() && OutcomesAreRates(context)
    ensures ScoreCriterion(host, context, m, index, c).Ok? ==>
              var s := ScoreCriterion(host, context, m, index, c).value;
              PreferenceBound(s).Valid() && s.component.criterionId == c.criterionId
    ensures RaisesPolicyErrors(ScoreCriterion(host, context, m, index, c))
  {
    var field := FieldStateOf(host, m.facts, c.field, index);
    if c.normalization == OutcomeRate {
      ScoreOutcomeValid(context, m, index, c, field);
    } else {
      ScoreFieldValid(host, c, field);
    }
  }

  /** What construction of the context and the frozen outcomes guarantee. */
  predicate ValidContext(context: DecisionContext) {
    && (forall c :: c in context.preferences ==> c.Valid())
    && Distinct(Map(context.preferences, CriterionId))
    && (forall r :: r in context.riskRules ==> r.Valid())
    && OutcomesAreRates(context)
  }

  lemma CriteriaAreValid(context: DecisionContext, m: PlanMaterial)
    requires ValidContext(context)
    ensures forall c :: c in ApplicableCriteria(context, m) ==> c.Valid()
    ensures Distinct(Map(ApplicableCriteria(context, m), CriterionId))
  {
    var less := ByKey(CriterionKey);
    SortPermutes(context.preferences, less);
    SortKeepsDistinct(context.preferences, less, CriterionId);
    var active := ActiveSourceIds(context);
    FilterKeepsDistinct(Sort(context.preferences, less),
      (c: PreferenceCriterion) => CriterionApplies(c, m, ActiveSourceIds(context)), CriterionId);
  }

  /** scores[i] is a valid score of criteria[i]. */
  ghost predicate ScoredRight(criteria: seq<PreferenceCriterion>, scores: seq<Scored>) {
    && |scores| == |criteria|
    && forall i :: 0 <= i < |criteria| ==>
         PreferenceBound(scores[i]).Valid() && scores[i].component.criterionId == criteria[i].criterionId
  }

  lemma ScoresValid(host: Host, context: DecisionContext, m: PlanMaterial, index: AssessmentIndex)
    requires ValidContext(context)
    ensures RaisesPolicyErrors(Scores(host, context, m, index))
    ensures Scores(host, context, m, index).Ok? ==>
            ScoredRight(ApplicableCriteria(context, m), Scores(host, context, m, index).value)
  {
    CriteriaAreValid(context, m);
    var criteria := ApplicableCriteria(context, m);
    var scorer := Scorer(host, context, m, index);
    TraversePointwise(criteria, scorer);
    forall c | c in criteria ensures RaisesPolicyErrors(scorer(c)) { ScoreValid(host, context, m, index, c); }
    TraverseError(criteria, scorer);
    if Scores(host, context, m, index).Ok? {
      forall i | 0 <= i < |criteria| ensures scorer(criteria[i]).Ok? {
        ScoreValid(host, context, m, index, criteria[i]);
      }
      forall i | 0 <= i < |criteria|
        ensures PreferenceBound(Scores(host, context, m, index).value[i]).Valid()
        ensures Scores(host, context, m, index).value[i].component.criterionId == criteria[i].criterionId
      {
        ScoreValid(host, context, m, index, criteria[i]);
      }
    }
  }

  lemma PreferenceValid(criteria: seq<PreferenceCriterion>, scores: seq<Scored>)
    requires ScoredRight(criteria, scores) && Distinct(Map(criteria, CriterionId))
    ensures PreferenceOf(scores).Ok?
    ensures PreferenceOf(scores).value.None? <==> scores == []
    ensures PreferenceOf(scores).value.Some? ==> PreferenceOf(scores).value.value.Within(0.0, 100.0)
  {
    if scores != [] {
      var bounds := Map(scores, PreferenceBound);
      assert CriterionIds(bounds) == Map(criteria, CriterionId);
      forall b | b in bounds ensures b.Valid() {
        var i :| 0 <= i < |bounds| && bounds[i] == b;
      }
      PreferenceInRange(bounds);
    }
  }

  lemma CoverageValid(criteria: seq<PreferenceCriterion>, scores: seq<Scored>)
    requires |criteria| == |scores| && Distinct(Map(criteria, CriterionId))
    requires forall c :: c in criteria ==> c.Valid()
    ensures AggregateCoverage(CoverageCriteria(criteria, scores)).Ok?
    ensures AggregateCoverage(CoverageCriteria(criteria, scores)).value.Within(0.0, 1.0)
  {
    var coverage := CoverageCriteria(criteria, scores);
    assert Map(coverage, CoverageId) == Map(criteria, CriterionId);
    forall c | c in coverage ensures c.Valid() {
      var i :| 0 <= i < |coverage| && coverage[i] == c;
      assert criteria[i] in criteria;
    }
    CoverageInRange(coverage);
  }

  lemma {:induction false} ContributionsValid(steps: seq<RiskStep>)
    requires forall s :: s in steps && s.Contributes? ==> s.bounds.Valid()
    ensures forall b :: b in Contributions(steps) ==> b.Valid()
  {
    if steps != [] {
      assert steps[0] in steps && forall s :: s in steps[1..] ==> s in steps;
      ContributionsValid(steps[1..]);
    }
  }

  lemma MatchErrors(host: Host, p: Predicate, s: FieldState)
    ensures RaisesPolicyErrors(AllMatch(host, p, s))
  {
    forall v | v in s.values ensures RaisesPolicyErrors(ValueMatcher(host, p)(v)) {}
    TraverseError(s.values, ValueMatcher(host, p));
  }

  lemma RiskStepValid(host: Host, m: PlanMaterial, index: AssessmentIndex, rule: RiskRule)
    requires rule.Valid()
    ensures RaisesPolicyErrors(RiskOf(host, m, index, rule))
    ensures RiskOf(host, m, index, rule).Ok? && RiskOf(host, m, index, rule).value.Contributes? ==>
            RiskOf(host, m, index, rule).value.bounds.Valid()
  {
    if rule.predicate_.Some? {
      MatchErrors(host, rule.predicate_.value, FieldStateOf(host, m.facts, rule.predicate_.value.field, index));
    }
  }

  lemma RiskValid(host: Host, context: DecisionContext, m: PlanMaterial, index: AssessmentIndex)
    requires ValidContext(context)
    ensures RaisesPolicyErrors(RiskSteps(host, context, m, index))
    ensures RiskSteps(host, context, m, index).Ok? ==>
              var risk := ConcludeRisk(RiskSteps(host, context, m, index).value, context.riskRuleSetComplete);
              (risk.0.None? <==> risk.1 != {}) && (risk.0.Some? ==> risk.0.value.Valid())
  {
    hide RiskOf, FieldStateOf, AggregateRisk, Sort, RuleKey, Least, Contributions;
    var rules := SortBy(context.riskRules, RuleKey);
    var stepper := RiskStepper(host, m, index);
    SortPermutes(context.riskRules, ByKey(RuleKey));
    forall r | r in rules ensures RaisesPolicyErrors(stepper(r)) { RiskStepValid(host, m, index, r); }
    TraverseError(rules, stepper);
    TraversePointwise(rules, stepper);
    if RiskSteps(host, context, m, index).Ok? {
      var steps := RiskSteps(host, context, m, index).value;
      forall s | s in steps && s.Contributes? ensures s.bounds.Valid() {
        var i :| 0 <= i < |steps| && steps[i] == s;
        assert stepper(rules[i]) == Ok(s) && rules[i] in rules;
        RiskStepValid(host, m, index, rules[i]);
      }
      ContributionsValid(steps);
      if Contributions(steps) != [] { RiskInRange(Contributions(steps)); }
    }
  }

  /** Ages are ordered and start at zero or later, as assessment guarantees. */
  ghost predicate SoundAges(assessments: seq<EvidenceAssessment>) {
    forall a :: a in assessments && a.ageBounds.Some? ==> 0.0 <= a.ageBounds.value.low <= a.ageBounds.value.high
  }

  lemma {:induction false} AgesValid(assessments: seq<EvidenceAssessment>)
    requires SoundAges(assessments)
    ensures forall i :: i in Ages(assessments) ==> 0.0 <= i.low <= i.high
  {
    if assessments != [] {
      assert assessments[0] in assessments && forall a :: a in assessments[1..] ==> a in assessments;
      AgesValid(assessments[1..]);
    }
  }

  /** Totals that are all stated share a currency and are ordered. */
  predicate OrderedCost(c: OfferCost) {
    c.low.Some? && c.base.Some? && c.high.Some? ==> CostBounds(c.low.value, c.base.value, c.high.value).Valid()
  }

  ghost predicate WellFormed(d: PlanDimensions) {
    && (d.OrderingBounds().None? <==> d.boundUnavailableReasons != {})
    && (d.OrderingBounds().Some? ==>
          var b := d.OrderingBounds().value;
          && b.Valid()
          && b.preference.Within(0.0, 100.0)
          && b.coverage.Within(0.0, 1.0)
          && 0.0 <= b.age.low)
  }

  /**
   * For every plan: the only exceptions are those of the policy's own predicates; bounds are absent
   * exactly when a reason says why; and bounds that are present are ordered and inside their range.
   */
  lemma DimensionsWellFormed(host: Host, context: DecisionContext, m: PlanMaterial,
      assessments: seq<EvidenceAssessment>)
    requires ValidContext(context) && SoundAges(assessments) && OrderedCost(m.cost)
    ensures RaisesPolicyErrors(DimensionsOf(host, context, m, assessments))
    ensures DimensionsOf(host, context, m, assessments).Ok? ==>
            WellFormed(DimensionsOf(host, context, m, assessments).value)
  {
    hide FieldStateOf, ScoreCriterion, RiskOf, AggregateAge, Ages, MaterialAssessments, IndexOf, RiskSteps,
         ConcludeRisk, Scores, AggregateCoverage, AggregatePreference, CoverageCriteria, PreferenceOf;
    var index := IndexOf(assessments);
    CriteriaAreValid(context, m);
    ScoresValid(host, context, m, index);
    RiskValid(host, context, m, index);
    if Scores(host, context, m, index).Ok? {
      var scores := Scores(host, context, m, index).value;
      PreferenceValid(ApplicableCriteria(context, m), scores);
      CoverageValid(ApplicableCriteria(context, m), scores);
      AgeValid(m, scores, assessments);
    }
  }

  lemma AgeValid(m: PlanMaterial, scores: seq<Scored>, assessments: seq<EvidenceAssessment>)
    requires SoundAges(assessments)
    ensures var age := AggregateAge(Ages(MaterialAssessments(m, scores, assessments)));
            0.0 <= age.low <= age.high
  {
    var material := MaterialAssessments(m, scores, assessments);
    AgesValid(material);
    AgeInRange(Ages(material));
  }
}
