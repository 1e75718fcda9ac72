/** What a plan scores on a criterion, and what its dimensions come to, in terms of facts, values and evidence. */
module Satisfactions {
  import opened Outcomes
  import opened Ordering
  import opened Bounds
  import opened GraphModels
  import opened Evidence
  import opened Gates
  import opened Dimensions
  import opened Engine
  import opened RankGuarantees
  import opened Matching
  import opened MergedCoverage

  // ---- Single values ----

  /** The first point whose bound the number does not exceed. */
  ghost predicate FirstPoint(points: seq<(int, real)>, n: real, i: int) {
    0 <= i < |points| && n <= points[i].0 as real && forall j :: 0 <= j < i ==> points[j].0 as real < n
  }

  ghost predicate BeyondAll(points: seq<(int, real)>, n: real) {
    forall i :: 0 <= i < |points| ==> points[i].0 as real < n
  }

  /**
   * A number satisfies as far as the first point whose bound it does not exceed says, and not
   * at all beyond the last.
   */
  lemma {:induction false} PointExact(points: seq<(int, real)>, n: real)
    ensures forall i :: FirstPoint(points, n, i) ==> SatisfactionAt(points, n) == points[i].1
    ensures BeyondAll(points, n) ==> SatisfactionAt(points, n) == 0.0
  {
    if points != [] {
      var rest := points[1..];
      PointExact(rest, n);
      assert forall i :: 0 <= i < |rest| ==> rest[i] == points[i + 1];
      forall i | FirstPoint(points, n, i) ensures SatisfactionAt(points, n) == points[i].1 {
        if i > 0 {
          assert points[0].0 as real < n;
          assert FirstPoint(rest, n, i - 1) && rest[i - 1] == points[i];
        }
      }
      if BeyondAll(points, n) { assert points[0].0 as real < n && BeyondAll(rest, n); }
    }
  }

  /** How far a value satisfies a criterion that asks for a value or a list. */
  lemma NormalizeExact(host: Host, c: PreferenceCriterion, v: FactValue)
    ensures c.normalization == BooleanEquals ==> Normalize(host, c, v) == Ok(if v == c.expected then 1.0 else 0.0)
    ensures c.normalization == SetContainsAll ==>
              (Normalize(host, c, v) == Ok(1.0)
               <==> v.Names? && c.expected.Names? && Covers(c.expected.items, v.items))
    ensures c.normalization == SetContainsAll ==> Normalize(host, c, v) == Ok(1.0) || Normalize(host, c, v) == Ok(0.0)
  {
    hide Covers;
    if c.normalization == SetContainsAll && v.Names? && c.expected.Names? { AllAmong(c.expected.items, v.items); }
  }

  /** How far a number satisfies a criterion by which lower is better; what is no number does not at all. */
  lemma LowerExact(host: Host, c: PreferenceCriterion, v: FactValue, n: real)
    requires c.normalization == LowerIsBetter
    ensures !NumberOrText(v) ==> Normalize(host, c, v) == Ok(0.0)
    ensures Reads(host, v, n) ==>
              && (forall i :: FirstPoint(c.lowerIsBetterPoints, n, i) ==>
                    Normalize(host, c, v) == Ok(c.lowerIsBetterPoints[i].1))
              && (BeyondAll(c.lowerIsBetterPoints, n) ==> Normalize(host, c, v) == Ok(0.0))
  {
    hide SatisfactionAt, FirstPoint, BeyondAll;
    ReadsExact(host, v, n);
    PointExact(c.lowerIsBetterPoints, n);
  }

  // ---- Scores ----

  /** Without support a criterion grants nothing for sure, and at best what it declares for the unknown. */
  ghost predicate Unsupported(c: PreferenceCriterion, s: Scored) {
    s.component.satisfaction == Interval(0.0, if c.unknownUpper.Some? then c.unknownUpper.value else 0.0)
    && (UnknownBound(c.criterionId) in s.reasons <==> c.unknownUpper.None?)
  }

  /** A criterion on a field: as its one acceptable value satisfies it, or unsupported. */
  lemma FieldScore(host: Host, context: DecisionContext, m: PlanMaterial, index: AssessmentIndex,
      c: PreferenceCriterion)
    requires c.normalization != OutcomeRate && ScoreCriterion(host, context, m, index, c).Ok?
    ensures var s, f := ScoreCriterion(host, context, m, index, c).value, FieldStateOf(host, m.facts, c.field, index);
            && s.component.criterionId == c.criterionId && s.component.weight == c.weight && !s.component.fromPrior
            && s.component.evidenceState == f.state && s.component.evidenceIds == f.evidenceIds
            && (f.state == Acceptable && |f.values| == 1 ==>
                  && Normalize(host, c, f.values[0]).Ok? && UnknownBound(c.criterionId) !in s.reasons
                  && s.component.satisfaction
                     == Interval(Normalize(host, c, f.values[0]).value, Normalize(host, c, f.values[0]).value))
            && (f.state != Acceptable ==> Unsupported(c, s))
            && (EvidenceTimeUnknown in s.reasons <==> f.timeUnavailable)
  {
    hide FieldStateOf, Normalize;
    var f := FieldStateOf(host, m.facts, c.field, index);
    TraversePointwise(f.values, Normalizer(host, c));
  }

  /** Some piece of the observation's evidence was assessed to be in the state. */
  ghost predicate ObservedAs(o: OutcomeObservation, field: string, index: AssessmentIndex, state: EvidenceState) {
    exists e :: e in o.evidenceIds && (e, field) in index && index[(e, field)].state == state
  }

  /** A criterion on outcomes: the value observed, if its evidence is acceptable; the neutral prior if nothing was. */
  lemma OutcomeScore(host: Host, context: DecisionContext, m: PlanMaterial, index: AssessmentIndex,
      c: PreferenceCriterion)
    requires c.normalization == OutcomeRate
    ensures ScoreCriterion(host, context, m, index, c).Ok?
    ensures var s, o := ScoreCriterion(host, context, m, index, c).value,
              OutcomeFor(context, m.outcomeSubjectId, c.criterionId);
            && s.component.criterionId == c.criterionId && s.component.weight == c.weight
            && (o.None? && c.neutralPrior.Some? ==>
                  && s.component.fromPrior && s.component.evidenceState == EvidenceState.Unknown
                  && s.component.satisfaction == Interval(c.neutralPrior.value, c.neutralPrior.value))
            && (o.None? && c.neutralPrior.None? ==>
                  NeutralPriorMissing(c.criterionId) in s.reasons && !s.component.fromPrior
                  && s.component.evidenceState == EvidenceState.Unknown)
            && (o.Some? ==>
                  var sound := ObservedAs(o.value, c.field, index, Acceptable)
                               && !ObservedAs(o.value, c.field, index, EvidenceState.Conflict);
                  && !s.component.fromPrior && s.component.evidenceIds == o.value.evidenceIds
                  && (s.component.evidenceState == Acceptable <==> sound)
                  && (sound ==> s.component.satisfaction == Interval(o.value.value, o.value.value))
                  && (!sound ==> Unsupported(c, s)))
  {
    hide FieldStateOf, OutcomeFor;
    var o := OutcomeFor(context, m.outcomeSubjectId, c.criterionId);
    if o.Some? {
      var states := StatesOf(AssessmentsOn(o.value.evidenceIds, c.field, index));
      ObservedStates(o.value, c.field, index, Acceptable);
      ObservedStates(o.value, c.field, index, EvidenceState.Conflict);
      assert StrongestState(states) == Acceptable <==> Acceptable in states && EvidenceState.Conflict !in states;
    }
  }

  lemma ObservedStates(o: OutcomeObservation, field: string, index: AssessmentIndex, state: EvidenceState)
    ensures state in StatesOf(AssessmentsOn(o.evidenceIds, field, index)) <==> ObservedAs(o, field, index, state)
  {
    var assessments := AssessmentsOn(o.evidenceIds, field, index);
    if e :| e in o.evidenceIds && (e, field) in index && index[(e, field)].state == state {
      assert index[(e, field)] in assessments;
    }
  }

  // ---- Dimensions ----

  /** The criterion is settled by acceptable evidence. */
  predicate Settled(s: Scored) {
    s.component.evidenceState == Acceptable && !s.component.fromPrior
  }

  /** It is not, but may yet be: evidence is missing or stale, and a way to get it is permitted. */
  predicate MaySettle(c: PreferenceCriterion, s: Scored) {
    c.permittedEvidenceResolution.Some?
    && (s.component.evidenceState == EvidenceState.Unknown || s.component.evidenceState == EvidenceState.Stale)
  }

  ghost predicate PreferenceParts(criteria: seq<PreferenceCriterion>, scores: seq<Scored>,
      bounds: seq<PreferenceCriterionBound>)
  {
    |criteria| == |scores| == |bounds| && forall i :: 0 <= i < |criteria| ==>
      bounds[i] == PreferenceCriterionBound(criteria[i].criterionId, criteria[i].weight,
        scores[i].component.satisfaction)
  }

  ghost predicate CoverageShares(criteria: seq<PreferenceCriterion>, scores: seq<Scored>, parts: seq<CoverageCriterion>)
  {
    |criteria| == |scores| == |parts| && forall i :: 0 <= i < |criteria| ==>
      parts[i] == CoverageCriterion(criteria[i].criterionId, criteria[i].coverageWeight, Settled(scores[i]),
        Settled(scores[i]) || MaySettle(criteria[i], scores[i]))
  }

  lemma ScoreNames(host: Host, context: DecisionContext, m: PlanMaterial, index: AssessmentIndex,
      c: PreferenceCriterion)
    requires ScoreCriterion(host, context, m, index, c).Ok?
    ensures var s := ScoreCriterion(host, context, m, index, c).value.component;
            s.criterionId == c.criterionId && s.weight == c.weight
  {
    hide FieldStateOf, Normalize;
    UnsupportedGrantsNothing(host, context, m, index, c);
  }

  /**
   * Preference and coverage of a plan are the weighted means over the criteria that apply to it: of how far each
   * is satisfied, by its weight, and of whether each is settled or may be, by its coverage weight.
   */
  lemma PlanMeans(host: Host, context: DecisionContext, assessments: seq<EvidenceAssessment>, m: PlanMaterial,
      p: EvaluatedPlan)
    returns (scores: seq<Scored>, bounds: seq<PreferenceCriterionBound>, parts: seq<CoverageCriterion>)
    requires BuildPlan(host, context, assessments, m) == Ok(p)
    ensures ScoredOn(host, context, m, IndexOf(assessments), ApplicableCriteria(context, m), scores)
    ensures PreferenceParts(ApplicableCriteria(context, m), scores, bounds)
    ensures CoverageShares(ApplicableCriteria(context, m), scores, parts)
    ensures bounds == [] ==> p.dimensions.preference == None
    ensures bounds != [] ==>
              AggregatePreference(bounds).Ok? && p.dimensions.preference == Some(AggregatePreference(bounds).value)
    ensures AggregateCoverage(parts) == Ok(p.dimensions.coverage)
  {
    hide ScoreCriterion, RiskSteps, ValidCost, ApplicableCriteria, BuildPlan, AggregatePreference, AggregateCoverage;
    var criteria := ApplicableCriteria(context, m);
    PlanDimensionsOf(host, context, assessments, m);
    scores := Scores(host, context, m, IndexOf(assessments)).value;
    TraversePointwise(criteria, Scorer(host, context, m, IndexOf(assessments)));
    bounds, parts := Map(scores, PreferenceBound), CoverageCriteria(criteria, scores);
    forall i | 0 <= i < |criteria|
      ensures scores[i].component.criterionId == criteria[i].criterionId
      ensures scores[i].component.weight == criteria[i].weight
    {
      ScoreNames(host, context, m, IndexOf(assessments), criteria[i]);
    }
  }

  /** The evidence is behind one of the plan's facts or scores. */
  ghost predicate IsMaterial(m: PlanMaterial, scores: seq<Scored>, evidenceId: string) {
    || (exists f :: f in m.facts && evidenceId in f.evidenceIds)
    || (exists s :: s in scores && evidenceId in s.component.evidenceIds)
  }

  lemma {:induction false} AgesListed(assessments: seq<EvidenceAssessment>, i: Interval)
    ensures i in Ages(assessments) <==> exists a :: a in assessments && a.ageBounds == Some(i)
  {
    if assessments != [] {
      assert forall a :: a in assessments <==> a == assessments[0] || a in assessments[1..];
      AgesListed(assessments[1..], i);
    }
  }

  lemma {:induction false} OldestAttained(items: seq<Interval>)
    ensures AggregateAge(items).low == 0.0 || exists i :: i in items && i.low == AggregateAge(items).low
    ensures AggregateAge(items).high == 0.0 || exists i :: i in items && i.high == AggregateAge(items).high
  {
    if items != [] {
      assert forall i :: i in items <==> i == items[0] || i in items[1..];
      OldestAttained(items[1..]);
    }
  }

  /** An assessment of evidence that is material to the plan, with this age. */
  ghost predicate AgeOf(m: PlanMaterial, scores: seq<Scored>, assessments: seq<EvidenceAssessment>, i: Interval) {
    exists a :: a in assessments && IsMaterial(m, scores, a.evidenceId) && a.ageBounds == Some(i)
  }

  lemma MaterialAges(m: PlanMaterial, scores: seq<Scored>, assessments: seq<EvidenceAssessment>, i: Interval)
    ensures i in Ages(MaterialAssessments(m, scores, assessments)) <==> AgeOf(m, scores, assessments, i)
  {
    hide Ages;
    AgesListed(MaterialAssessments(m, scores, assessments), i);
    forall e ensures e in MaterialEvidence(m, scores) <==> IsMaterial(m, scores, e) {}
  }

  /** A plan is as old as the oldest evidence that is material to it, at either end, and zero where there is none. */
  lemma PlanAge(host: Host, context: DecisionContext, assessments: seq<EvidenceAssessment>, m: PlanMaterial,
      p: EvaluatedPlan)
    returns (scores: seq<Scored>)
    requires BuildPlan(host, context, assessments, m) == Ok(p) && SoundAges(assessments)
    ensures ScoredOn(host, context, m, IndexOf(assessments), ApplicableCriteria(context, m), scores)
    ensures var age := p.dimensions.evidenceAge;
            && (forall i :: AgeOf(m, scores, assessments, i) ==> i.low <= age.low && i.high <= age.high)
            && (age.low == 0.0 || exists i :: AgeOf(m, scores, assessments, i) && i.low == age.low)
            && (age.high == 0.0 || exists i :: AgeOf(m, scores, assessments, i) && i.high == age.high)
  {
    hide ScoreCriterion, RiskSteps, ValidCost, ApplicableCriteria, BuildPlan, AgeOf, MaterialAssessments, PreferenceOf,
         AggregateAge, Ages;
    PlanDimensionsOf(host, context, assessments, m);
    scores := Scores(host, context, m, IndexOf(assessments)).value;
    TraversePointwise(ApplicableCriteria(context, m), Scorer(host, context, m, IndexOf(assessments)));
    var ages := Ages(MaterialAssessments(m, scores, assessments));
    forall i ensures i in ages <==> AgeOf(m, scores, assessments, i) { MaterialAges(m, scores, assessments, i); }
    AgesSound(m, scores, assessments);
    AgeInRange(ages);
    OldestAttained(ages);
  }

  lemma AgesSound(m: PlanMaterial, scores: seq<Scored>, assessments: seq<EvidenceAssessment>)
    requires SoundAges(assessments)
    ensures forall i :: i in Ages(MaterialAssessments(m, scores, assessments)) ==> 0.0 <= i.low <= i.high
  {
    hide Ages;
    forall i | i in Ages(MaterialAssessments(m, scores, assessments)) ensures 0.0 <= i.low <= i.high {
      AgesListed(MaterialAssessments(m, scores, assessments), i);
    }
  }

  // ---- Risk ----

  /**
   * What a risk rule contributes: nothing for other actions; its bounds without a predicate, or where the plan's
   * one acceptable value satisfies it; what it declares for missing input, if anything, where there is no such
   * value.
   */
  lemma RiskRuleExact(host: Host, m: PlanMaterial, index: AssessmentIndex, rule: RiskRule)
    requires RiskOf(host, m, index, rule).Ok?
    ensures var r := RiskOf(host, m, index, rule).value;
            && (m.action !in rule.actions ==> r == Silent)
            && (m.action in rule.actions && rule.predicate_.None? ==> r == Contributes(rule.bounds))
            && (m.action in rule.actions && rule.predicate_.Some? ==>
                  var p, f := rule.predicate_.value, FieldStateOf(host, m.facts, rule.predicate_.value.field, index);
                  && (f.state == Acceptable && |f.values| == 1 ==>
                        r == if Satisfies(host, f.values[0], p) then Contributes(rule.bounds) else Silent)
                  && (f.state != Acceptable ==>
                       r == if rule.missing.Some? then Contributes(rule.missing.value) else LacksInput(rule.ruleId)))
  {
    hide FieldStateOf, Matches, Satisfies;
    if m.action in rule.actions && rule.predicate_.Some? {
      var p := rule.predicate_.value;
      var f := FieldStateOf(host, m.facts, p.field, index);
      if |f.values| == 1 {
        AllMatchSingle(host, p, f);
        MatchExact(host, f.values[0], p);
      }
    }
  }

  /** The steps are what the rules come to. */
  ghost predicate StepsOf(host: Host, m: PlanMaterial, index: AssessmentIndex, rules: seq<RiskRule>,
      steps: seq<RiskStep>)
  {
    && (forall s :: s in steps ==> exists rule :: rule in rules && RiskOf(host, m, index, rule) == Ok(s))
    && (forall rule :: rule in rules ==>
          RiskOf(host, m, index, rule).Ok? && RiskOf(host, m, index, rule).value in steps)
  }

  lemma StepsAre(host: Host, m: PlanMaterial, index: AssessmentIndex, rules: seq<RiskRule>, steps: seq<RiskStep>)
    requires Traverse(rules, RiskStepper(host, m, index)) == Ok(steps)
    ensures StepsOf(host, m, index, rules, steps)
  {
    hide RiskOf;
    TraversePointwise(rules, RiskStepper(host, m, index));
    forall s | s in steps ensures exists rule :: rule in rules && RiskOf(host, m, index, rule) == Ok(s) {
      var i :| 0 <= i < |steps| && steps[i] == s;
      assert rules[i] in rules;
    }
    forall rule | rule in rules
      ensures RiskOf(host, m, index, rule).Ok? && RiskOf(host, m, index, rule).value in steps
    {
      var i :| 0 <= i < |rules| && rules[i] == rule;
      assert steps[i] in steps;
    }
  }

  /** A plan's risk comes from all rules, each by what it contributes. */
  lemma PlanRisk(host: Host, context: DecisionContext, assessments: seq<EvidenceAssessment>, m: PlanMaterial,
      p: EvaluatedPlan)
    returns (steps: seq<RiskStep>)
    requires BuildPlan(host, context, assessments, m) == Ok(p)
    ensures StepsOf(host, m, IndexOf(assessments), context.riskRules, steps)
    ensures p.dimensions.stackRisk == ConcludeRisk(steps, context.riskRuleSetComplete).0
  {
    hide RiskStepper, StepsOf, BuildPlan, ConcludeRisk, IndexOf;
    RiskPart(host, context, assessments, m, p);
    SortPermutes(context.riskRules, ByKey(RuleKey));
    steps := RiskSteps(host, context, m, IndexOf(assessments)).value;
    StepsAre(host, m, IndexOf(assessments), SortBy(context.riskRules, RuleKey), steps);
    SameRules(host, m, IndexOf(assessments), SortBy(context.riskRules, RuleKey), context.riskRules, steps);
  }

  lemma SameRules(host: Host, m: PlanMaterial, index: AssessmentIndex, a: seq<RiskRule>, b: seq<RiskRule>,
      steps: seq<RiskStep>)
    requires StepsOf(host, m, index, a, steps) && forall rule :: rule in a <==> rule in b
    ensures StepsOf(host, m, index, b, steps)
  {
    hide RiskOf;
  }

  lemma RiskPart(host: Host, context: DecisionContext, assessments: seq<EvidenceAssessment>, m: PlanMaterial,
      p: EvaluatedPlan)
    requires BuildPlan(host, context, assessments, m) == Ok(p)
    ensures RiskSteps(host, context, m, IndexOf(assessments)).Ok?
    ensures p.dimensions.stackRisk
            == ConcludeRisk(RiskSteps(host, context, m, IndexOf(assessments)).value, context.riskRuleSetComplete).0
  {
    hide RiskSteps, Scores, ValidCost, ApplicableCriteria, BuildPlan, PreferenceOf, AggregateCoverage, ConcludeRisk,
         IndexOf, AggregateAge;
    PlanDimensionsOf(host, context, assessments, m);
  }

  // ---- Why a plan has no bounds ----

  /** Some material evidence has no known time. */
  ghost predicate Undated(m: PlanMaterial, scores: seq<Scored>, assessments: seq<EvidenceAssessment>) {
    exists a :: a in assessments && IsMaterial(m, scores, a.evidenceId) && a.timeUnavailable
  }

  /** The risk rules leave the plan's risk open for this reason. */
  ghost predicate RiskOpen(host: Host, context: DecisionContext, m: PlanMaterial, index: AssessmentIndex,
      r: BoundReason)
  {
    || (exists rule :: rule in context.riskRules && RiskOf(host, m, index, rule) == Ok(LacksInput(rule.ruleId))
                       && r == RiskInputMissing(rule.ruleId))
    || (r == RiskRulesIncomplete && !context.riskRuleSetComplete
        && forall rule :: rule in context.riskRules ==> RiskOf(host, m, index, rule) == Ok(Silent))
  }

  lemma RiskReasons(host: Host, context: DecisionContext, m: PlanMaterial, index: AssessmentIndex, r: BoundReason)
    requires RiskSteps(host, context, m, index).Ok?
    ensures r in ConcludeRisk(RiskSteps(host, context, m, index).value, context.riskRuleSetComplete).1
            <==> RiskOpen(host, context, m, index, r)
  {
    hide RiskOf, MissingInputs, Contributions, RiskStepper;
    var steps := RiskSteps(host, context, m, index).value;
    SortPermutes(context.riskRules, ByKey(RuleKey));
    StepsAre(host, m, index, SortBy(context.riskRules, RuleKey), steps);
    MissingAre(host, m, index, context.riskRules, steps);
    AllSilent(host, m, index, context.riskRules, steps);
  }

  lemma MissingAre(host: Host, m: PlanMaterial, index: AssessmentIndex, rules: seq<RiskRule>, steps: seq<RiskStep>)
    requires StepsOf(host, m, index, rules, steps)
    ensures forall r :: r in MissingInputs(steps)
              <==> exists rule ::
                   rule in rules && RiskOf(host, m, index, rule) == Ok(LacksInput(rule.ruleId))
                   && r == RiskInputMissing(rule.ruleId)
    ensures MissingInputs(steps) == {} <==> forall s :: s in steps ==> !s.LacksInput?
  {
    hide RiskOf;
    forall rule, id | rule in rules && RiskOf(host, m, index, rule) == Ok(LacksInput(id)) ensures id == rule.ruleId {
      OwnRule(host, m, index, rule, id);
    }
    forall s | s in steps && s.LacksInput? ensures RiskInputMissing(s.ruleId) in MissingInputs(steps) {}
  }

  lemma AllSilent(host: Host, m: PlanMaterial, index: AssessmentIndex, rules: seq<RiskRule>, steps: seq<RiskStep>)
    requires StepsOf(host, m, index, rules, steps)
    ensures MissingInputs(steps) == {} && Contributions(steps) == []
            <==> forall rule :: rule in rules ==> RiskOf(host, m, index, rule) == Ok(Silent)
  {
    hide RiskOf, MissingInputs, Contributions;
    MissingAre(host, m, index, rules, steps);
    NoContributions(steps);
  }

  lemma OwnRule(host: Host, m: PlanMaterial, index: AssessmentIndex, rule: RiskRule, id: string)
    requires RiskOf(host, m, index, rule) == Ok(LacksInput(id))
    ensures id == rule.ruleId
  {
    hide FieldStateOf, AllMatch;
  }

  lemma {:induction false} NoContributions(steps: seq<RiskStep>)
    ensures Contributions(steps) == [] <==> forall s :: s in steps ==> !s.Contributes?
  {
    if steps != [] {
      assert forall s :: s in steps <==> s == steps[0] || s in steps[1..];
      NoContributions(steps[1..]);
    }
  }

  /**
   * A plan lacks bounds for exactly these reasons: what a score lacks, no criterion at all, risk rules that leave
   * the risk open, material evidence without a known time, or a cost that cannot be used.
   */
  lemma ReasonsExact(host: Host, context: DecisionContext, assessments: seq<EvidenceAssessment>, m: PlanMaterial,
      p: EvaluatedPlan, r: BoundReason)
    returns (scores: seq<Scored>)
    requires BuildPlan(host, context, assessments, m) == Ok(p)
    ensures ScoredOn(host, context, m, IndexOf(assessments), ApplicableCriteria(context, m), scores)
    ensures r in p.dimensions.boundUnavailableReasons
            <==> || (exists s :: s in scores && r in s.reasons)
                 || (ApplicableCriteria(context, m) == [] && r == NoApplicablePreference)
                 || RiskOpen(host, context, m, IndexOf(assessments), r)
                 || (r == EvidenceTimeUnknown && Undated(m, scores, assessments))
                 || ValidCost(m.cost, m.paymentComponentCount) == Ok(Some(r))
  {
    hide ScoreCriterion, ApplicableCriteria, BuildPlan, PreferenceOf, AggregateAge, Ages, RiskSteps, ConcludeRisk,
         RiskOpen, Undated, AggregateCoverage, ValidCost, IndexOf, MaterialAssessments;
    var index := IndexOf(assessments);
    PlanDimensionsOf(host, context, assessments, m);
    scores := Scores(host, context, m, index).value;
    TraversePointwise(ApplicableCriteria(context, m), Scorer(host, context, m, index));
    RiskReasons(host, context, m, index, r);
    UndatedExact(m, scores, assessments);
  }

  lemma UndatedExact(m: PlanMaterial, scores: seq<Scored>, assessments: seq<EvidenceAssessment>)
    ensures (exists a :: a in MaterialAssessments(m, scores, assessments) && a.timeUnavailable)
            <==> Undated(m, scores, assessments)
  {
    forall e ensures e in MaterialEvidence(m, scores) <==> IsMaterial(m, scores, e) {}
  }
}
