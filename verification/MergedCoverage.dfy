/** When duplicates raise the coverage of a plan above what one of them has alone. */
module MergedCoverage {
  import opened Outcomes
  import opened Ordering
  import opened Bounds
  import opened GraphModels
  import opened Recall
  import opened Duplicates
  import opened Evidence
  import opened Gates
  import opened Dimensions
  import opened Materials
  import opened Engine
  import opened Guarantees
  import opened RankGuarantees
  import opened LonePlans

  /** The duplicates make the criterion's field acceptable, which it is not on the record's own evidence. */
  ghost predicate Gained(group: seq<RawCandidate>, a: RawCandidate, index: AssessmentIndex, c: PreferenceCriterion) {
    && c.normalization != OutcomeRate
    && GroupAgrees(group, c.field) && GroupBacked(group, c.field, index, Acceptable)
    && !GroupBacked(group, c.field, index, EvidenceState.Conflict)
    && !Backed(a.facts, c.field, index, Acceptable)
  }

  /** The record is acceptable on the criterion's field, but a duplicate contradicts it or has disputed evidence. */
  ghost predicate Lost(group: seq<RawCandidate>, a: RawCandidate, index: AssessmentIndex, c: PreferenceCriterion) {
    && c.normalization != OutcomeRate
    && OneValue(a.facts, c.field) && Backed(a.facts, c.field, index, Acceptable)
    && !Backed(a.facts, c.field, index, EvidenceState.Conflict)
    && (!GroupAgrees(group, c.field) || GroupBacked(group, c.field, index, EvidenceState.Conflict))
  }

  ghost function GainedWeight(group: seq<RawCandidate>, a: RawCandidate, index: AssessmentIndex,
      criteria: seq<PreferenceCriterion>): nat
  {
    if criteria == [] then 0
    else (if Gained(group, a, index, criteria[0]) then criteria[0].coverageWeight else 0)
         + GainedWeight(group, a, index, criteria[1..])
  }

  ghost function LostWeight(group: seq<RawCandidate>, a: RawCandidate, index: AssessmentIndex,
      criteria: seq<PreferenceCriterion>): nat
  {
    if criteria == [] then 0
    else (if Lost(group, a, index, criteria[0]) then criteria[0].coverageWeight else 0)
         + LostWeight(group, a, index, criteria[1..])
  }

  // ---- Two evaluations ----

  /** A record a is evaluated in e with its duplicates f, as plan p, and in d alone, as plan q. */
  ghost predicate Compared(host: Host, input: DecisionInput, a: RawCandidate, e: Evaluation, p: EvaluatedPlan, f: Filed,
      m: PlanMaterial, d: Evaluation, q: EvaluatedPlan, g: Filed, n: PlanMaterial)
  {
    && EvaluateOnce(host, input) == Ok(e) && Rooted(host, input, e, p, f, m) && a in f.Records()
    && EvaluateOnce(host, WithOnly(input, a)) == Ok(d) && Rooted(host, WithOnly(input, a), d, q, g, n)
  }

  /** The same input without the other candidates. */
  function WithOnly(input: DecisionInput, a: RawCandidate): DecisionInput {
    input.(candidates := [a])
  }

  /** Both indices answer for the pair, and say the same. */
  predicate SameAnswer(x: AssessmentIndex, y: AssessmentIndex, evidenceId: string, field: string) {
    (evidenceId, field) in x && (evidenceId, field) in y && x[(evidenceId, field)] == y[(evidenceId, field)]
  }

  lemma BothAnswer(host: Host, context: DecisionContext, r: seq<RawCandidate>, s: seq<RawCandidate>, evidenceId: string,
      field: string)
    requires AssessEvidence(host, context, r).Ok? && AssessEvidence(host, context, s).Ok?
    requires Pair(evidenceId, field) in MaterialPairs(context, r)
             && Pair(evidenceId, field) in MaterialPairs(context, s)
    ensures SameAnswer(IndexOf(AssessEvidence(host, context, r).value), IndexOf(AssessEvidence(host, context, s).value),
              evidenceId, field)
  {
    hide AssessEvidence, IndexOf, MaterialPairs, AssessPair;
    AssessedExactly(host, context, r);
    AssessedExactly(host, context, s);
  }

  lemma FactAsked(host: Host, context: DecisionContext, representatives: seq<RawCandidate>, group: seq<RawCandidate>,
      product: string, a: RawCandidate, x: ProductFact, evidenceId: string)
    requires exists rep :: rep in representatives && rep.facts == MergeFacts(host, AllFacts(group), product)
    requires a in group && x in a.facts && evidenceId in x.evidenceIds
    ensures Pair(evidenceId, x.field) in MaterialPairs(context, representatives)
  {
    hide MergeFacts, AllFacts;
    FactOf(group, x);
    MergeKeepsValues(host, AllFacts(group), product, x);
    var y :| y in MergeFacts(host, AllFacts(group), product) && y.field == x.field && x.evidenceIds <= y.evidenceIds;
    var rep :| rep in representatives && rep.facts == MergeFacts(host, AllFacts(group), product);
    assert Pair(evidenceId, y.field) in FactPairs(rep.facts);
  }

  lemma OutcomeAsked(context: DecisionContext, representatives: seq<RawCandidate>, o: OutcomeObservation,
      c: PreferenceCriterion, evidenceId: string)
    requires Distinct(Map(context.preferences, CriterionId)) && c in context.preferences
    requires o in context.outcomes && o.criterionId == c.criterionId && evidenceId in o.evidenceIds
    ensures Pair(evidenceId, c.field) in MaterialPairs(context, representatives)
  {
    var wanted := (p: PreferenceCriterion) => p.criterionId == o.criterionId;
    var ps := context.preferences;
    var i :| 0 <= i < |ps| && ps[i] == c;
    var found := Find(ps, wanted);
    var j :| 0 <= j < |ps| && ps[j] == found.value;
    assert Map(ps, CriterionId)[i] == Map(ps, CriterionId)[j];
    assert CriterionField(ps, o.criterionId) == Some(c.field);
    assert Pair(evidenceId, c.field) in OutcomePairs(context);
  }

  /** The two evaluations agree on the evidence behind the record and behind outcomes. */
  lemma AnswersAgree(host: Host, input: DecisionInput, a: RawCandidate, e: Evaluation, p: EvaluatedPlan, f: Filed,
      m: PlanMaterial, d: Evaluation, q: EvaluatedPlan, g: Filed, n: PlanMaterial)
    requires Compared(host, input, a, e, p, f, m, d, q, g, n)
    ensures forall x, ev :: x in a.facts && ev in x.evidenceIds ==>
              SameAnswer(IndexOf(e.assessments), IndexOf(d.assessments), ev, x.field)
    ensures forall o, ev, c ::
              o in input.context.outcomes && ev in o.evidenceIds && c in input.context.preferences
              && o.criterionId == c.criterionId ==>
              SameAnswer(IndexOf(e.assessments), IndexOf(d.assessments), ev, c.field)
  {
    hide EvaluateOnce, AssessEvidence, IndexOf, MaterialPairs, MergeFacts, AllFacts, BuildPlan, SayTheSame, SameAnswer;
    var context, r, s := input.context, e.recall.representatives, d.recall.representatives;
    EvaluationStages(host, input, e);
    EvaluationStages(host, WithOnly(input, a), d);
    UniqueCriteria(host, input, e);
    OnlyOne(host, input, a, g);
    forall x, ev | x in a.facts && ev in x.evidenceIds
      ensures SameAnswer(IndexOf(e.assessments), IndexOf(d.assessments), ev, x.field)
    {
      FactAsked(host, context, r, f.Records(), f.key.product, a, x, ev);
      FactAsked(host, context, s, g.Records(), g.key.product, a, x, ev);
      BothAnswer(host, context, r, s, ev, x.field);
    }
    forall o, ev, c | o in input.context.outcomes && ev in o.evidenceIds && c in input.context.preferences
        && o.criterionId == c.criterionId
      ensures SameAnswer(IndexOf(e.assessments), IndexOf(d.assessments), ev, c.field)
    {
      OutcomeAsked(context, r, o, c, ev);
      OutcomeAsked(context, s, o, c, ev);
      BothAnswer(host, context, r, s, ev, c.field);
    }
  }

  lemma UniqueCriteria(host: Host, input: DecisionInput, e: Evaluation)
    requires EvaluateOnce(host, input) == Ok(e)
    ensures Distinct(Map(input.context.preferences, CriterionId))
  {
    hide RecallAndDeduplicate, EvaluateRecalled, Distinct;
  }

  /** A record evaluated alone is all of its group. */
  lemma OnlyOne(host: Host, input: DecisionInput, a: RawCandidate, g: Filed)
    requires KeptUnder(host, WithOnly(input, a), g.key, g.Records())
    ensures g.Records() != [] && forall r :: r in g.Records() <==> r == a
    ensures Classify(host, input.context, a) == Ok(Kept(a, g.key))
  {
    hide Classify;
    assert g.Records()[0] in g.Records();
  }

  // ---- One criterion ----

  /** The criterion counts as covered. */
  predicate Counts(c: PreferenceCriterion, s: Scored) {
    CoverageOf(c, s.component).conservative
  }

  lemma FieldCounts(host: Host, context: DecisionContext, m: PlanMaterial, index: AssessmentIndex,
      c: PreferenceCriterion)
    requires ScoreCriterion(host, context, m, index, c).Ok? && c.normalization != OutcomeRate
    ensures Counts(c, ScoreCriterion(host, context, m, index, c).value)
            <==> FieldStateOf(host, m.facts, c.field, index).state == Acceptable
  {
    hide FieldStateOf, Normalize;
  }

  lemma OutcomeListed(context: DecisionContext, subjectId: string, criterionId: string)
    ensures var o := OutcomeFor(context, subjectId, criterionId);
            o.Some? ==> o.value in context.outcomes && o.value.criterionId == criterionId
  {
  }

  lemma OutcomeCounts(host: Host, context: DecisionContext, m: PlanMaterial, x: AssessmentIndex, n: PlanMaterial,
      y: AssessmentIndex, c: PreferenceCriterion)
    requires c.normalization == OutcomeRate && m.outcomeSubjectId == n.outcomeSubjectId
    requires forall o, ev :: o in context.outcomes && ev in o.evidenceIds && o.criterionId == c.criterionId ==>
               SameAnswer(x, y, ev, c.field)
    ensures Counts(c, ScoreCriterion(host, context, m, x, c).value)
            <==> Counts(c, ScoreCriterion(host, context, n, y, c).value)
  {
    hide FieldStateOf;
    var o := OutcomeFor(context, m.outcomeSubjectId, c.criterionId);
    if o.Some? {
      OutcomeListed(context, m.outcomeSubjectId, c.criterionId);
      forall ev | ev in o.value.evidenceIds ensures SameAnswer(x, y, ev, c.field) {}
      assert AssessmentsOn(o.value.evidenceIds, c.field, x) == AssessmentsOn(o.value.evidenceIds, c.field, y);
    }
  }

  /** Fields that say the same are in the same state. */
  lemma SameState(host: Host, facts: seq<ProductFact>, others: seq<ProductFact>, field: string, index: AssessmentIndex)
    requires SayTheSame(facts, others) && field != LANDED_TOTAL
    ensures FieldStateOf(host, facts, field, index) == FieldStateOf(host, others, field, index)
  {
    assert OnField(facts, field) == OnField(others, field);
  }

  /** A plan's field is acceptable when its group agrees, on acceptable and undisputed evidence. */
  lemma RootedState(host: Host, input: DecisionInput, e: Evaluation, p: EvaluatedPlan, f: Filed, m: PlanMaterial,
      field: string)
    requires Rooted(host, input, e, p, f, m) && field != LANDED_TOTAL
    ensures var index := IndexOf(e.assessments);
            FieldStateOf(host, m.facts, field, index).state == Acceptable
            <==> && GroupAgrees(f.Records(), field) && GroupBacked(f.Records(), field, index, Acceptable)
                 && !GroupBacked(f.Records(), field, index, EvidenceState.Conflict)
  {
    hide FieldStateOf, MergeFacts, AllFacts, IndexOf, BuildPlan, KeptUnder, GroupAgrees, GroupBacked, SayTheSame;
    SameState(host, m.facts, MergeFacts(host, AllFacts(f.Records()), f.key.product), field, IndexOf(e.assessments));
    MergedFieldExact(host, f.Records(), f.key.product, field, IndexOf(e.assessments));
  }

  lemma LoneGroup(group: seq<RawCandidate>, a: RawCandidate, field: string, index: AssessmentIndex,
      state: EvidenceState)
    requires forall r :: r in group <==> r == a
    ensures GroupAgrees(group, field) <==> OneValue(a.facts, field)
    ensures GroupBacked(group, field, index, state) <==> Backed(a.facts, field, index, state)
  {
    hide Backed;
    assert a in group;
  }

  lemma SameBacking(a: RawCandidate, field: string, x: AssessmentIndex, y: AssessmentIndex, state: EvidenceState)
    requires forall f, ev :: f in a.facts && ev in f.evidenceIds ==> SameAnswer(x, y, ev, f.field)
    ensures Backed(a.facts, field, x, state) <==> Backed(a.facts, field, y, state)
  {
  }

  lemma AloneState(host: Host, input: DecisionInput, a: RawCandidate, e: Evaluation, p: EvaluatedPlan, f: Filed,
      m: PlanMaterial, d: Evaluation, q: EvaluatedPlan, g: Filed, n: PlanMaterial, field: string)
    requires Compared(host, input, a, e, p, f, m, d, q, g, n) && field != LANDED_TOTAL
    ensures FieldStateOf(host, n.facts, field, IndexOf(d.assessments)).state == Acceptable
            <==> && OneValue(a.facts, field) && Backed(a.facts, field, IndexOf(e.assessments), Acceptable)
                 && !Backed(a.facts, field, IndexOf(e.assessments), EvidenceState.Conflict)
  {
    hide EvaluateOnce, FieldStateOf, IndexOf, Backed, GroupAgrees, GroupBacked, OneValue, BuildPlan, MergeFacts,
         AllFacts, SayTheSame, SameAnswer;
    AnswersAgree(host, input, a, e, p, f, m, d, q, g, n);
    RootedState(host, WithOnly(input, a), d, q, g, n, field);
    OnlyOne(host, input, a, g);
    LoneGroup(g.Records(), a, field, IndexOf(d.assessments), Acceptable);
    LoneGroup(g.Records(), a, field, IndexOf(d.assessments), EvidenceState.Conflict);
    SameBacking(a, field, IndexOf(e.assessments), IndexOf(d.assessments), Acceptable);
    SameBacking(a, field, IndexOf(e.assessments), IndexOf(d.assessments), EvidenceState.Conflict);
  }

  lemma OwnBacking(group: seq<RawCandidate>, a: RawCandidate, field: string, index: AssessmentIndex)
    requires a in group
    ensures GroupAgrees(group, field) && Backed(a.facts, field, index, Acceptable) ==> OneValue(a.facts, field)
    ensures forall s :: Backed(a.facts, field, index, s) ==> GroupBacked(group, field, index, s)
  {
  }

  /** A criterion counts with the duplicates and not without exactly when it is gained; and the other way when lost. */
  ghost predicate Moves(group: seq<RawCandidate>, a: RawCandidate, index: AssessmentIndex, c: PreferenceCriterion,
      s: Scored, r: Scored)
  {
    && (Counts(c, s) && !Counts(c, r) <==> Gained(group, a, index, c))
    && (!Counts(c, s) && Counts(c, r) <==> Lost(group, a, index, c))
  }

  lemma CriterionMoves(host: Host, input: DecisionInput, a: RawCandidate, e: Evaluation, p: EvaluatedPlan, f: Filed,
      m: PlanMaterial, d: Evaluation, q: EvaluatedPlan, g: Filed, n: PlanMaterial, c: PreferenceCriterion, s: Scored,
      r: Scored)
    requires Compared(host, input, a, e, p, f, m, d, q, g, n)
    requires c in input.context.preferences && c.field != LANDED_TOTAL
    requires ScoreCriterion(host, input.context, m, IndexOf(e.assessments), c) == Ok(s)
    requires ScoreCriterion(host, input.context, n, IndexOf(d.assessments), c) == Ok(r)
    ensures Moves(f.Records(), a, IndexOf(e.assessments), c, s, r)
  {
    hide EvaluateOnce, ScoreCriterion, Counts, FieldStateOf, IndexOf, Backed, GroupAgrees, GroupBacked, OneValue,
         BuildPlan, MergeFacts, AllFacts, SayTheSame, SameAnswer, KeptUnder;
    var group, index := f.Records(), IndexOf(e.assessments);
    if c.normalization == OutcomeRate {
      SameSubject(host, input, a, e, p, f, m, d, q, g, n);
      AnswersAgree(host, input, a, e, p, f, m, d, q, g, n);
      OutcomeCounts(host, input.context, m, index, n, IndexOf(d.assessments), c);
    } else {
      FieldCounts(host, input.context, m, index, c);
      FieldCounts(host, input.context, n, IndexOf(d.assessments), c);
      RootedState(host, input, e, p, f, m, c.field);
      AloneState(host, input, a, e, p, f, m, d, q, g, n, c.field);
      OwnBacking(group, a, c.field, index);
    }
  }

  lemma SameSubject(host: Host, input: DecisionInput, a: RawCandidate, e: Evaluation, p: EvaluatedPlan, f: Filed,
      m: PlanMaterial, d: Evaluation, q: EvaluatedPlan, g: Filed, n: PlanMaterial)
    requires Compared(host, input, a, e, p, f, m, d, q, g, n)
    ensures m.outcomeSubjectId == n.outcomeSubjectId && m.action == n.action
  {
    hide EvaluateOnce, IndexOf, BuildPlan, MergeFacts, AllFacts, SayTheSame, Classify;
    OnlyOne(host, input, a, g);
  }

  // ---- All criteria ----

  /** The scores are those of the criteria, one by one. */
  ghost predicate ScoredOn(host: Host, context: DecisionContext, m: PlanMaterial, index: AssessmentIndex,
      criteria: seq<PreferenceCriterion>, scores: seq<Scored>)
  {
    |criteria| == |scores|
    && forall i :: 0 <= i < |criteria| ==> ScoreCriterion(host, context, m, index, criteria[i]) == Ok(scores[i])
  }

  lemma {:induction false} WeightsMove(group: seq<RawCandidate>, a: RawCandidate, index: AssessmentIndex,
      cs: seq<PreferenceCriterion>, ss: seq<Scored>, rs: seq<Scored>)
    requires |cs| == |ss| == |rs|
    requires forall i :: 0 <= i < |cs| ==> Moves(group, a, index, cs[i], ss[i], rs[i])
    ensures CoveredWeight(CoverageCriteria(cs, ss), CoveredNow) + LostWeight(group, a, index, cs)
         == CoveredWeight(CoverageCriteria(cs, rs), CoveredNow) + GainedWeight(group, a, index, cs)
    ensures CoveredWeight(CoverageCriteria(cs, ss), Counted) == CoveredWeight(CoverageCriteria(cs, rs), Counted)
  {
    hide Gained, Lost;
    if cs != [] {
      assert Moves(group, a, index, cs[0], ss[0], rs[0]);
      WeightsMove(group, a, index, cs[1..], ss[1..], rs[1..]);
      TailCoverage(cs, ss);
      TailCoverage(cs, rs);
    }
  }

  lemma TailCoverage(cs: seq<PreferenceCriterion>, ss: seq<Scored>)
    requires |cs| == |ss| > 0
    ensures CoverageCriteria(cs, ss)[1..] == CoverageCriteria(cs[1..], ss[1..])
  {
  }

  lemma LargerShare(part: nat, other: nat, whole: nat)
    requires whole > 0
    ensures Share(part, whole) < Share(other, whole) <==> part < other
  {
    var p, q := Share(part, whole), Share(other, whole);
    assert p * whole as real == part as real && q * whole as real == other as real;
  }

  /** What the coverage of a plan's dimensions is the share of. */
  lemma CoverageParts(host: Host, context: DecisionContext, m: PlanMaterial, assessments: seq<EvidenceAssessment>,
      p: EvaluatedPlan)
    returns (scores: seq<Scored>)
    requires BuildPlan(host, context, assessments, m) == Ok(p)
    ensures var criteria := ApplicableCriteria(context, m);
            && |scores| == |criteria| && ScoredOn(host, context, m, IndexOf(assessments), criteria, scores)
            && AggregateCoverage(CoverageCriteria(criteria, scores)) == Ok(p.dimensions.coverage)
  {
    hide ScoreCriterion, PreferenceOf, RiskSteps, ValidCost, ApplicableCriteria, AggregateCoverage, BuildPlan;
    PlanDimensionsOf(host, context, assessments, m);
    scores := Scores(host, context, m, IndexOf(assessments)).value;
    TraversePointwise(ApplicableCriteria(context, m), Scorer(host, context, m, IndexOf(assessments)));
  }

  lemma SameCriteria(context: DecisionContext, m: PlanMaterial, n: PlanMaterial)
    requires m.action == n.action
    ensures ApplicableCriteria(context, m) == ApplicableCriteria(context, n)
    ensures forall c :: c in ApplicableCriteria(context, m) ==> c in context.preferences
  {
    SortPermutes(context.preferences, ByKey(CriterionKey));
    SameFilter(SortBy(context.preferences, CriterionKey),
      (c: PreferenceCriterion) => CriterionApplies(c, m, ActiveSourceIds(context)),
      (c: PreferenceCriterion) => CriterionApplies(c, n, ActiveSourceIds(context)));
  }

  lemma CoverageCompares(x: seq<CoverageCriterion>, y: seq<CoverageCriterion>, b: Interval, c: Interval)
    requires AggregateCoverage(x) == Ok(b) && AggregateCoverage(y) == Ok(c) && |x| == |y|
    requires CoveredWeight(x, Counted) == CoveredWeight(y, Counted)
    ensures c.low < b.low <==> CoveredWeight(y, CoveredNow) < CoveredWeight(x, CoveredNow)
  {
    hide Share;
    if x != [] {
      CoveragePositive(x);
      LargerShare(CoveredWeight(y, CoveredNow), CoveredWeight(x, CoveredNow), CoveredWeight(x, Counted));
    }
  }

  /**
   * The plan of a record evaluated with its duplicates has a higher conservative coverage than its plan when
   * it is evaluated alone exactly when the criteria gained from the duplicates outweigh those lost to them.
   */
  lemma CoverageRisesExact(host: Host, input: DecisionInput, a: RawCandidate, e: Evaluation, p: EvaluatedPlan, f: Filed,
      m: PlanMaterial, d: Evaluation, q: EvaluatedPlan, g: Filed, n: PlanMaterial)
    requires Compared(host, input, a, e, p, f, m, d, q, g, n)
    requires forall c :: c in input.context.preferences ==> c.field != LANDED_TOTAL
    ensures var index, criteria := IndexOf(e.assessments), ApplicableCriteria(input.context, m);
            q.dimensions.coverage.low < p.dimensions.coverage.low
            <==> LostWeight(f.Records(), a, index, criteria) < GainedWeight(f.Records(), a, index, criteria)
  {
    hide EvaluateOnce, BuildPlan, ApplicableCriteria, MergeFacts, AllFacts, IndexOf, ScoreCriterion, SayTheSame, Moves,
         AggregateCoverage, KeptUnder;
    var index, criteria := IndexOf(e.assessments), ApplicableCriteria(input.context, m);
    SameSubject(host, input, a, e, p, f, m, d, q, g, n);
    SameCriteria(input.context, m, n);
    var ss := CoverageParts(host, input.context, m, e.assessments, p);
    var rs := CoverageParts(host, input.context, n, d.assessments, q);
    forall i | 0 <= i < |criteria| ensures Moves(f.Records(), a, index, criteria[i], ss[i], rs[i]) {
      assert criteria[i] in criteria;
      CriterionMoves(host, input, a, e, p, f, m, d, q, g, n, criteria[i], ss[i], rs[i]);
    }
    WeightsMove(f.Records(), a, index, criteria, ss, rs);
    CoverageCompares(CoverageCriteria(criteria, ss), CoverageCriteria(criteria, rs), p.dimensions.coverage,
      q.dimensions.coverage);
  }
}
