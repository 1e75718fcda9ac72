/** What removing private facts does: the evaluation is that of a buyer who never stated them. */
module Removals {
  import opened Outcomes
  import opened Ordering
  import opened Domain
  import opened Bounds
  import opened GraphModels
  import opened Recall
  import opened Evidence
  import opened Gates
  import opened Dimensions
  import opened Closure
  import opened Materials
  import opened Engine
  import opened Counterfactual

  /** The facts whose identifiers are not among those removed. */
  function Left(facts: seq<BuyerFact>, gone: set<string>): seq<BuyerFact> {
    Filter(facts, (f: BuyerFact) => f.factId !in gone)
  }

  /** The input of a buyer who never stated the facts, nor those removed before. */
  function Erased(input: DecisionInput, removed: set<string>): DecisionInput {
    var c := input.context;
    input.(context := c.(buyerFacts := Left(c.buyerFacts, c.removedFactIds + removed), removedFactIds := {}))
  }

  /** Two contexts that differ in their buyer facts, but not in the active ones. */
  ghost predicate Alike(c: DecisionContext, d: DecisionContext) {
    d == c.(buyerFacts := d.buyerFacts, removedFactIds := d.removedFactIds) && ActiveFacts(c) == ActiveFacts(d)
  }

  lemma {:induction false} AllKept<T(!new)>(s: seq<T>, keep: T -> bool)
    requires forall x :: x in s ==> keep(x)
    ensures Filter(s, keep) == s
  {
    if s != [] {
      assert s[0] in s;
      AllKept(s[1..], keep);
    }
  }

  lemma ErasedAlike(input: DecisionInput, removed: set<string>)
    ensures Alike(Without(input, removed).context, Erased(input, removed).context)
    ensures Without(input, removed).candidates == Erased(input, removed).candidates
  {
    var facts, gone := input.context.buyerFacts, input.context.removedFactIds + removed;
    var c, d := Without(input, removed).context, Erased(input, removed).context;
    SameFilter(facts, (f: BuyerFact) => f.factId !in c.removedFactIds, (f: BuyerFact) => f.factId !in gone);
    AllKept(Left(facts, gone), (f: BuyerFact) => f.factId !in d.removedFactIds);
  }

  // ---- Stage by stage ----

  lemma AlikeGates(host: Host, c: DecisionContext, d: DecisionContext, m: PlanMaterial, index: AssessmentIndex)
    requires Alike(c, d)
    ensures ApplicableGates(c, m) == ApplicableGates(d, m)
    ensures EvaluateGates(host, c, m, index) == EvaluateGates(host, d, m, index)
  {
    hide ActiveFacts, GateApplies, EvaluateGate;
    assert ActiveSourceIds(c) == ActiveSourceIds(d);
    SameFilter(SortBy(c.gates, GateOrder), (g: GateRule) => GateApplies(g, m, ActiveSourceIds(c)),
      (g: GateRule) => GateApplies(g, m, ActiveSourceIds(d)));
    TraverseSame(ApplicableGates(c, m), GateEvaluator(host, m, ValueMap(ActiveFacts(c)), index),
      GateEvaluator(host, m, ValueMap(ActiveFacts(d)), index));
  }

  lemma AlikeOutcome(c: DecisionContext, d: DecisionContext, subjectId: string, criterionId: string)
    requires Alike(c, d)
    ensures OutcomeFor(c, subjectId, criterionId) == OutcomeFor(d, subjectId, criterionId)
  {
    hide ActiveFacts;
    assert ActiveSourceIds(c) == ActiveSourceIds(d);
    SameFilter(c.outcomes,
      (o: OutcomeObservation) =>
        o.subjectId == subjectId && o.criterionId == criterionId && o.sourceFactIds <= ActiveSourceIds(c),
      (o: OutcomeObservation) =>
        o.subjectId == subjectId && o.criterionId == criterionId && o.sourceFactIds <= ActiveSourceIds(d));
  }

  lemma AlikeScores(host: Host, c: DecisionContext, d: DecisionContext, m: PlanMaterial, index: AssessmentIndex)
    requires Alike(c, d)
    ensures ApplicableCriteria(c, m) == ApplicableCriteria(d, m)
    ensures Scores(host, c, m, index) == Scores(host, d, m, index)
  {
    hide ActiveFacts, CriterionApplies, OutcomeFor, FieldStateOf;
    assert ActiveSourceIds(c) == ActiveSourceIds(d);
    SameFilter(SortBy(c.preferences, CriterionKey),
      (p: PreferenceCriterion) => CriterionApplies(p, m, ActiveSourceIds(c)),
      (p: PreferenceCriterion) => CriterionApplies(p, m, ActiveSourceIds(d)));
    forall p | p in ApplicableCriteria(c, m)
      ensures ScoreCriterion(host, c, m, index, p) == ScoreCriterion(host, d, m, index, p)
    {
      AlikeOutcome(c, d, m.outcomeSubjectId, p.criterionId);
    }
    TraverseSame(ApplicableCriteria(c, m), Scorer(host, c, m, index), Scorer(host, d, m, index));
  }

  lemma AlikeDimensions(host: Host, c: DecisionContext, d: DecisionContext, m: PlanMaterial,
      assessments: seq<EvidenceAssessment>)
    requires Alike(c, d)
    ensures DimensionsOf(host, c, m, assessments) == DimensionsOf(host, d, m, assessments)
  {
    hide ActiveFacts, Scores, PreferenceOf, ApplicableCriteria, IndexOf, AggregateCoverage, ValidCost, AggregateAge;
    AlikeScores(host, c, d, m, IndexOf(assessments));
  }

  lemma AlikePlan(host: Host, c: DecisionContext, d: DecisionContext, assessments: seq<EvidenceAssessment>,
      m: PlanMaterial)
    requires Alike(c, d)
    ensures BuildPlan(host, c, assessments, m) == BuildPlan(host, d, assessments, m)
  {
    hide ActiveFacts, EvaluateGates, DimensionsOf, PrimaryStatus;
    AlikeGates(host, c, d, m, IndexOf(assessments));
    AlikeDimensions(host, c, d, m, assessments);
  }

  lemma AlikeAggregation(host: Host, c: DecisionContext, d: DecisionContext, records: seq<RawCandidate>)
    requires Alike(c, d) && records != []
    ensures AggregateFacts(host, c, records) == AggregateFacts(host, d, records)
  {
    hide ActiveFacts, BundleField, CriterionOn;
    var fields := SortedIds(set p | p in c.preferences :: p.field);
    TraverseSame(fields, BundleFields(host, c, records), BundleFields(host, d, records));
  }

  lemma AlikeMaterials(host: Host, c: DecisionContext, d: DecisionContext, representatives: seq<RawCandidate>)
    requires Alike(c, d)
    ensures AllMaterials(host, c, representatives) == AllMaterials(host, d, representatives)
  {
    hide ActiveFacts, AggregateFacts, CombinedCost, OfferMap, ClosureOf, CatalogOf;
    var roots, offers := Relabelled(host, c, representatives), OfferMap(host, c.aliases, c.offers);
    var catalog := CatalogOf(roots);
    forall r | r in roots
      ensures PackMaterial(host, c, offers, catalog, r) == PackMaterial(host, d, offers, catalog, r)
    {
      AlikeAggregation(host, c, d, ClosureOf(catalog, r).0);
    }
    TraverseSame(roots, Packer(host, c, offers, catalog), Packer(host, d, offers, catalog));
  }

  lemma AlikePair(host: Host, c: DecisionContext, d: DecisionContext, p: seq<string>)
    requires Alike(c, d)
    ensures Assessor(host, c)(p) == Assessor(host, d)(p)
  {
    hide ActiveFacts, Assess, Find;
  }

  lemma AlikePairs(c: DecisionContext, d: DecisionContext, representatives: seq<RawCandidate>)
    requires Alike(c, d)
    ensures MaterialPairs(c, representatives) == MaterialPairs(d, representatives)
  {
    hide ActiveFacts, FactPairs, CriterionField;
  }

  lemma AlikeAssessments(host: Host, c: DecisionContext, d: DecisionContext, representatives: seq<RawCandidate>)
    requires Alike(c, d)
    ensures AssessEvidence(host, c, representatives) == AssessEvidence(host, d, representatives)
  {
    hide ActiveFacts, Assessor, MaterialPairs;
    AlikePairs(c, d, representatives);
    forall p ensures Assessor(host, c)(p) == Assessor(host, d)(p) { AlikePair(host, c, d, p); }
    TraverseSame(SortedTuples(MaterialPairs(c, representatives)), Assessor(host, c), Assessor(host, d));
  }

  lemma AlikeClassified(host: Host, c: DecisionContext, d: DecisionContext, r: RawCandidate)
    requires Alike(c, d)
    ensures Classify(host, c, r) == Classify(host, d, r)
  {
    hide ActiveFacts, IdentityKeyOf;
  }

  lemma AlikeRecall(host: Host, a: DecisionInput, b: DecisionInput)
    requires Alike(a.context, b.context) && a.candidates == b.candidates
    ensures RecallAndDeduplicate(host, a) == RecallAndDeduplicate(host, b)
  {
    hide ActiveFacts, GroupsOf, ExclusionsOf, MergeGroup, Classify;
    forall r ensures Classifier(host, a.context)(r) == Classifier(host, b.context)(r) {
      AlikeClassified(host, a.context, b.context, r);
    }
    var ordered := InIdOrder(a.candidates);
    TraverseSame(ordered, Classifier(host, a.context), Classifier(host, b.context));
    var cs := Traverse(ordered, Classifier(host, a.context));
    if cs.Ok? {
      TraverseSame(SortBy(GroupsOf(cs.value), KeyParts), Merger(host, a.context), Merger(host, b.context));
    }
  }

  lemma AlikeEvaluated(host: Host, a: DecisionInput, b: DecisionInput)
    requires Alike(a.context, b.context) && a.candidates == b.candidates
    requires a.UniqueIdentifiers() && b.UniqueIdentifiers()
    ensures EvaluateOnce(host, a) == EvaluateOnce(host, b)
  {
    hide ActiveFacts, RecallAndDeduplicate, AssessEvidence, AllMaterials, BuildPlan, Rank, Alike,
         DecisionInput.UniqueIdentifiers;
    AlikeRecall(host, a, b);
    if RecallAndDeduplicate(host, a).Ok? {
      var reps := RecallAndDeduplicate(host, a).value.representatives;
      AlikeAssessments(host, a.context, b.context, reps);
      AlikeMaterials(host, a.context, b.context, reps);
      if AssessEvidence(host, a.context, reps).Ok? && AllMaterials(host, a.context, reps).Ok? {
        var assessments := AssessEvidence(host, a.context, reps).value;
        var materials := AllMaterials(host, a.context, reps).value;
        forall m ensures BuildPlan(host, a.context, assessments, m) == BuildPlan(host, b.context, assessments, m) {
          AlikePlan(host, a.context, b.context, assessments, m);
        }
        TraverseSame(materials, PlanBuilder(host, a.context, assessments), PlanBuilder(host, b.context, assessments));
      }
    }
  }

  // ---- Removal is erasure ----

  lemma StillUnique(input: DecisionInput, removed: set<string>)
    requires input.UniqueIdentifiers()
    ensures Without(input, removed).UniqueIdentifiers() && Erased(input, removed).UniqueIdentifiers()
  {
    hide Distinct;
    FilterKeepsDistinct(input.context.buyerFacts,
      (f: BuyerFact) => f.factId !in input.context.removedFactIds + removed, FactId);
  }

  /** Evaluating without the removed facts gives, in every part, what a buyer who never stated them would get. */
  lemma RemovalIsErasure(host: Host, input: DecisionInput, removed: set<string>)
    requires input.UniqueIdentifiers()
    ensures EvaluateOnce(host, Without(input, removed)) == EvaluateOnce(host, Erased(input, removed))
  {
    hide EvaluateOnce, Alike, Without, Erased, DecisionInput.UniqueIdentifiers;
    ErasedAlike(input, removed);
    StillUnique(input, removed);
    AlikeEvaluated(host, Without(input, removed), Erased(input, removed));
  }

  // ---- What is left in force ----

  /** The buyer states the fact, and it has not been removed. */
  ghost predicate Stated(c: DecisionContext, factId: string) {
    factId !in c.removedFactIds && exists f :: f in c.buyerFacts && f.factId == factId
  }

  lemma StatedExact(c: DecisionContext, factId: string)
    ensures factId in ActiveSourceIds(c) <==> Stated(c, factId)
  {
    if f :| f in c.buyerFacts && f.factId == factId && factId !in c.removedFactIds { assert f in ActiveFacts(c); }
  }

  /** A rule, criterion or observation with these sources counts. */
  ghost predicate AllStated(c: DecisionContext, sources: set<string>) {
    forall id :: id in sources ==> Stated(c, id)
  }

  lemma SourcesExact(c: DecisionContext, sources: set<string>)
    ensures sources <= ActiveSourceIds(c) <==> AllStated(c, sources)
  {
    forall id ensures id in ActiveSourceIds(c) <==> Stated(c, id) { StatedExact(c, id); }
  }

  /**
   * Which rules judge a plan: those whose sources are all stated, for its action, and by its
   * own seller if a seller's.
   */
  ghost predicate Judges(c: DecisionContext, m: PlanMaterial, rule: GateRule) {
    && rule in c.gates && AllStated(c, rule.sourceFactIds)
    && (rule.appliesToActions == {} || m.action in rule.appliesToActions)
    && (rule.blockedStatus != SeilPass || rule.gateId in m.sellerGateIds)
  }

  /** Which criteria score it. */
  ghost predicate Weighs(c: DecisionContext, m: PlanMaterial, p: PreferenceCriterion) {
    && p in c.preferences && AllStated(c, p.sourceFactIds)
    && (p.appliesToActions == {} || m.action in p.appliesToActions)
  }

  lemma RulesExact(c: DecisionContext, m: PlanMaterial)
    ensures forall rule :: rule in ApplicableGates(c, m) <==> Judges(c, m, rule)
    ensures forall p :: p in ApplicableCriteria(c, m) <==> Weighs(c, m, p)
  {
    hide ActiveSourceIds, AllStated;
    SortPermutes(c.gates, ByKey(GateOrder));
    SortPermutes(c.preferences, ByKey(CriterionKey));
    forall sources ensures sources <= ActiveSourceIds(c) <==> AllStated(c, sources) { SourcesExact(c, sources); }
  }

  /** Observation i is the last one on the subject and criterion whose sources are all stated. */
  ghost predicate LastObserved(c: DecisionContext, subjectId: string, criterionId: string, i: nat) {
    && i < |c.outcomes| && Observes(c, subjectId, criterionId, c.outcomes[i])
    && forall j :: i < j < |c.outcomes| ==> !Observes(c, subjectId, criterionId, c.outcomes[j])
  }

  ghost predicate Observes(c: DecisionContext, subjectId: string, criterionId: string, o: OutcomeObservation) {
    o.subjectId == subjectId && o.criterionId == criterionId && AllStated(c, o.sourceFactIds)
  }

  lemma {:induction false} LastKept<T(!new)>(s: seq<T>, keep: T -> bool) returns (i: nat)
    requires Filter(s, keep) != []
    ensures i < |s| && keep(s[i]) && s[i] == Filter(s, keep)[|Filter(s, keep)| - 1]
    ensures forall j :: i < j < |s| ==> !keep(s[j])
  {
    if Filter(s[1..], keep) == [] {
      i := 0;
      forall j | 0 < j < |s| ensures !keep(s[j]) { assert s[j] == s[1..][j - 1] && s[j] in s[1..]; }
    } else {
      var k := LastKept(s[1..], keep);
      i := k + 1;
      forall j | i < j < |s| ensures !keep(s[j]) { assert s[j] == s[1..][j - 1]; }
    }
  }

  /** The last such observation is the one that counts. */
  lemma OutcomeExact(c: DecisionContext, subjectId: string, criterionId: string)
    ensures var o := OutcomeFor(c, subjectId, criterionId);
            && (o.None? <==> forall x :: x in c.outcomes ==> !Observes(c, subjectId, criterionId, x))
            && (o.Some? ==> exists i: nat :: LastObserved(c, subjectId, criterionId, i) && o.value == c.outcomes[i])
  {
    hide ActiveSourceIds, AllStated;
    var keep := (o: OutcomeObservation) =>
        o.subjectId == subjectId && o.criterionId == criterionId && o.sourceFactIds <= ActiveSourceIds(c);
    forall x ensures keep(x) <==> Observes(c, subjectId, criterionId, x) { SourcesExact(c, x.sourceFactIds); }
    var matching := Filter(c.outcomes, keep);
    SameFilter(c.outcomes, keep, (o: OutcomeObservation) =>
      o.subjectId == subjectId && o.criterionId == criterionId && o.sourceFactIds <= ActiveSourceIds(c));
    if matching == [] {
      forall x | x in c.outcomes ensures !Observes(c, subjectId, criterionId, x) { assert x !in matching; }
    } else {
      var i := LastKept(c.outcomes, keep);
      assert LastObserved(c, subjectId, criterionId, i);
      assert c.outcomes[i] in c.outcomes;
    }
  }

  /** Once a fact is removed, no rule, criterion or observation that rests on it has a say. */
  lemma RemovedHaveNoSay(input: DecisionInput, removed: set<string>, m: PlanMaterial)
    ensures var c := Without(input, removed).context;
            && (forall rule :: rule in ApplicableGates(c, m) ==> rule.sourceFactIds !! removed)
            && (forall p :: p in ApplicableCriteria(c, m) ==> p.sourceFactIds !! removed)
            && (forall s, k :: OutcomeFor(c, s, k).Some? ==> OutcomeFor(c, s, k).value.sourceFactIds !! removed)
  {
    hide ApplicableGates, ApplicableCriteria, OutcomeFor;
    var c := Without(input, removed).context;
    RulesExact(c, m);
    forall s, k | OutcomeFor(c, s, k).Some? ensures OutcomeFor(c, s, k).value.sourceFactIds !! removed {
      OutcomeExact(c, s, k);
    }
    forall sources: set<string> | AllStated(c, sources) ensures sources !! removed {
      forall id | id in sources ensures id !in removed { assert Stated(c, id); }
    }
  }

  // ---- What the search removes ----

  /** The input of a buyer who keeps private facts to themselves. */
  function PublicOnly(input: DecisionInput): DecisionInput {
    var c := input.context;
    var kept := Filter(c.buyerFacts, (f: BuyerFact) => !f.private && f.factId !in c.removedFactIds);
    input.(context := c.(buyerFacts := kept, removedFactIds := {}))
  }

  /** The generic evaluation is that of a buyer without private facts. */
  lemma GenericIsPublic(host: Host, input: DecisionInput)
    requires input.UniqueIdentifiers()
    ensures EvaluateOnce(host, Without(input, AllPrivate(input.context))) == EvaluateOnce(host, PublicOnly(input))
  {
    hide EvaluateOnce;
    RemovalIsErasure(host, input, AllPrivate(input.context));
    var facts, gone := input.context.buyerFacts, input.context.removedFactIds + AllPrivate(input.context);
    forall f | f in facts ensures f.factId !in gone <==> !f.private && f.factId !in input.context.removedFactIds {
      if g :| g in facts && g.private && g.factId == f.factId { OneFact(facts, f, g); }
    }
    SameFilter(facts, (f: BuyerFact) => f.factId !in gone,
      (f: BuyerFact) => !f.private && f.factId !in input.context.removedFactIds);
    assert Erased(input, AllPrivate(input.context)) == PublicOnly(input);
  }

  lemma OneFact(facts: seq<BuyerFact>, f: BuyerFact, g: BuyerFact)
    requires Distinct(Map(facts, FactId)) && f in facts && g in facts && f.factId == g.factId
    ensures f == g
  {
    var i :| 0 <= i < |facts| && facts[i] == f;
    var j :| 0 <= j < |facts| && facts[j] == g;
    assert Map(facts, FactId)[i] == Map(facts, FactId)[j];
  }

  /** A private fact that is still in place. */
  ghost predicate MayGo(input: DecisionInput, factId: string) {
    exists f :: f in input.context.buyerFacts && f.private && f.factId == factId
                && factId !in input.context.removedFactIds
  }

  /** A buyer who never stated these facts is offered another plan, or none. */
  ghost predicate WouldChange(host: Host, input: DecisionInput, base: Evaluation, removed: set<string>) {
    var e := EvaluateOnce(host, Erased(input, removed));
    e.Ok? && e.value.SelectedPlanId() != base.SelectedPlanId()
  }

  /** Private facts in place, some of them but no more than the limit. */
  ghost predicate Few(input: DecisionInput, s: set<string>, limit: int) {
    1 <= |s| <= limit && forall id :: id in s ==> MayGo(input, id)
  }

  /**
   * The search answers with private facts in place, without which the buyer would be offered another plan,
   * and no smaller set of them would do; or no set within the limit would.
   */
  lemma SearchMeansErasure(host: Host, input: DecisionInput, limit: int, d: Decision)
    requires input.UniqueIdentifiers() && Counterfactual.Decided(host, input, limit, d)
    ensures d.counterfactual.changed ==>
              var s := Members(d.counterfactual.removed);
              && Few(input, s, limit) && WouldChange(host, input, d.base, s)
              && forall t :: Few(input, t, |s| - 1) ==> !WouldChange(host, input, d.base, t)
    ensures !d.counterfactual.changed ==> forall t :: Few(input, t, limit) ==> !WouldChange(host, input, d.base, t)
  {
    hide EvaluateOnce, Without, Erased, DecisionInput.UniqueIdentifiers;
    var rerun, r := Rerunner(host, input), d.counterfactual;
    forall s ensures Flips(rerun, d.base, s) <==> WouldChange(host, input, d.base, s) {
      RemovalIsErasure(host, input, s);
    }
    forall s, n | Few(input, s, n) ensures s <= Removable(input.context) {}
    if r.changed {
      var listed := [r.removed] + r.alternatives;
      assert listed[0] in listed;
      IncreasingSize(r.removed);
      forall id | id in Members(r.removed) ensures MayGo(input, id) {
        assert id in Removable(input.context);
      }
    }
  }
}
