/** Two duplicates whose plan covers more than the plan either has alone. */
module SplitRecords {
  import opened Outcomes
  import opened Ordering
  import opened Bounds
  import opened GraphModels
  import opened Recall
  import opened Duplicates
  import opened Evidence
  import opened Gates
  import opened Dimensions
  import opened Materials
  import opened Engine
  import opened Guarantees
  import opened RankGuarantees
  import opened LonePlans
  import opened Exceptions
  import opened PlainRecall
  import opened Closure
  import opened Domain
  import opened MergedCoverage

  /** Facts on x and y, each with its own evidence. */
  function FactsOnBoth(ex: string, ey: string): seq<ProductFact> {
    [FactOn("x", ex), FactOn("y", ey)]
  }

  function RecordWith(recordId: string, facts: seq<ProductFact>): RawCandidate {
    RawCandidate(recordId, "pack", 1, "seller", "product", "edition", "EU", "offer", SellerSealed, true, facts, {}, {},
      {}, Published, {})
  }

  const ONE := RecordWith("one", FactsOnBoth("a1", "a2"))
  const TWO := RecordWith("two", FactsOnBoth("b1", "b2"))

  function CriterionFor(field: string): PreferenceCriterion {
    PreferenceCriterion(field, field, 1, 1, BooleanEquals, Truth(true), {}, {}, {0.0, 1.0}, [], None, None, None,
      PrimaryComponent)
  }

  function OfferOf(offerId: string): OfferCost {
    var price := Some(Money(100, "USD"));
    OfferCost(offerId, price, price, price, 30, [], false)
  }

  /** There is current evidence behind the first record's x and the second record's y, and no other. */
  const SPLIT_CONTEXT := DecisionContext(
    0, [], [OfferOf("offer")], [Witness("a1", 0), Witness("b2", 0)], [OneSecond("x"), OneSecond("y")], [],
    [CriterionFor("x"), CriterionFor("y")], [], false, [], map[], [], {}, None)

  function SplitInput(candidates: seq<RawCandidate>): DecisionInput {
    DecisionInput(candidates, SPLIT_CONTEXT)
  }

  /** Some of the two records, each at most once. */
  ghost predicate OfTheTwo(candidates: seq<RawCandidate>) {
    Distinct(Map(candidates, RecordId)) && forall r :: r in candidates ==> r == ONE || r == TWO
  }

  lemma SplitNames()
    ensures "x" != "y" && "a1" != "b2" && "a2" != "a1" && "a2" != "b2" && "b1" != "a1" && "b1" != "b2"
    ensures "one" != "two"
  {
    assert "x"[0] != "y"[0] && "one"[0] != "two"[0];
    assert "a1"[0] != "b2"[0] && "a2"[1] != "a1"[1] && "a2"[0] != "b2"[0];
    assert "b1"[0] != "a1"[0] && "b1"[1] != "b2"[1];
  }

  lemma SplitUnique(candidates: seq<RawCandidate>)
    requires OfTheTwo(candidates)
    ensures SplitInput(candidates).UniqueIdentifiers()
  {
    SplitNames();
  }

  lemma SplitKept(host: Host, r: RawCandidate)
    requires r == ONE || r == TWO
    ensures Classify(host, SPLIT_CONTEXT, r) == Ok(Kept(r, FoldKey(host, ONE)))
  {
    PlainClassify(host, SPLIT_CONTEXT, r);
  }

  /** Without aliases recall returns. */
  lemma Recalls(host: Host, input: DecisionInput)
    requires input.context.aliases == map[]
    ensures RecallAndDeduplicate(host, input).Ok?
  {
    hide Classify, MergeGroup, GroupsOf, ExclusionsOf;
    var ordered := InIdOrder(input.candidates);
    forall r | r in ordered ensures Classifier(host, input.context)(r).Ok? { Classifies(host, input.context, r); }
    TraverseAmong(ordered, Classifier(host, input.context), {});
    var filed := SortBy(GroupsOf(Traverse(ordered, Classifier(host, input.context)).value), KeyParts);
    forall f | f in filed ensures Merger(host, input.context)(f).Ok? { Merges(host, f); }
    TraverseAmong(filed, Merger(host, input.context), {});
  }

  lemma Classifies(host: Host, context: DecisionContext, r: RawCandidate)
    requires context.aliases == map[]
    ensures Classify(host, context, r).Ok?
  {
  }

  lemma Merges(host: Host, f: Filed)
    ensures MergeGroup(host, map[], f).Ok?
  {
    hide Representative;
  }

  /** What is recalled states x and y only. */
  lemma SplitRepresentative(host: Host, candidates: seq<RawCandidate>, rep: RawCandidate)
    requires OfTheTwo(candidates) && RecallAndDeduplicate(host, SplitInput(candidates)).Ok?
    requires rep in RecallAndDeduplicate(host, SplitInput(candidates)).value.representatives
    ensures OnBoth(rep.facts)
    ensures rep.requiredProductIds == {}
  {
    hide RecallAndDeduplicate, MergeFacts, AllFacts, MergeGroup, Classify;
    var f := RepresentativeSource(host, SplitInput(candidates), rep);
    MergedFacts(host, map[], f);
    GroupNeedsNothing(host, SplitInput(candidates), f);
    forall x | x in rep.facts ensures x.field == "x" || x.field == "y" {
      MergeAddsNothing(host, AllFacts(f.Records()), f.key.product, x);
      var y :| y in AllFacts(f.Records()) && y.field == x.field;
      FactOf(f.Records(), y);
      var r :| r in f.Records() && y in r.facts;
      assert r in candidates;
    }
  }

  lemma SplitPair(host: Host, evidenceId: string, field: string)
    requires field == "x" || field == "y"
    ensures var a := AssessPair(host, SPLIT_CONTEXT, evidenceId, field);
            && a.Ok?
            && a.value.state == if evidenceId == "a1" || evidenceId == "b2" then Acceptable else EvidenceState.Unknown
  {
    SplitNames();
    FirstFound(SPLIT_CONTEXT.evidencePolicies, (p: EvidencePolicy) => p.field == field, if field == "x" then 0 else 1);
    var wanted := (r: EvidenceRecord) => r.evidenceId == evidenceId;
    if evidenceId == "a1" { FirstFound(SPLIT_CONTEXT.evidence, wanted, 0); }
    if evidenceId == "b2" { FirstFound(SPLIT_CONTEXT.evidence, wanted, 1); }
  }

  /** All facts are on x or y. */
  predicate OnBoth(facts: seq<ProductFact>) {
    forall x :: x in facts ==> x.field == "x" || x.field == "y"
  }

  lemma SplitAsked(representatives: seq<RawCandidate>, p: seq<string>) returns (evidenceId: string, field: string)
    requires p in MaterialPairs(SPLIT_CONTEXT, representatives) && forall r :: r in representatives ==> OnBoth(r.facts)
    ensures p == Pair(evidenceId, field) && (field == "x" || field == "y")
  {
    var r :| r in representatives && p in FactPairs(r.facts);
    var x, ev :| x in r.facts && ev in x.evidenceIds && p == Pair(ev, x.field);
    evidenceId, field := ev, x.field;
  }

  lemma SplitAssessed(host: Host, representatives: seq<RawCandidate>)
    requires forall r :: r in representatives ==> OnBoth(r.facts)
    ensures AssessEvidence(host, SPLIT_CONTEXT, representatives).Ok?
  {
    hide AssessPair, MaterialPairs, OnBoth;
    var pairs := SortedTuples(MaterialPairs(SPLIT_CONTEXT, representatives));
    forall p | p in pairs ensures Assessor(host, SPLIT_CONTEXT)(p).Ok? {
      var evidenceId, field := SplitAsked(representatives, p);
      SplitPair(host, evidenceId, field);
    }
    TraverseAmong(pairs, Assessor(host, SPLIT_CONTEXT), {});
  }

  lemma SplitMaterials(host: Host, representatives: seq<RawCandidate>)
    requires forall r :: r in representatives ==> r.requiredProductIds == {}
    ensures AllMaterials(host, SPLIT_CONTEXT, representatives).Ok?
  {
    hide OfferMap, CatalogOf, MaterialFor, ClosureOf;
    var roots := Relabelled(host, SPLIT_CONTEXT, representatives);
    var catalog, offers := CatalogOf(roots), OfferMap(host, map[], SPLIT_CONTEXT.offers);
    var packer := Packer(host, SPLIT_CONTEXT, offers, catalog);
    forall r | r in roots ensures packer(r).Ok? {
      var i :| 0 <= i < |roots| && roots[i] == r;
      assert representatives[i] in representatives;
      AloneClosure(catalog, r);
      LoneFacts(host, SPLIT_CONTEXT, offers, r);
    }
    TraverseAmong(roots, packer, {});
  }

  lemma SplitScores(host: Host, m: PlanMaterial, index: AssessmentIndex)
    ensures Scores(host, SPLIT_CONTEXT, m, index).Ok?
  {
    hide FieldStateOf, ApplicableCriteria;
    SameCriteria(SPLIT_CONTEXT, m, m);
    var criteria := ApplicableCriteria(SPLIT_CONTEXT, m);
    forall c | c in criteria ensures Scorer(host, SPLIT_CONTEXT, m, index)(c).Ok? {
      assert c.normalization == BooleanEquals;
      var field := FieldStateOf(host, m.facts, c.field, index);
      TraverseAmong(field.values, Normalizer(host, c), {});
    }
    TraverseAmong(criteria, Scorer(host, SPLIT_CONTEXT, m, index), {});
  }

  lemma SplitValid()
    ensures ValidContext(SPLIT_CONTEXT) && OrderedInputs(SPLIT_CONTEXT)
  {
    SplitNames();
  }

  lemma OtherErrors(scores: seq<Scored>, cs: seq<CoverageCriterion>, cost: OfferCost, payments: nat)
    ensures PreferenceOf(scores).Raise? ==> !PolicyError(PreferenceOf(scores).error)
    ensures AggregateCoverage(cs).Raise? ==> !PolicyError(AggregateCoverage(cs).error)
    ensures ValidCost(cost, payments).Raise? ==> !PolicyError(ValidCost(cost, payments).error)
  {
  }

  /** Dimensions return where scores and risk do. */
  lemma Measures(host: Host, context: DecisionContext, m: PlanMaterial, assessments: seq<EvidenceAssessment>)
    requires ValidContext(context) && SoundAges(assessments) && OrderedCost(m.cost)
    requires Scores(host, context, m, IndexOf(assessments)).Ok? && RiskSteps(host, context, m, IndexOf(assessments)).Ok?
    ensures DimensionsOf(host, context, m, assessments).Ok?
  {
    hide Scores, RiskSteps, IndexOf, PreferenceOf, AggregateCoverage, ValidCost, ApplicableCriteria, ConcludeRisk,
         CoverageCriteria, PolicyError, ValidContext, SoundAges, AggregateAge, WellFormed;
    var scores := Scores(host, context, m, IndexOf(assessments)).value;
    DimensionsWellFormed(host, context, m, assessments);
    ScoresMatch(host, context, m, IndexOf(assessments));
    OtherErrors(scores, CoverageCriteria(ApplicableCriteria(context, m), scores), m.cost, m.paymentComponentCount);
  }

  lemma ScoresMatch(host: Host, context: DecisionContext, m: PlanMaterial, index: AssessmentIndex)
    requires Scores(host, context, m, index).Ok?
    ensures |Scores(host, context, m, index).value| == |ApplicableCriteria(context, m)|
  {
    hide ApplicableCriteria, ScoreCriterion;
    TraversePointwise(ApplicableCriteria(context, m), Scorer(host, context, m, index));
  }

  /** Nothing is known about the risk, so the plan has no bounds. */
  lemma SplitMeasured(host: Host, m: PlanMaterial, assessments: seq<EvidenceAssessment>)
    requires SoundAges(assessments) && OrderedCost(m.cost)
    ensures DimensionsOf(host, SPLIT_CONTEXT, m, assessments).Ok?
    ensures DimensionsOf(host, SPLIT_CONTEXT, m, assessments).value.OrderingBounds().None?
  {
    hide Scores, IndexOf, PreferenceOf, AggregateCoverage, ValidCost, ApplicableCriteria, CoverageCriteria,
         ValidContext, OrderedInputs, SoundAges, AggregateAge;
    SplitValid();
    SplitScores(host, m, IndexOf(assessments));
    assert RiskSteps(host, SPLIT_CONTEXT, m, IndexOf(assessments)) == Ok([]);
    Measures(host, SPLIT_CONTEXT, m, assessments);
  }

  lemma SplitGates(host: Host, m: PlanMaterial, index: AssessmentIndex)
    ensures EvaluateGates(host, SPLIT_CONTEXT, m, index).Ok?
  {
    assert ApplicableGates(SPLIT_CONTEXT, m) == [];
  }

  lemma SplitBuilt(host: Host, representatives: seq<RawCandidate>, assessments: seq<EvidenceAssessment>,
      m: PlanMaterial)
    requires AssessEvidence(host, SPLIT_CONTEXT, representatives) == Ok(assessments)
    requires AllMaterials(host, SPLIT_CONTEXT, representatives).Ok?
    requires m in AllMaterials(host, SPLIT_CONTEXT, representatives).value
    ensures BuildPlan(host, SPLIT_CONTEXT, assessments, m).Ok?
    ensures var p := BuildPlan(host, SPLIT_CONTEXT, assessments, m).value;
            WellFormed(p.dimensions) && p.stableActionIds != [] && p.dimensions.OrderingBounds().None?
  {
    hide AssessEvidence, AllMaterials, IndexOf, WellFormed, EvaluateGates, DimensionsOf, OrderedCost, SoundAges,
         PrimaryStatus, ValidContext, OrderedInputs, PlanDimensions.OrderingBounds;
    SplitValid();
    AssessmentAges(host, SPLIT_CONTEXT, representatives);
    MaterialCost(host, SPLIT_CONTEXT, representatives, m);
    SplitGates(host, m, IndexOf(assessments));
    SplitMeasured(host, m, assessments);
    PlanWellFormed(host, SPLIT_CONTEXT, representatives, assessments, m);
  }

  lemma SplitRanks(plans: seq<EvaluatedPlan>)
    requires AllWellFormed(plans) && forall p :: p in plans ==> p.dimensions.OrderingBounds().None?
    ensures Rank(plans).Ok?
  {
    hide Rank, PlanDimensions.OrderingBounds, WellFormed;
    RankTotal(plans);
    assert CostSignatures(plans) == {};
  }

  /** Either record alone, and both together, can be evaluated. */
  lemma SplitEvaluates(host: Host, candidates: seq<RawCandidate>) returns (e: Evaluation)
    requires OfTheTwo(candidates)
    ensures EvaluateOnce(host, SplitInput(candidates)) == Ok(e)
  {
    hide RecallAndDeduplicate, AssessEvidence, AllMaterials, Rank, BuildPlan, WellFormed, OfTheTwo,
         PlanDimensions.OrderingBounds;
    SplitUnique(candidates);
    Recalls(host, SplitInput(candidates));
    var recall := RecallAndDeduplicate(host, SplitInput(candidates)).value;
    forall r | r in recall.representatives
      ensures r.requiredProductIds == {} && OnBoth(r.facts)
    {
      SplitRepresentative(host, candidates, r);
    }
    SplitAssessed(host, recall.representatives);
    var assessments := AssessEvidence(host, SPLIT_CONTEXT, recall.representatives).value;
    SplitMaterials(host, recall.representatives);
    var materials := AllMaterials(host, SPLIT_CONTEXT, recall.representatives).value;
    var plans := SplitPlans(host, recall.representatives, assessments, materials);
    SplitRanks(plans);
    e := Evaluation(recall, assessments, plans, Rank(plans).value);
  }

  lemma SplitPlans(host: Host, representatives: seq<RawCandidate>, assessments: seq<EvidenceAssessment>,
      materials: seq<PlanMaterial>)
    returns (plans: seq<EvaluatedPlan>)
    requires AssessEvidence(host, SPLIT_CONTEXT, representatives) == Ok(assessments)
    requires AllMaterials(host, SPLIT_CONTEXT, representatives) == Ok(materials)
    ensures Traverse(materials, PlanBuilder(host, SPLIT_CONTEXT, assessments)) == Ok(plans)
    ensures AllWellFormed(plans) && forall p :: p in plans ==> p.dimensions.OrderingBounds().None?
  {
    hide AssessEvidence, AllMaterials, BuildPlan, WellFormed, PlanDimensions.OrderingBounds;
    var builder := PlanBuilder(host, SPLIT_CONTEXT, assessments);
    forall m | m in materials
      ensures builder(m).Ok? && WellFormed(builder(m).value.dimensions) && builder(m).value.stableActionIds != []
              && builder(m).value.dimensions.OrderingBounds().None?
    {
      SplitBuilt(host, representatives, assessments, m);
    }
    TraverseAmong(materials, builder, {});
    TraversePointwise(materials, builder);
    plans := Traverse(materials, builder).value;
    forall p | p in plans
      ensures WellFormed(p.dimensions) && p.stableActionIds != [] && p.dimensions.OrderingBounds().None?
    {
      var i :| 0 <= i < |plans| && plans[i] == p;
      assert materials[i] in materials && builder(materials[i]) == Ok(p);
    }
  }

  // ---- What they gain from each other ----

  lemma {:induction false} NoneLost(group: seq<RawCandidate>, a: RawCandidate, index: AssessmentIndex,
      criteria: seq<PreferenceCriterion>)
    requires forall c :: c in criteria ==> !Lost(group, a, index, c)
    ensures LostWeight(group, a, index, criteria) == 0
  {
    hide Lost;
    if criteria != [] {
      assert criteria[0] in criteria;
      NoneLost(group, a, index, criteria[1..]);
    }
  }

  lemma {:induction false} SomeGained(group: seq<RawCandidate>, a: RawCandidate, index: AssessmentIndex,
      criteria: seq<PreferenceCriterion>, c: PreferenceCriterion)
    requires c in criteria && Gained(group, a, index, c)
    ensures GainedWeight(group, a, index, criteria) >= c.coverageWeight
  {
    hide Gained;
    if c != criteria[0] { SomeGained(group, a, index, criteria[1..], c); }
  }

  /** What the index of an evaluation of both says about their evidence. */
  ghost predicate SplitIndex(index: AssessmentIndex) {
    && ("a1", "x") in index && index[("a1", "x")].state == Acceptable
    && ("a2", "y") in index && index[("a2", "y")].state == EvidenceState.Unknown
    && ("b1", "x") in index && index[("b1", "x")].state == EvidenceState.Unknown
    && ("b2", "y") in index && index[("b2", "y")].state == Acceptable
  }

  lemma BothTogether(host: Host, e: Evaluation, p: EvaluatedPlan, f: Filed, m: PlanMaterial)
    requires Rooted(host, SplitInput([ONE, TWO]), e, p, f, m)
    ensures forall r :: r in f.Records() <==> r == ONE || r == TWO
  {
    hide Classify, BuildPlan, MergeFacts, AllFacts, SayTheSame, FoldKey;
    var candidates := [ONE, TWO];
    assert candidates[0] == ONE && candidates[1] == TWO;
    SplitKept(host, ONE);
    SplitKept(host, TWO);
    assert f.Records()[0] in f.Records();
  }

  lemma BothIndexed(host: Host, e: Evaluation, p: EvaluatedPlan, f: Filed, m: PlanMaterial)
    requires EvaluateOnce(host, SplitInput([ONE, TWO])) == Ok(e) && Rooted(host, SplitInput([ONE, TWO]), e, p, f, m)
    ensures SplitIndex(IndexOf(e.assessments))
  {
    hide EvaluateOnce, AssessEvidence, MaterialPairs, IndexOf, AssessPair, BuildPlan, MergeFacts, AllFacts, SayTheSame,
         KeptUnder;
    EvaluationStages(host, SplitInput([ONE, TWO]), e);
    BothTogether(host, e, p, f, m);
    AssessedExactly(host, SPLIT_CONTEXT, e.recall.representatives);
    Indexed(host, e, f, ONE, FactOn("x", "a1"), "a1");
    Indexed(host, e, f, ONE, FactOn("y", "a2"), "a2");
    Indexed(host, e, f, TWO, FactOn("x", "b1"), "b1");
    Indexed(host, e, f, TWO, FactOn("y", "b2"), "b2");
    SplitNames();
  }

  lemma Indexed(host: Host, e: Evaluation, f: Filed, a: RawCandidate, x: ProductFact, evidenceId: string)
    requires AssessEvidence(host, SPLIT_CONTEXT, e.recall.representatives) == Ok(e.assessments)
    requires exists rep ::
             rep in e.recall.representatives && rep.facts == MergeFacts(host, AllFacts(f.Records()), f.key.product)
    requires a in f.Records() && x in a.facts && x.evidenceIds == {evidenceId} && (x.field == "x" || x.field == "y")
    ensures var index := IndexOf(e.assessments);
            && (evidenceId, x.field) in index
            && index[(evidenceId, x.field)].state
               == if evidenceId == "a1" || evidenceId == "b2" then Acceptable else EvidenceState.Unknown
  {
    hide AssessEvidence, MaterialPairs, IndexOf, AssessPair, MergeFacts, AllFacts;
    FactAsked(host, SPLIT_CONTEXT, e.recall.representatives, f.Records(), f.key.product, a, x, evidenceId);
    AssessedExactly(host, SPLIT_CONTEXT, e.recall.representatives);
    SplitPair(host, evidenceId, x.field);
  }

  /** A record with facts on x and y, acceptable on the one and unknown on the other. */
  ghost predicate HalfBacked(facts: seq<ProductFact>, good: string, bad: string, index: AssessmentIndex) {
    && Backed(facts, good, index, Acceptable) && !Backed(facts, bad, index, Acceptable)
    && !Backed(facts, good, index, EvidenceState.Conflict) && !Backed(facts, bad, index, EvidenceState.Conflict)
  }

  lemma SplitBacked(index: AssessmentIndex)
    requires SplitIndex(index)
    ensures HalfBacked(FactsOnBoth("a1", "a2"), "x", "y", index)
    ensures HalfBacked(FactsOnBoth("b1", "b2"), "y", "x", index)
  {
    hide Backed, FactOn, OneValue;
    SplitNames();
    TwoFacts(FactsOnBoth("a1", "a2"), "x", "a1", "y", "a2", index);
    TwoFacts(FactsOnBoth("b1", "b2"), "x", "b1", "y", "b2", index);
  }

  lemma SplitStates(group: seq<RawCandidate>, index: AssessmentIndex, field: string)
    requires (forall r :: r in group <==> r == ONE || r == TWO) && SplitIndex(index) && (field == "x" || field == "y")
    ensures GroupAgrees(group, field) && GroupBacked(group, field, index, Acceptable)
    ensures !GroupBacked(group, field, index, EvidenceState.Conflict)
    ensures !Backed(ONE.facts, "y", index, Acceptable) && !Backed(TWO.facts, "x", index, Acceptable)
  {
    hide Backed, GroupAgrees, SplitIndex, FactsOnBoth;
    assert ONE.facts == FactsOnBoth("a1", "a2") && TWO.facts == FactsOnBoth("b1", "b2");
    SplitBacked(index);
    SplitAgrees(group, field);
    assert ONE in group && TWO in group;
  }

  lemma SplitAgrees(group: seq<RawCandidate>, field: string)
    requires (forall r :: r in group <==> r == ONE || r == TWO) && (field == "x" || field == "y")
    ensures GroupAgrees(group, field)
  {
    assert ONE in group && ONE.facts[0].field == "x" && ONE.facts[1].field == "y";
    forall r, f | r in group && f in r.facts ensures f.value == Truth(true) {}
  }

  lemma CriterionListed(m: PlanMaterial, field: string)
    requires field == "x" || field == "y"
    ensures CriterionFor(field) in ApplicableCriteria(SPLIT_CONTEXT, m)
    ensures forall c :: c in ApplicableCriteria(SPLIT_CONTEXT, m) ==> c.field == "x" || c.field == "y"
  {
    hide CriterionFor, ActiveSourceIds;
    var preferences := [CriterionFor("x"), CriterionFor("y")];
    assert SPLIT_CONTEXT.preferences == preferences;
    assert preferences[0] == CriterionFor("x") && preferences[1] == CriterionFor("y");
    SortPermutes(preferences, ByKey(CriterionKey));
    AlwaysApplies(m, field);
    forall c | c in ApplicableCriteria(SPLIT_CONTEXT, m) ensures c.field == "x" || c.field == "y" {
      AlwaysApplies(m, if c == preferences[0] then "x" else "y");
    }
  }

  lemma AlwaysApplies(m: PlanMaterial, field: string)
    ensures CriterionFor(field).field == field
    ensures CriterionApplies(CriterionFor(field), m, ActiveSourceIds(SPLIT_CONTEXT))
  {
  }

  /** Each record gains a criterion from the other and loses none. */
  lemma SplitGains(group: seq<RawCandidate>, index: AssessmentIndex, m: PlanMaterial, a: RawCandidate)
    requires (forall r :: r in group <==> r == ONE || r == TWO) && SplitIndex(index) && (a == ONE || a == TWO)
    ensures var criteria := ApplicableCriteria(SPLIT_CONTEXT, m);
            LostWeight(group, a, index, criteria) < GainedWeight(group, a, index, criteria)
  {
    hide ApplicableCriteria, Backed, GroupAgrees, GroupBacked, SplitIndex, OneValue;
    var criteria := ApplicableCriteria(SPLIT_CONTEXT, m);
    var field := if a == ONE then "y" else "x";
    SplitStates(group, index, "x");
    SplitStates(group, index, "y");
    CriterionListed(m, field);
    assert Gained(group, a, index, CriterionFor(field));
    SomeGained(group, a, index, criteria, CriterionFor(field));
    NoneLost(group, a, index, criteria);
  }

  lemma PacksReturn(host: Host, context: DecisionContext, representatives: seq<RawCandidate>)
    requires AllMaterials(host, context, representatives).Ok?
    ensures PackMaterials(host, context, representatives).Ok?
  {
    hide PackMaterials;
  }

  lemma HasPlans(host: Host, candidates: seq<RawCandidate>, e: Evaluation)
    requires OfTheTwo(candidates) && candidates != [] && EvaluateOnce(host, SplitInput(candidates)) == Ok(e)
    ensures e.plans != []
  {
    hide EvaluateOnce, RecallAndDeduplicate, AllMaterials, PackMaterials, StandsFor, Classify;
    var r := candidates[0];
    assert r in candidates;
    EvaluationStages(host, SplitInput(candidates), e);
    SplitKept(host, r);
    var rep := SharedRepresentative(host, SplitInput(candidates), r, r, FoldKey(host, ONE));
    assert e.recall.representatives != [];
    PacksReturn(host, SPLIT_CONTEXT, e.recall.representatives);
    PackMaterialsFrom(host, SPLIT_CONTEXT, e.recall.representatives);
    var m := PackMaterials(host, SPLIT_CONTEXT, e.recall.representatives).value[0];
    MaterialSources(host, SPLIT_CONTEXT, e.recall.representatives, m);
    PlansHaveMaterials(host, SplitInput(candidates), e);
  }

  lemma CoversMore(host: Host, e: Evaluation, a: RawCandidate, d: Evaluation)
    requires EvaluateOnce(host, SplitInput([ONE, TWO])) == Ok(e)
    requires (a == ONE || a == TWO) && EvaluateOnce(host, SplitInput([a])) == Ok(d)
    ensures forall p, q :: p in e.plans && q in d.plans ==> q.dimensions.coverage.low < p.dimensions.coverage.low
  {
    hide EvaluateOnce, Rooted, ApplicableCriteria, SplitIndex, LostWeight, GainedWeight;
    var both := SplitInput([ONE, TWO]);
    assert WithOnly(both, a) == SplitInput([a]);
    forall p, q | p in e.plans && q in d.plans ensures q.dimensions.coverage.low < p.dimensions.coverage.low {
      var f, m := PlanRoot(host, both, e, p);
      var g, n := PlanRoot(host, SplitInput([a]), d, q);
      BothTogether(host, e, p, f, m);
      BothIndexed(host, e, p, f, m);
      SplitGains(f.Records(), IndexOf(e.assessments), m, a);
      CoverageRisesExact(host, both, a, e, p, f, m, d, q, g, n);
    }
  }

  /**
   * Two duplicates that each have acceptable evidence for one of two criteria: the plan of both covers more
   * than the plan either has when it is evaluated alone.
   */
  lemma DuplicatesCoverMore(host: Host) returns (both: Evaluation, one: Evaluation, two: Evaluation)
    ensures EvaluateOnce(host, SplitInput([ONE, TWO])) == Ok(both) && both.plans != []
    ensures EvaluateOnce(host, SplitInput([ONE])) == Ok(one) && one.plans != []
    ensures EvaluateOnce(host, SplitInput([TWO])) == Ok(two) && two.plans != []
    ensures forall p, q ::
            p in both.plans && (q in one.plans || q in two.plans) ==>
              q.dimensions.coverage.low < p.dimensions.coverage.low
  {
    hide EvaluateOnce, SplitInput;
    SplitNames();
    both := SplitEvaluates(host, [ONE, TWO]);
    one := SplitEvaluates(host, [ONE]);
    two := SplitEvaluates(host, [TWO]);
    HasPlans(host, [ONE, TWO], both);
    HasPlans(host, [ONE], one);
    HasPlans(host, [TWO], two);
    CoversMore(host, both, ONE, one);
    CoversMore(host, both, TWO, two);
  }
}
