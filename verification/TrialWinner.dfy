/** The decision graph, run on a proof campaign, names the first adapter in price order that passed every gate. */
module TrialWinner {
  import opened Outcomes
  import opened Ordering
  import opened Domain
  import opened Stability
  import opened GraphModels
  import opened Recall
  import opened Evidence
  import opened Gates
  import opened Dimensions
  import opened Materials
  import opened Engine
  import opened RankGuarantees
  import opened Bridge
  import opened Trials
  import opened TrialRecall
  import opened TrialPlans
  import opened TrialOutcome

  // ---- The plan of a verdict ----

  function PlanIdOf(t: Trial, v: CandidateVerdict): string {
    t.host.planId(Replace, [t.host.fold(v.adapterId)])
  }

  ghost predicate IsPlan(t: Trial, p: EvaluatedPlan, v: CandidateVerdict) {
    && p.planId == PlanIdOf(t, v)
    && p.componentIds == [t.host.fold(v.adapterId)]
    && p.stableActionIds == ["replace", t.host.fold(v.adapterId)]
    && (p.status.IsEligible() <==> Clear(t.Active(), v))
    && (p.status.IsEligible() ==> p.status == Eligible)
    && p.dimensions == TrialDimensions(v, t.Charger(v))
  }

  lemma BuiltPlan(host: Host, context: DecisionContext, assessments: seq<EvidenceAssessment>, m: PlanMaterial,
      gates: seq<GateResult>, d: PlanDimensions)
    requires EvaluateGates(host, context, m, IndexOf(assessments)) == Ok(gates)
    requires DimensionsOf(host, context, m, assessments) == Ok(d)
    ensures var built := BuildPlan(host, context, assessments, m);
            && built.Ok?
            && built.value.planId == host.planId(m.action, m.componentIds)
            && built.value.componentIds == m.componentIds
            && built.value.stableActionIds == [m.action.StableId()] + m.componentIds
            && built.value.status == PrimaryStatus(gates).0
            && built.value.dimensions == d
  {
  }

  lemma TrialPlan(t: Trial, context: DecisionContext, m: PlanMaterial, v: CandidateVerdict,
      assessments: seq<EvidenceAssessment>)
    requires Ruled(t.Active(), context) && Stands(t.host, t.Active(), m, v, t.Charger(v))
    requires Answers(t.Active(), v, IndexOf(assessments))
    requires forall a :: a in assessments ==> IsCurrent(a)
    ensures BuildPlan(t.host, context, assessments, m).Ok?
    ensures IsPlan(t, BuildPlan(t.host, context, assessments, m).value, v)
  {
    hide BuildPlan, EvaluateGates, DimensionsOf, PrimaryStatus, Ruled, SaysAll, Answers, TrialDimensions, IndexOf,
         Clear, IsCurrent, TrialOffer, ChargerOf, ActiveGates;
    TrialStatus(t.host, t.Active(), context, m, v, t.Charger(v), IndexOf(assessments));
    TrialMeasured(t.host, t.Active(), context, m, v, t.Charger(v), assessments);
    var gates := EvaluateGates(t.host, context, m, IndexOf(assessments)).value;
    BuiltPlan(t.host, context, assessments, m, gates, TrialDimensions(v, t.Charger(v)));
  }

  type Planner = CandidateVerdict -> Result<EvaluatedPlan, Error>

  /** The plans are those of the verdicts. */
  ghost predicate PlansOf(t: Trial, plans: seq<EvaluatedPlan>, planOf: Planner) {
    && Lists(plans, t.verdicts, planOf)
    && (forall v :: v in t.verdicts ==> planOf(v).Ok? && IsPlan(t, planOf(v).value, v))
  }

  // ---- Choosing among them ----

  /**
   * v satisfies the price preference better than w, or as well and is charged less, or as much and is
   * earlier in identifier order.
   */
  predicate ChargedBefore(t: Trial, v: CandidateVerdict, w: CandidateVerdict) {
    var a, b := Satisfaction(v.priceCents), Satisfaction(w.priceCents);
    || a > b
    || (a == b && t.Charged(v) < t.Charged(w))
    || (a == b && t.Charged(v) == t.Charged(w) && StrLess(t.host.fold(v.adapterId), t.host.fold(w.adapterId)))
  }

  /** v passed every active gate, and no verdict that did comes before it. */
  ghost predicate First(t: Trial, v: CandidateVerdict) {
    v in t.verdicts && Clear(t.Active(), v) && forall w ::
      w in t.verdicts && Clear(t.Active(), w) ==> !ChargedBefore(t, w, v)
  }

  lemma PlanBounds(t: Trial, p: EvaluatedPlan, v: CandidateVerdict)
    requires IsPlan(t, p, v)
    ensures p.dimensions.OrderingBounds() == Some(TrialBounds(v, t.Charger(v)))
    ensures WellFormed(p.dimensions) && p.stableActionIds != []
    ensures Rankable(p) <==> Clear(t.Active(), v)
  {
    hide ChargerOf, ActiveGates;
  }

  /** Where a verdict comes before another, so does its plan. */
  lemma KeysFollow(t: Trial, p: EvaluatedPlan, v: CandidateVerdict, q: EvaluatedPlan, w: CandidateVerdict)
    requires IsPlan(t, p, v) && IsPlan(t, q, w) && Clear(t.Active(), v) && Clear(t.Active(), w)
    requires ChargedBefore(t, v, w)
    ensures RanksBefore(AsBounded(p, false), AsBounded(q, false))
  {
    hide ChargerOf, ActiveGates, Clear;
    PlanBounds(t, p, v);
    PlanBounds(t, q, w);
    if Satisfaction(v.priceCents) == Satisfaction(w.priceCents) && t.Charged(v) == t.Charged(w) {
      StrOrder();
      ReplaceOrder(t.host.fold(v.adapterId), t.host.fold(w.adapterId));
    }
  }

  /** The verdict a plan comes from. */
  lemma SourceOf(t: Trial, plans: seq<EvaluatedPlan>, planOf: Planner, p: EvaluatedPlan) returns (v: CandidateVerdict)
    requires PlansOf(t, plans, planOf) && p in plans
    ensures v in t.verdicts && planOf(v) == Ok(p) && IsPlan(t, p, v)
  {
    hide IsPlan;
    v :| v in t.verdicts && planOf(v) == Ok(p);
  }

  lemma IdOf(t: Trial, p: EvaluatedPlan, v: CandidateVerdict)
    requires IsPlan(t, p, v)
    ensures p.planId == PlanIdOf(t, v) && p.componentIds == [t.host.fold(v.adapterId)]
  {
    hide Clear, ActiveGates, ChargerOf;
  }

  /** The plan a verdict has. */
  lemma PlanAmong(t: Trial, plans: seq<EvaluatedPlan>, planOf: Planner, v: CandidateVerdict) returns (p: EvaluatedPlan)
    requires PlansOf(t, plans, planOf) && v in t.verdicts
    ensures p in plans && planOf(v) == Ok(p) && IsPlan(t, p, v)
  {
    hide IsPlan;
    p := planOf(v).value;
  }

  lemma PlansRank(t: Trial, plans: seq<EvaluatedPlan>, planOf: Planner)
    requires PlansOf(t, plans, planOf)
    ensures Rank(plans).Ok?
  {
    hide ChargerOf, ActiveGates, Clear, PlansOf, Lists, Rank, IsPlan;
    forall p | p in plans ensures WellFormed(p.dimensions) && p.stableActionIds != [] {
      var v := SourceOf(t, plans, planOf, p);
      PlanBounds(t, p, v);
    }
    RankTotal(plans);
    forall s | s in CostSignatures(plans) ensures s == ("USD", 1) {
      var p :| p in plans && p.status.IsEligible() && p.dimensions.OrderingBounds().Some?
               && s == (p.dimensions.OrderingBounds().value.cost.base.currency, HorizonByPlan(plans)[p.planId]);
      var v := SourceOf(t, plans, planOf, p);
      PlanSignature(t, p, v);
      var q := HorizonFrom(plans, p.planId);
      var w := SourceOf(t, plans, planOf, q);
      PlanSignature(t, q, w);
    }
    AtMostOne(CostSignatures(plans), ("USD", 1));
  }

  lemma PlanSignature(t: Trial, p: EvaluatedPlan, v: CandidateVerdict)
    requires IsPlan(t, p, v)
    ensures p.dimensions.totalCost.horizonDays == 1
    ensures p.dimensions.OrderingBounds().Some? && p.dimensions.OrderingBounds().value.cost.base.currency == "USD"
  {
    hide ChargerOf, ActiveGates, Clear;
    PlanBounds(t, p, v);
  }

  lemma AtMostOne<T>(items: set<T>, only: T)
    requires forall x :: x in items ==> x == only
    ensures |items| <= 1
  {
    if items != {} { assert items == {only}; }
  }

  /** A plan nothing ranks before is that of a first verdict. */
  lemma FirstPlan(t: Trial, plans: seq<EvaluatedPlan>, planOf: Planner, p: EvaluatedPlan, v: CandidateVerdict)
    requires PlansOf(t, plans, planOf) && v in t.verdicts && IsPlan(t, p, v) && Rankable(p)
    requires forall q :: q in plans && Rankable(q) ==> !RanksBefore(AsBounded(q, false), AsBounded(p, false))
    ensures First(t, v)
  {
    hide ChargerOf, ActiveGates, Clear, ChargedBefore, PlansOf, IsPlan, RanksBefore, Rankable;
    PlanBounds(t, p, v);
    forall w | w in t.verdicts && Clear(t.Active(), w) ensures !ChargedBefore(t, w, v) {
      var q := PlanAmong(t, plans, planOf, w);
      PlanBounds(t, q, w);
      if ChargedBefore(t, w, v) { KeysFollow(t, q, w, p, v); }
    }
  }

  /** A plan can be ranked exactly when some verdict is clear. */
  lemma AnyRankable(t: Trial, plans: seq<EvaluatedPlan>, planOf: Planner)
    requires PlansOf(t, plans, planOf)
    ensures (exists p :: p in plans && Rankable(p)) <==> AnyClear(t)
  {
    hide ChargerOf, ActiveGates, Clear, PlansOf, IsPlan, Rankable;
    if p :| p in plans && Rankable(p) {
      var v := SourceOf(t, plans, planOf, p);
      PlanBounds(t, p, v);
    }
    if v :| v in t.verdicts && Clear(t.Active(), v) {
      var p := PlanAmong(t, plans, planOf, v);
      PlanBounds(t, p, v);
    }
  }

  /** The selected plan is that of a first verdict; nothing is selected when no verdict is clear. */
  ghost predicate RanksFirst(t: Trial, r: Result<Ranking, Error>) {
    && r.Ok?
    && (r.value.rankedPlanIds == [] <==> !AnyClear(t))
    && (r.value.rankedPlanIds != [] ==> exists v :: First(t, v) && r.value.rankedPlanIds[0] == PlanIdOf(t, v))
  }

  lemma SelectsFirst(t: Trial, plans: seq<EvaluatedPlan>, planOf: Planner)
    requires PlansOf(t, plans, planOf)
    ensures RanksFirst(t, Rank(plans))
  {
    hide ChargerOf, ActiveGates, Clear, ChargedBefore, PlansOf, Rank, Rankable, RanksBefore, First, IsPlan, AnyClear;
    PlansRank(t, plans, planOf);
    SelectionExact(plans);
    AnyRankable(t, plans, planOf);
    var selected := Rank(plans).value.selected;
    if selected.Some? {
      var p :| p in plans && Rankable(p) && selected.value == AsBounded(p, false);
      var v := SourceOf(t, plans, planOf, p);
      FirstPlan(t, plans, planOf, p, v);
      IdOf(t, p, v);
    }
  }

  /** Some verdict passed every active gate. */
  ghost predicate AnyClear(t: Trial) {
    exists v :: v in t.verdicts && Clear(t.Active(), v)
  }

  lemma {:induction false} PlanFound(plans: seq<EvaluatedPlan>, planId: string)
    ensures PlanWith(plans, planId).Some? ==>
            PlanWith(plans, planId).value in plans && PlanWith(plans, planId).value.planId == planId
    ensures PlanWith(plans, planId).None? ==> forall p :: p in plans ==> p.planId != planId
  {
    if plans != [] {
      assert forall p :: p in plans ==> p == plans[0] || p in plans[1..];
      PlanFound(plans[1..], planId);
    }
  }

  // ---- The whole run ----

  lemma TrialContextParts(t: Trial)
    ensures Frozen(t, t.Context()) && Offered(t, t.Context()) && Ruled(t.Active(), t.Context())
    ensures t.Input().context == t.Context()
  {
  }

  lemma Evaluated(host: Host, input: DecisionInput, recall: RecallResult, assessments: seq<EvidenceAssessment>,
                  materials: seq<PlanMaterial>, plans: seq<EvaluatedPlan>, ranking: Ranking)
    requires input.UniqueIdentifiers()
    requires RecallAndDeduplicate(host, input) == Ok(recall)
    requires AssessEvidence(host, input.context, recall.representatives) == Ok(assessments)
    requires AllMaterials(host, input.context, recall.representatives) == Ok(materials)
    requires Traverse(materials, PlanBuilder(host, input.context, assessments)) == Ok(plans)
    requires Rank(plans) == Ok(ranking)
    ensures EvaluateOnce(host, input) == Ok(Evaluation(recall, assessments, plans, ranking))
  {
  }

  /** The plan of a verdict whose material is known to build. */
  function PlanOf(t: Trial, context: DecisionContext, assessments: seq<EvidenceAssessment>)
    : CandidateVerdict -> Result<EvaluatedPlan, Error>
  {
    (v: CandidateVerdict) =>
      match MaterialOf(t, context, v)
      case Raise(e) => Raise(e)
      case Ok(m) => BuildPlan(t.host, context, assessments, m)
  }

  lemma VerdictPlan(t: Trial, context: DecisionContext, assessments: seq<EvidenceAssessment>, v: CandidateVerdict)
    requires t.Separated() && Offered(t, context) && Ruled(t.Active(), context) && v in t.verdicts
    requires AllCurrent(t, assessments)
    ensures MaterialOf(t, context, v).Ok?
    ensures PlanOf(t, context, assessments)(v)
            == BuildPlan(t.host, context, assessments, MaterialOf(t, context, v).value)
    ensures PlanOf(t, context, assessments)(v).Ok? && IsPlan(t, PlanOf(t, context, assessments)(v).value, v)
  {
    hide BuildPlan, Stands, IsPlan, TrialOffer, HasCurrent;
    VerdictMaterial(t, context, v);
    var m := MaterialOf(t, context, v).value;
    assert Answers(t.Active(), v, IndexOf(assessments));
    TrialPlan(t, context, m, v, assessments);
  }

  /** The building stage turns the materials into one plan for each verdict. */
  lemma TrialBuilt(t: Trial, context: DecisionContext, assessments: seq<EvidenceAssessment>,
      materials: seq<PlanMaterial>)
    requires t.Separated() && Offered(t, context) && Ruled(t.Active(), context)
    requires AllCurrent(t, assessments)
    requires Lists(materials, t.verdicts, MaterialsOf(t, context))
    ensures Traverse(materials, PlanBuilder(t.host, context, assessments)).Ok?
    ensures PlansOf(t, Traverse(materials, PlanBuilder(t.host, context, assessments)).value,
              PlanOf(t, context, assessments))
  {
    hide BuildPlan, MaterialOf, IsPlan, AllCurrent, Offered, Ruled;
    var builder, planOf := PlanBuilder(t.host, context, assessments), PlanOf(t, context, assessments);
    forall v | v in t.verdicts
      ensures MaterialsOf(t, context)(v).Ok? && planOf(v).Ok? && builder(MaterialsOf(t, context)(v).value) == planOf(v)
      ensures IsPlan(t, planOf(v).value, v)
    {
      VerdictPlan(t, context, assessments, v);
    }
    TraverseLists(materials, builder, t.verdicts, MaterialsOf(t, context), planOf);
  }

  /** One run of the graph on a campaign: its plans and ranking are those of the verdicts. */
  lemma TrialEvaluated(t: Trial) returns (e: Evaluation, planOf: Planner)
    requires t.Separated()
    ensures EvaluateOnce(t.host, t.Input()) == Ok(e)
    ensures PlansOf(t, e.plans, planOf) && Rank(e.plans) == Ok(e.ranking)
  {
    hide Lists, IsPlan, ActiveGates, RecallAndDeduplicate, AssessEvidence, AllMaterials, Rank, EvaluateOnce,
         TrialContext, BuildDecisionGraphInput, PlanBuilder, Frozen, Offered, Ruled, AllCurrent, OnePerVerdict,
           MaterialsOf;
    var context := t.Context();
    TrialContextParts(t);
    TrialIdentifiers(t);
    TrialRecalled(t);
    var recall := RecallAndDeduplicate(t.host, t.Input()).value;
    TrialAssessed(t, context, recall.representatives);
    var assessments := AssessEvidence(t.host, context, recall.representatives).value;
    TrialMaterials(t, context, recall.representatives);
    var materials := AllMaterials(t.host, context, recall.representatives).value;
    TrialBuilt(t, context, assessments, materials);
    var plans := Traverse(materials, PlanBuilder(t.host, context, assessments)).value;
    planOf := PlanOf(t, context, assessments);
    PlansRank(t, plans, planOf);
    e := Evaluation(recall, assessments, plans, Rank(plans).value);
    Evaluated(t.host, t.Input(), recall, assessments, materials, plans, Rank(plans).value);
  }

  /** The verdicts' plan identifiers differ where their folded adapters do. */
  ghost predicate PlanIdsSeparate(t: Trial) {
    forall v, w ::
        v in t.verdicts && w in t.verdicts && PlanIdOf(t, v) == PlanIdOf(t, w) ==>
          t.host.fold(v.adapterId) == t.host.fold(w.adapterId)
  }

  /** Reading the winner off the plan that carries the selected identifier. */
  lemma WinnerRead(t: Trial, plans: seq<EvaluatedPlan>, planOf: Planner, v: CandidateVerdict)
    requires PlansOf(t, plans, planOf) && PlanIdsSeparate(t) && v in t.verdicts
    ensures PlanWith(plans, PlanIdOf(t, v)).Some?
    ensures PlanWith(plans, PlanIdOf(t, v)).value.componentIds == [t.host.fold(v.adapterId)]
  {
    hide ChargerOf, ActiveGates, Clear, PlansOf, IsPlan;
    var id := PlanIdOf(t, v);
    PlanFound(plans, id);
    var own := PlanAmong(t, plans, planOf, v);
    IdOf(t, own, v);
    var p := PlanWith(plans, id).value;
    var w := SourceOf(t, plans, planOf, p);
    IdOf(t, p, w);
  }

  lemma ReadOff(t: Trial, e: Evaluation)
    requires EvaluateOnce(t.host, t.Input()) == Ok(e)
    ensures var winner := EvaluateWithDecisionGraph(t.host, t.manifestGates, t.verdicts, t.evaluatedAt);
            && (e.ranking.rankedPlanIds == [] ==> winner == Raise(NoStableWinner))
            && (e.ranking.rankedPlanIds != [] ==>
                  var plan := PlanWith(e.plans, e.ranking.rankedPlanIds[0]);
                  plan.Some? && |plan.value.componentIds| == 1 ==>
                    winner == Ok(Winner(plan.value.componentIds[0], e.ranking.rankedPlanIds[0])))
  {
    hide EvaluateOnce, BuildDecisionGraphInput, ActiveGates;
  }

  function Outcome(t: Trial): Result<Winner, Error> {
    EvaluateWithDecisionGraph(t.host, t.manifestGates, t.verdicts, t.evaluatedAt)
  }

  /** v won the run. */
  predicate WonBy(t: Trial, v: CandidateVerdict) {
    Outcome(t) == Ok(Winner(t.host.fold(v.adapterId), PlanIdOf(t, v)))
  }

  /**
   * For any number of verdicts: the run names a winner exactly when some verdict passed every active
   * gate, and the winner is then the first such verdict by what the plans are charged.
   */
  lemma WinnerExact(t: Trial)
    requires t.Separated() && PlanIdsSeparate(t)
    ensures AnyClear(t) ==> exists v :: First(t, v) && WonBy(t, v)
    ensures !AnyClear(t) ==> Outcome(t) == Raise(NoStableWinner)
  {
    hide EvaluateWithDecisionGraph, EvaluateOnce, Rank, ChargedBefore, Clear, IsPlan, Lists, ActiveGates,
         BuildDecisionGraphInput;
    var e, planOf := TrialEvaluated(t);
    SelectsFirst(t, e.plans, planOf);
    ReadOff(t, e);
    if e.ranking.rankedPlanIds != [] {
      var v :| First(t, v) && e.ranking.rankedPlanIds[0] == PlanIdOf(t, v);
      WinnerRead(t, e.plans, planOf, v);
      assert WonBy(t, v);
    }
  }

  /** Verdicts of one run that fold alike are the same. */
  lemma SameFold(t: Trial, v: CandidateVerdict, w: CandidateVerdict)
    requires t.Separated() && v in t.verdicts && w in t.verdicts && t.host.fold(v.adapterId) == t.host.fold(w.adapterId)
    ensures v == w
  {
    hide Map, SuffixOf, TrialOfferId;
    var folds := Map(t.verdicts, AdapterFold(t.host));
    var i :| 0 <= i < |t.verdicts| && t.verdicts[i] == v;
    var j :| 0 <= j < |t.verdicts| && t.verdicts[j] == w;
    assert folds[i] == folds[j];
  }

  /** Of two different verdicts one comes before the other, and not the other way round. */
  lemma ChargedTotal(t: Trial, v: CandidateVerdict, w: CandidateVerdict)
    requires t.Separated() && v in t.verdicts && w in t.verdicts && v != w
    ensures ChargedBefore(t, v, w) <==> !ChargedBefore(t, w, v)
  {
    hide ChargerOf, ActiveGates;
    StrOrder();
    if t.host.fold(v.adapterId) == t.host.fold(w.adapterId) { SameFold(t, v, w); }
  }

  /** No two verdicts can both be first. */
  lemma FirstUnique(t: Trial, v: CandidateVerdict, w: CandidateVerdict)
    requires t.Separated() && First(t, v) && First(t, w)
    ensures v == w
  {
    hide ChargedBefore;
    if v != w { ChargedTotal(t, v, w); }
  }
}
