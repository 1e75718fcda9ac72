/** What becomes of the guarantees of ranking when plans share an identifier. */
module SharedIds {
  import opened Outcomes
  import opened Domain
  import opened Stability
  import opened GraphModels
  import opened Gates
  import opened Dimensions
  import opened Engine
  import opened Guarantees
  import opened RankGuarantees

  // ---- Plans share an identifier when action and components agree ----

  lemma PlanIdFrom(host: Host, context: DecisionContext, e: Evaluation, p: EvaluatedPlan, m: PlanMaterial)
    requires BuiltFrom(host, context, e, p, m)
    ensures p.planId == host.planId(p.action, p.componentIds)
  {
    hide EvaluateGates, DimensionsOf, PrimaryStatus;
  }

  /**
   * Two plans of one evaluation with the same action and components have the same identifier, whoever
   * sells the components and in which edition or region.
   */
  lemma SameComponentsSameId(host: Host, input: DecisionInput, e: Evaluation, p: EvaluatedPlan, q: EvaluatedPlan)
    requires EvaluateOnce(host, input) == Ok(e) && p in e.plans && q in e.plans
    requires p.action == q.action && p.componentIds == q.componentIds
    ensures p.planId == q.planId
  {
    hide EvaluateOnce, BuiltFrom;
    PlansHaveMaterials(host, input, e);
    var m :| BuiltFrom(host, input.context, e, p, m);
    var n :| BuiltFrom(host, input.context, e, q, n);
    PlanIdFrom(host, input.context, e, p, m);
    PlanIdFrom(host, input.context, e, q, n);
  }

  // ---- Stability ----

  /** Plan i is the selected one, and every eligible plan can be compared with it. */
  ghost predicate SelectedAt(plans: seq<EvaluatedPlan>, i: nat) {
    && AllWellFormed(plans)
    && Rank(plans).Ok? && Rank(plans).value.selected.Some?
    && i < |plans| && Rankable(plans[i]) && Rank(plans).value.selected.value == AsBounded(plans[i], false)
    && forall p :: p in plans && p.status.IsEligible() ==> p.dimensions.OrderingBounds().Some?
  }

  /** p comes before s for some way their dimensions turn out. */
  ghost predicate MayComeBefore(p: EvaluatedPlan, s: EvaluatedPlan) {
    Rankable(p) && Rankable(s) && MayPrecede(AsBounded(p, false), AsBounded(s, false))
  }

  /** p can be ranked, and its best case comes before the worst case of s. */
  predicate Challenges(p: EvaluatedPlan, s: EvaluatedPlan) {
    Rankable(p) && Rankable(s) && Threatens(AsBounded(p, false), AsBounded(s, false))
  }

  /** No other eligible plan can precede plan i, however the dimensions turn out. */
  ghost predicate Unthreatened(plans: seq<EvaluatedPlan>, i: nat)
    requires i < |plans|
  {
    forall j :: 0 <= j < |plans| && j != i ==> !MayComeBefore(plans[j], plans[i])
  }

  /** A plan with the selected identifier challenges plan i. */
  ghost predicate ChallengedByTwin(plans: seq<EvaluatedPlan>, i: nat)
    requires i < |plans|
  {
    exists j :: 0 <= j < |plans| && j != i && plans[j].planId == plans[i].planId && Challenges(plans[j], plans[i])
  }

  lemma ChallengeMeansMayCome(p: EvaluatedPlan, s: EvaluatedPlan)
    requires WellFormed(p.dimensions) && WellFormed(s.dimensions)
    ensures Challenges(p, s) <==> MayComeBefore(p, s)
  {
    if Rankable(p) && Rankable(s) { ThreatMeansMayPrecede(AsBounded(p, false), AsBounded(s, false)); }
  }

  lemma AlwaysOrMayCome(p: EvaluatedPlan, s: EvaluatedPlan)
    requires WellFormed(p.dimensions) && WellFormed(s.dimensions) && p.planId != s.planId
    requires Rankable(p) && Rankable(s)
    ensures MayComeBefore(p, s) <==> !AlwaysBefore(AsBounded(s, false), AsBounded(p, false))
  {
    ThreatMeansMayPrecede(AsBounded(p, false), AsBounded(s, false));
    NoThreatMeansAlwaysBefore(AsBounded(p, false), AsBounded(s, false));
  }

  /** STABLE speaks of the plans with other identifiers only. */
  lemma StableOverOthers(plans: seq<EvaluatedPlan>, i: nat)
    requires SelectedAt(plans, i)
    ensures Rank(plans).value.stability == Stable
            <==> forall j ::
                 0 <= j < |plans| && plans[j].planId != plans[i].planId ==> !MayComeBefore(plans[j], plans[i])
  {
    hide Rank, MayPrecede, AlwaysBefore, WellFormed, MayComeBefore;
    StableSelectionExact(plans);
    var selected := AsBounded(plans[i], false);
    forall p | p in plans && Rankable(p) && p.planId != selected.planId
      ensures MayComeBefore(p, plans[i]) <==> !AlwaysBefore(selected, AsBounded(p, false))
    {
      assert plans[i] in plans;
      AlwaysOrMayCome(p, plans[i]);
    }
    forall p | !Rankable(p) ensures !MayComeBefore(p, plans[i]) { NotRankable(p, plans[i]); }
    if forall j :: 0 <= j < |plans| && plans[j].planId != plans[i].planId ==> !MayComeBefore(plans[j], plans[i]) {
      forall p | p in plans && Rankable(p) && p.planId != selected.planId
        ensures AlwaysBefore(selected, AsBounded(p, false))
      {
        var j :| 0 <= j < |plans| && plans[j] == p;
      }
    }
  }

  lemma NotRankable(p: EvaluatedPlan, s: EvaluatedPlan)
    requires !Rankable(p)
    ensures !MayComeBefore(p, s)
  {
  }

  /**
   * No other eligible plan can precede the selected one exactly when the evaluation says STABLE and no
   * plan with the selected identifier has a best case before the selected plan's worst case.
   */
  lemma UnthreatenedExact(plans: seq<EvaluatedPlan>, i: nat)
    requires SelectedAt(plans, i)
    ensures Unthreatened(plans, i) <==> Rank(plans).value.stability == Stable && !ChallengedByTwin(plans, i)
  {
    hide Rank, MayComeBefore, Challenges, AsBounded, Rankable, WellFormed;
    StableOverOthers(plans, i);
    forall j | 0 <= j < |plans| ensures Challenges(plans[j], plans[i]) <==> MayComeBefore(plans[j], plans[i]) {
      assert plans[j] in plans && plans[i] in plans;
      ChallengeMeansMayCome(plans[j], plans[i]);
    }
  }

  // ---- Horizons ----

  /** What a plan's cost is compared by: its currency, and the horizon its identifier stands for. */
  function SignatureOf(plans: seq<EvaluatedPlan>, p: EvaluatedPlan): (string, nat)
    requires p in plans && Rankable(p)
  {
    (p.dimensions.OrderingBounds().value.cost.base.currency, HorizonByPlan(plans)[p.planId])
  }

  /** Two plans that would be ranked have different signatures. */
  ghost predicate Mismatched(plans: seq<EvaluatedPlan>) {
    exists p, q ::
           p in plans && q in plans && Rankable(p) && Rankable(q) && SignatureOf(plans, p) != SignatureOf(plans, q)
  }

  lemma SignatureSource(plans: seq<EvaluatedPlan>, s: (string, nat)) returns (p: EvaluatedPlan)
    requires s in CostSignatures(plans)
    ensures p in plans && Rankable(p) && SignatureOf(plans, p) == s
  {
    hide HorizonByPlan, PlanDimensions.OrderingBounds;
    p :|
      p in plans && Rankable(p)
        && s == (p.dimensions.OrderingBounds().value.cost.base.currency, HorizonByPlan(plans)[p.planId]);
  }

  lemma SignatureListed(plans: seq<EvaluatedPlan>, p: EvaluatedPlan)
    requires p in plans && Rankable(p)
    ensures SignatureOf(plans, p) in CostSignatures(plans)
  {
    hide HorizonByPlan, PlanDimensions.OrderingBounds;
  }

  /** Ranking refuses exactly when two plans it would rank differ in currency or in that horizon. */
  lemma IncomparableExact(plans: seq<EvaluatedPlan>)
    requires AllWellFormed(plans)
    ensures Rank(plans) == Raise(IncomparableCosts) <==> Mismatched(plans)
  {
    hide Rank, HorizonByPlan, PlanDimensions.OrderingBounds, CostSignatures, SignatureOf, Rankable;
    RankTotal(plans);
    var signatures := CostSignatures(plans);
    if |signatures| > 1 {
      var x, y := TwoOf(signatures);
      var p := SignatureSource(plans, x);
      var q := SignatureSource(plans, y);
    }
    if p, q :|
        p in plans && q in plans && Rankable(p) && Rankable(q) && SignatureOf(plans, p) != SignatureOf(plans, q) {
      SignatureListed(plans, p);
      SignatureListed(plans, q);
      Larger({SignatureOf(plans, p), SignatureOf(plans, q)}, signatures);
    }
  }

  lemma TwoOf<T>(items: set<T>) returns (x: T, y: T)
    requires |items| > 1
    ensures x in items && y in items && x != y
  {
    x :| x in items;
    assert |items - {x}| == |items| - 1;
    y :| y in items - {x};
  }

  lemma Larger<T>(a: set<T>, b: set<T>)
    requires a <= b
    ensures |a| <= |b|
  {
    assert b == a + (b - a);
  }

  /** An identifier stands for the horizon of the last eligible plan that carries it. */
  lemma {:induction false} LastStands(plans: seq<EvaluatedPlan>, i: nat)
    requires i < |plans| && plans[i].status.IsEligible()
    requires forall j :: i < j < |plans| && plans[j].status.IsEligible() ==> plans[j].planId != plans[i].planId
    ensures HorizonByPlan(plans)[plans[i].planId] == plans[i].dimensions.totalCost.horizonDays
  {
    var before, last := plans[..|plans| - 1], plans[|plans| - 1];
    if i < |before| {
      assert before[i] == plans[i] && forall j :: i < j < |before| ==> before[j] == plans[j];
      LastStands(before, i);
    }
  }

  /** All plans that would be ranked are costed over one horizon. */
  ghost predicate OneHorizon(plans: seq<EvaluatedPlan>) {
    forall p, q ::
        p in plans && q in plans && Rankable(p) && Rankable(q) ==>
          p.dimensions.totalCost.horizonDays == q.dimensions.totalCost.horizonDays
  }

  /** Eligible plans that share an identifier are costed over the same horizon. */
  ghost predicate SharedHorizons(plans: seq<EvaluatedPlan>) {
    forall p, q ::
        p in plans && q in plans && p.status.IsEligible() && q.status.IsEligible() && p.planId == q.planId ==>
          p.dimensions.totalCost.horizonDays == q.dimensions.totalCost.horizonDays
  }

  /** Where identifiers share a horizon, the one they stand for is every such plan's own. */
  lemma OwnHorizon(plans: seq<EvaluatedPlan>, p: EvaluatedPlan)
    requires SharedHorizons(plans) && p in plans && p.status.IsEligible()
    ensures HorizonByPlan(plans)[p.planId] == p.dimensions.totalCost.horizonDays
  {
    hide HorizonByPlan;
    var q := HorizonFrom(plans, p.planId);
  }

  /**
   * When ranking succeeds and every eligible plan has bounds, the costs it compares are over one horizon
   * exactly when eligible plans that share an identifier share a horizon.
   */
  lemma HorizonsExact(plans: seq<EvaluatedPlan>)
    requires AllWellFormed(plans) && Rank(plans).Ok?
    requires forall p :: p in plans && p.status.IsEligible() ==> p.dimensions.OrderingBounds().Some?
    ensures OneHorizon(plans) <==> SharedHorizons(plans)
  {
    hide Rank, HorizonByPlan, PlanDimensions.OrderingBounds, Mismatched;
    IncomparableExact(plans);
    if SharedHorizons(plans) { SharedMeansOne(plans); }
  }

  lemma SharedMeansOne(plans: seq<EvaluatedPlan>)
    requires SharedHorizons(plans) && !Mismatched(plans)
    ensures OneHorizon(plans)
  {
    hide HorizonByPlan, PlanDimensions.OrderingBounds, SharedHorizons;
    forall p, q | p in plans && q in plans && Rankable(p) && Rankable(q)
      ensures p.dimensions.totalCost.horizonDays == q.dimensions.totalCost.horizonDays
    {
      OwnHorizon(plans, p);
      OwnHorizon(plans, q);
      assert SignatureOf(plans, p) == SignatureOf(plans, q);
    }
  }
}
