/** Which dimension decides between plans: preference first, then risk, cost, coverage and age. */
module Priorities {
  import opened Outcomes
  import opened Ordering
  import opened Domain
  import opened Bounds
  import opened Stability
  import opened Dimensions
  import opened Engine
  import opened RankGuarantees

  /** One value for each dimension of a plan. */
  datatype Case = Case(preference: real, risk: StackRisk, cost: nat, coverage: real, age: real)

  /** What plans are ranked by. */
  function Declared(b: OrderingBounds): Case {
    Case(b.preference.low, b.risk.base, b.cost.base.amount, b.coverage.low, b.age.high)
  }

  function AtWorst(b: OrderingBounds): Case {
    Case(b.preference.low, b.risk.upper, b.cost.high.amount, b.coverage.low, b.age.high)
  }

  function AtBest(b: OrderingBounds): Case {
    Case(b.preference.high, b.risk.lower, b.cost.low.amount, b.coverage.high, b.age.low)
  }

  const RISKS := [Low, Medium, High, Critical]

  ghost predicate Riskier(a: StackRisk, b: StackRisk) {
    exists i, j :: 0 <= j < i < |RISKS| && RISKS[i] == a && RISKS[j] == b
  }

  /** Not less preferred; if equally, not riskier; if equally, not dearer; and so on to coverage and age. */
  ghost predicate NotWorse(a: Case, b: Case) {
    && b.preference <= a.preference
    && (a.preference == b.preference ==>
          && !Riskier(a.risk, b.risk)
          && (a.risk == b.risk ==>
                && a.cost <= b.cost
                && (a.cost == b.cost ==>
                      && b.coverage <= a.coverage
                      && (a.coverage == b.coverage ==> a.age <= b.age))))
  }

  /** p, if it turns out as a, does not come after q, if that turns out as b. */
  ghost predicate HoldsUp(p: BoundedPlan, a: Case, q: BoundedPlan, b: Case) {
    && (q.status == Eligible ==> p.status == Eligible)
    && ((p.status == Eligible ==> q.status == Eligible) ==>
          && NotWorse(a, b)
          && (a == b ==>
                && !IdsLess(q.stableActionIds, p.stableActionIds)
                && (p.stableActionIds == q.stableActionIds ==> !StrLess(q.planId, p.planId))))
  }

  lemma RiskOrder(a: StackRisk, b: StackRisk)
    ensures Riskier(a, b) <==> b.Rank() < a.Rank()
  {
    assert RISKS[a.Rank()] == a && RISKS[b.Rank()] == b;
    assert forall i :: 0 <= i < |RISKS| ==> RISKS[i].Rank() == i;
  }

  lemma SameRisk(a: StackRisk, b: StackRisk)
    ensures a == b <==> a.Rank() == b.Rank()
  {
  }

  function ChoiceOf(c: Case): Choice {
    Choice(c.preference, c.risk.Rank(), c.cost as real, c.coverage, c.age)
  }

  lemma HoldsUpExact(p: BoundedPlan, a: Case, q: BoundedPlan, b: Case)
    ensures HoldsUp(p, a, q, b) <==> !KeyLess(KeyAt(q, ChoiceOf(b)), KeyAt(p, ChoiceOf(a)))
  {
    hide IdsLess, StrLess, NotWorse;
    NotWorseExact(a, b);
    SameCase(a, b);
    IdsOrder();
  }

  /** b comes before a on the first dimension where they differ. */
  predicate Beats(b: Case, a: Case) {
    var x, y := ChoiceOf(b), ChoiceOf(a);
    if x.preference != y.preference then x.preference > y.preference
    else if x.risk != y.risk then x.risk < y.risk
    else if x.cost != y.cost then x.cost < y.cost
    else if x.coverage != y.coverage then x.coverage > y.coverage
    else x.age < y.age
  }

  lemma NotWorseExact(a: Case, b: Case)
    ensures NotWorse(a, b) <==> !Beats(b, a)
  {
    hide Riskier, StackRisk.Rank;
    RiskOrder(a.risk, b.risk);
    SameRisk(a.risk, b.risk);
  }

  lemma SameCase(a: Case, b: Case)
    ensures a == b <==> ChoiceOf(a) == ChoiceOf(b)
  {
    SameRisk(a.risk, b.risk);
  }

  /** p does not come after q as ranked. */
  ghost predicate RankedAhead(p: BoundedPlan, q: BoundedPlan)
    requires p.bounds.Some? && q.bounds.Some?
  {
    HoldsUp(p, Declared(p.bounds.value), q, Declared(q.bounds.value))
  }

  /** p in its worst case does not come after q in its best. */
  ghost predicate Secure(p: BoundedPlan, q: BoundedPlan)
    requires p.bounds.Some? && q.bounds.Some?
  {
    HoldsUp(p, AtWorst(p.bounds.value), q, AtBest(q.bounds.value))
  }

  lemma AheadExact(p: BoundedPlan, q: BoundedPlan)
    requires p.bounds.Some? && q.bounds.Some?
    ensures RankedAhead(p, q) <==> !RanksBefore(q, p)
  {
    hide HoldsUp, KeyLess;
    HoldsUpExact(p, Declared(p.bounds.value), q, Declared(q.bounds.value));
  }

  lemma SecureExact(p: BoundedPlan, q: BoundedPlan)
    requires p.bounds.Some? && q.bounds.Some?
    ensures Secure(p, q) <==> !Threatens(q, p)
  {
    hide HoldsUp, KeyLess;
    HoldsUpExact(p, AtWorst(p.bounds.value), q, AtBest(q.bounds.value));
  }

  // ---- The selected plan and the ranked list ----

  /**
   * No plan that can be ranked is preferred to the selected one; none as preferred is less risky, none
   * also as risky is cheaper, none also as cheap is covered better, and none also as covered is younger.
   */
  lemma SelectedIsBest(plans: seq<EvaluatedPlan>, q: EvaluatedPlan)
    requires Rank(plans).Ok? && q in plans && Rankable(q)
    ensures var s := Rank(plans).value.selected;
            s.Some? && s.value.bounds.Some? && RankedAhead(s.value, AsBounded(q, false))
  {
    hide Rank, RanksBefore, RankedAhead, PlanDimensions.OrderingBounds;
    SelectionExact(plans);
    var s := Rank(plans).value.selected.value;
    AheadExact(s, AsBounded(q, false));
  }

  /** Plans with bounds, each ahead of those after it. */
  ghost predicate InOrder(ranked: seq<BoundedPlan>) {
    (forall b :: b in ranked ==> b.bounds.Some?)
    && forall i, j :: 0 <= i < j < |ranked| ==> RankedAhead(ranked[i], ranked[j])
  }

  /** The whole ranked list is in this order, and holds every plan that can be ranked. */
  lemma RankedInOrder(plans: seq<EvaluatedPlan>) returns (ranked: seq<BoundedPlan>)
    requires Rank(plans).Ok?
    ensures Rank(plans).value.rankedPlanIds == PlanIds(ranked)
    ensures forall b :: b in ranked <==> exists p :: p in plans && Rankable(p) && b == AsBounded(p, false)
    ensures InOrder(ranked)
  {
    hide Rank, RanksBefore, RankedAhead, PlanDimensions.OrderingBounds, AssessRankStability, ResolutionFrontier, Sort;
    var bounded;
    bounded, ranked := RankParts(plans);
    BoundedAre(plans, bounded);
    var candidates := Filter(bounded, HasBounds);
    SortPermutes(candidates, RanksBefore);
    RankOrder();
    SortSorts(candidates, RanksBefore);
    forall b ensures b in ranked <==> exists p :: p in plans && Rankable(p) && b == AsBounded(p, false) {
      assert b in ranked <==> b in bounded && HasBounds(b);
    }
    forall i, j | 0 <= i < j < |ranked|
      ensures ranked[i].bounds.Some? && ranked[j].bounds.Some? && RankedAhead(ranked[i], ranked[j])
    {
      assert ranked[i] in candidates && ranked[j] in candidates;
      assert !RanksBefore(ranked[j], ranked[i]);
      AheadExact(ranked[i], ranked[j]);
    }
  }

  // ---- Stability ----

  /** Some rival with the identifier is not held off. */
  ghost predicate Challenged(plans: seq<EvaluatedPlan>, selected: BoundedPlan, id: string)
    requires selected.bounds.Some?
  {
    exists q :: q in plans && IsRival(q, selected) && q.planId == id && q.dimensions.OrderingBounds().Some?
                && !Secure(selected, AsBounded(q, false))
  }

  lemma SecureMeans(p: BoundedPlan, q: BoundedPlan)
    requires p.bounds.Some? && q.bounds.Some? && p.bounds.value.Valid() && q.bounds.value.Valid()
    ensures Secure(p, q) <==> !MayPrecede(q, p)
  {
    hide Secure, MayPrecede, KeyLess, Threatens;
    SecureExact(p, q);
    ThreatMeansMayPrecede(q, p);
  }

  /**
   * With bounds on every eligible plan, the ordering frontier holds the selected plan and exactly the
   * rivals whose best case the selected plan's worst case does not hold up against, in the same order of
   * dimensions; the answer is STABLE exactly when there are none.
   */
  lemma FrontierInParts(plans: seq<EvaluatedPlan>, id: string)
    requires AllWellFormed(plans) && Rank(plans).Ok? && Rank(plans).value.selected.Some?
    requires forall p :: p in plans && p.status.IsEligible() ==> p.dimensions.OrderingBounds().Some?
    ensures var r := Rank(plans).value;
            && r.selected.value.bounds.Some?
            && (id in r.orderingFrontier <==> id == r.selected.value.planId || Challenged(plans, r.selected.value, id))
            && (r.stability == Stable <==> forall x :: !Challenged(plans, r.selected.value, x))
  {
    hide Rank, MayPrecede, Secure, PlanDimensions.OrderingBounds, WellFormed, AlwaysBefore;
    SelectionExact(plans);
    var s := Rank(plans).value.selected.value;
    OrderingFrontierExact(plans, id);
    StableSelectionExact(plans);
    forall q | q in plans && IsRival(q, s)
      ensures Secure(s, AsBounded(q, false)) <==> !MayPrecede(AsBounded(q, false), s)
      ensures Secure(s, AsBounded(q, false)) <==> AlwaysBefore(s, AsBounded(q, false))
    {
      ValidBounds(plans, q, s);
      SecureMeans(s, AsBounded(q, false));
      SecureExact(s, AsBounded(q, false));
      NoThreatMeansAlwaysBefore(AsBounded(q, false), s);
    }
    if Rank(plans).value.stability != Stable {
      var q :| q in plans && IsRival(q, s) && !AlwaysBefore(s, AsBounded(q, false));
      assert Challenged(plans, s, q.planId);
    }
  }

  lemma ValidBounds(plans: seq<EvaluatedPlan>, q: EvaluatedPlan, s: BoundedPlan)
    requires AllWellFormed(plans) && q in plans && q.dimensions.OrderingBounds().Some?
    requires exists p :: p in plans && Rankable(p) && s == AsBounded(p, false)
    ensures s.bounds.Some? && s.bounds.value.Valid() && AsBounded(q, false).bounds.value.Valid()
  {
  }

  /** The resolution frontier holds exactly the pending plans that, once resolved, are not held off. */
  lemma ResolutionInParts(plans: seq<EvaluatedPlan>, id: string)
    requires AllWellFormed(plans) && Rank(plans).Ok? && Rank(plans).value.selected.Some?
    ensures var s := Rank(plans).value.selected.value;
            && s.bounds.Some?
            && (id in Rank(plans).value.resolutionFrontier
                <==> exists p ::
                     p in plans && IsResolvable(p) && p.planId == id && !Secure(s, AsBounded(p, true)))
  {
    hide Rank, MayPrecede, Secure, PlanDimensions.OrderingBounds, WellFormed;
    SelectionExact(plans);
    ResolutionFrontierExact(plans, id);
    var s := Rank(plans).value.selected.value;
    forall p | p in plans && IsResolvable(p)
      ensures Secure(s, AsBounded(p, true)) <==> !MayPrecede(AsBounded(p, true), s)
    {
      ValidBounds(plans, p, s);
      SecureMeans(s, AsBounded(p, true));
    }
  }

  /**
   * At equal status and equal, certain preference, a plan whose highest risk is below another's lowest is
   * never threatened by it, whatever the two cost.
   */
  lemma SaferIsSecure(p: BoundedPlan, q: BoundedPlan)
    requires p.bounds.Some? && q.bounds.Some? && p.status == q.status
    requires p.bounds.value.preference.low == q.bounds.value.preference.high
    requires Riskier(q.bounds.value.risk.lower, p.bounds.value.risk.upper)
    ensures !Threatens(q, p)
  {
    hide Threatens;
    RiskOrder(q.bounds.value.risk.lower, p.bounds.value.risk.upper);
    RiskOrder(p.bounds.value.risk.upper, q.bounds.value.risk.lower);
    SecureExact(p, q);
  }

  // ---- Plans without bounds ----

  /** The plans reported as without bounds are the eligible ones that have none, the selected plan's twins aside. */
  lemma UnavailableExact(plans: seq<EvaluatedPlan>, id: string)
    requires Rank(plans).Ok?
    ensures var r := Rank(plans).value;
            && (r.selected.None? ==>
                  (id in r.boundUnavailable <==> exists p :: p in plans && p.status.IsEligible() && p.planId == id))
            && (r.selected.Some? ==>
                  (id in r.boundUnavailable
                   <==> exists p :: p in plans && IsRival(p, r.selected.value) && p.planId == id
                          && p.dimensions.OrderingBounds().None?))
  {
    hide RanksBefore, PlanDimensions.OrderingBounds, ResolutionFrontier, Sort, KeyLess, Threatens;
    var bounded, ranked := RankParts(plans);
    BoundedOfPlans(plans, bounded);
    SortPermutes(Filter(bounded, HasBounds), RanksBefore);
    if ranked == [] {
      AllListed(plans, bounded, id);
    } else {
      assert ranked[0] in ranked && ranked[0].bounds.Some?;
      RivalsListed(plans, bounded, ranked[0], id);
    }
  }

  lemma AllListed(plans: seq<EvaluatedPlan>, bounded: seq<BoundedPlan>, id: string)
    requires BoundedOf(plans, bounded)
    ensures id in SortBy(PlanIds(bounded), Identity)
            <==> exists p :: p in plans && p.status.IsEligible() && p.planId == id
  {
    var ids := PlanIds(bounded);
    SortPermutes(ids, ByKey(Identity));
    if id in ids {
      var i :| 0 <= i < |ids| && ids[i] == id;
      assert bounded[i] in bounded;
    }
    if p :| p in plans && p.status.IsEligible() && p.planId == id {
      assert AsBounded(p, false) in bounded;
      var i :| 0 <= i < |bounded| && bounded[i] == AsBounded(p, false);
      assert ids[i] == id;
    }
  }

  lemma RivalsListed(plans: seq<EvaluatedPlan>, bounded: seq<BoundedPlan>, selected: BoundedPlan, id: string)
    requires BoundedOf(plans, bounded) && selected.bounds.Some?
    ensures id in AssessRankStability(selected, Filter(bounded, OtherThan(selected))).boundUnavailable
            <==> exists p :: p in plans && IsRival(p, selected) && p.planId == id
                   && p.dimensions.OrderingBounds().None?
  {
    hide BoundedOf, PlanDimensions.OrderingBounds, Sort, Threatens;
    var competitors := Filter(bounded, OtherThan(selected));
    SortedIdsOf([selected] + competitors, Unbounded);
    if b :| b in [selected] + competitors && Unbounded(b) && b.planId == id {
      var p := CompetitorSource(plans, bounded, selected, b);
    }
    if p :| p in plans && IsRival(p, selected) && p.planId == id && p.dimensions.OrderingBounds().None? {
      RivalCompetes(plans, bounded, selected, p);
      assert AsBounded(p, false) in [selected] + competitors;
    }
  }
}
