/** Ordering keys and the stability test against worst and best cases. */
module Stability {
  import opened Outcomes
  import opened Ordering
  import opened Domain
  import opened Bounds

  datatype BoundedPlan = BoundedPlan(
    planId: string,
    status: CandidateStatus,
    stableActionIds: seq<string>,
    bounds: Option<OrderingBounds>,
    boundUnavailableReasons: set<BoundReason>)
  {
    function StatusRank(): int {
      if status == Eligible then 0 else 1
    }

    /** What construction checks: eligible plans only, and bounds or reasons but never both. */
    predicate Constructible() {
      status.IsEligible() && stableActionIds != [] && (bounds.None? <==> boundUnavailableReasons != {})
    }
  }

  function MakeBoundedPlan(
    planId: string, status: CandidateStatus, ids: seq<string>, bounds: Option<OrderingBounds>,
      reasons: set<BoundReason>)
    : Result<BoundedPlan, Error>
  {
    var plan := BoundedPlan(planId, status, ids, bounds, reasons);
    if plan.Constructible() then Ok(plan) else Raise(InvalidBoundedPlan)
  }

  /** The tuple plans are compared by; higher-is-better parts are negated. */
  datatype OrderKey = OrderKey(
    statusRank: int,
    preference: real,
    risk: int,
    cost: real,
    coverage: real,
    age: real,
    stableActionIds: seq<string>,
    planId: string)

  /** Tuple comparison: the first differing part decides. */
  predicate KeyLess(a: OrderKey, b: OrderKey) {
    if a.statusRank != b.statusRank then a.statusRank < b.statusRank
    else if a.preference != b.preference then a.preference < b.preference
    else if a.risk != b.risk then a.risk < b.risk
    else if a.cost != b.cost then a.cost < b.cost
    else if a.coverage != b.coverage then a.coverage < b.coverage
    else if a.age != b.age then a.age < b.age
    else if a.stableActionIds != b.stableActionIds then IdsLess(a.stableActionIds, b.stableActionIds)
    else StrLess(a.planId, b.planId)
  }

  /** One value for every uncertain dimension. */
  datatype Choice = Choice(preference: real, risk: int, cost: real, coverage: real, age: real)

  predicate Admits(b: OrderingBounds, c: Choice) {
    && b.preference.low <= c.preference <= b.preference.high
    && b.risk.lower.Rank() <= c.risk <= b.risk.upper.Rank()
    && b.cost.low.amount as real <= c.cost <= b.cost.high.amount as real
    && b.coverage.low <= c.coverage <= b.coverage.high
    && b.age.low <= c.age <= b.age.high
  }

  /** The key a plan would have if its dimensions turned out to be c. */
  function KeyAt(p: BoundedPlan, c: Choice): OrderKey {
    OrderKey(p.StatusRank(), -c.preference, c.risk, c.cost, -c.coverage, c.age, p.stableActionIds, p.planId)
  }

  function AuthoritativeChoice(b: OrderingBounds): Choice {
    Choice(b.preference.low, b.risk.base.Rank(), b.cost.base.amount as real, b.coverage.low, b.age.high)
  }

  function WorstChoice(b: OrderingBounds): Choice {
    Choice(b.preference.low, b.risk.upper.Rank(), b.cost.high.amount as real, b.coverage.low, b.age.high)
  }

  function BestChoice(b: OrderingBounds): Choice {
    Choice(b.preference.high, b.risk.lower.Rank(), b.cost.low.amount as real, b.coverage.high, b.age.low)
  }

  function AuthoritativeKey(p: BoundedPlan): OrderKey
    requires p.bounds.Some?
  {
    KeyAt(p, AuthoritativeChoice(p.bounds.value))
  }

  function ConservativeKey(p: BoundedPlan): OrderKey
    requires p.bounds.Some?
  {
    KeyAt(p, WorstChoice(p.bounds.value))
  }

  function OptimisticKey(p: BoundedPlan): OrderKey
    requires p.bounds.Some?
  {
    KeyAt(p, BestChoice(p.bounds.value))
  }

  datatype RankStabilityResult = RankStabilityResult(
    status: RankStability,
    orderingFrontier: seq<string>,
    boundUnavailable: seq<string>)

  function PlanIds(plans: seq<BoundedPlan>): seq<string> {
    Map(plans, (p: BoundedPlan) => p.planId)
  }

  predicate Unbounded(p: BoundedPlan) {
    p.bounds.None?
  }

  /** p's best case comes before the selected plan's worst case. */
  predicate Threatens(p: BoundedPlan, selected: BoundedPlan) {
    p.bounds.Some? && selected.bounds.Some? && KeyLess(OptimisticKey(p), ConservativeKey(selected))
  }

  function Identity(id: string): seq<string> {
    [id]
  }

  function AssessRankStability(selected: BoundedPlan, competitors: seq<BoundedPlan>): RankStabilityResult {
    var unavailable := SortBy(PlanIds(Filter([selected] + competitors, Unbounded)), Identity);
    if unavailable != [] then RankStabilityResult(Undetermined, [], unavailable)
    else
      var frontier := SortBy(PlanIds(Filter(competitors, (p: BoundedPlan) => Threatens(p, selected))), Identity);
      RankStabilityResult(if frontier == [] then Stable else Unstable, frontier, [])
  }

  // ---- The key order ----

  lemma KeyOrder()
    ensures StrictTotal(KeyLess)
  {
    IdsOrder();
    StrOrder();
    forall a: OrderKey ensures !KeyLess(a, a) {}
    forall a: OrderKey, b: OrderKey ensures KeyLess(a, b) || KeyLess(b, a) || a == b {}
    forall a: OrderKey, b: OrderKey, c: OrderKey | KeyLess(a, b) && KeyLess(b, c) ensures KeyLess(a, c) {
      KeyTransitive(a, b, c);
    }
  }

  lemma KeyTransitive(a: OrderKey, b: OrderKey, c: OrderKey)
    requires KeyLess(a, b) && KeyLess(b, c)
    ensures KeyLess(a, c)
  {
    IdsOrder();
    StrOrder();
  }

  /** Every admissible choice lies between the best case and the worst case. */
  lemma KeyBetween(p: BoundedPlan, c: Choice)
    requires p.bounds.Some? && Admits(p.bounds.value, c)
    ensures KeyAt(p, c) == OptimisticKey(p) || KeyLess(OptimisticKey(p), KeyAt(p, c))
    ensures KeyAt(p, c) == ConservativeKey(p) || KeyLess(KeyAt(p, c), ConservativeKey(p))
  {
  }

  /** Both extremes, and the authoritative values, are themselves admissible. */
  lemma ExtremesAdmissible(b: OrderingBounds)
    requires b.Valid()
    ensures Admits(b, WorstChoice(b)) && Admits(b, BestChoice(b)) && Admits(b, AuthoritativeChoice(b))
  {
  }

  /** p comes before q whatever their dimensions turn out to be. */
  ghost predicate AlwaysBefore(p: BoundedPlan, q: BoundedPlan)
    requires p.bounds.Some? && q.bounds.Some?
  {
    forall x: Choice, y: Choice ::
        Admits(p.bounds.value, x) && Admits(q.bounds.value, y) ==> KeyLess(KeyAt(p, x), KeyAt(q, y))
  }

  /** p comes before q for some way the dimensions may turn out. */
  ghost predicate MayPrecede(p: BoundedPlan, q: BoundedPlan)
    requires p.bounds.Some? && q.bounds.Some?
  {
    exists x: Choice, y: Choice ::
           Admits(p.bounds.value, x) && Admits(q.bounds.value, y) && KeyLess(KeyAt(p, x), KeyAt(q, y))
  }

  lemma ThreatMeansMayPrecede(p: BoundedPlan, q: BoundedPlan)
    requires p.bounds.Some? && q.bounds.Some? && p.bounds.value.Valid() && q.bounds.value.Valid()
    ensures Threatens(p, q) <==> MayPrecede(p, q)
  {
    KeyOrder();
    var b, w := BestChoice(p.bounds.value), WorstChoice(q.bounds.value);
    if Threatens(p, q) {
      ExtremesAdmissible(p.bounds.value);
      ExtremesAdmissible(q.bounds.value);
      assert KeyLess(KeyAt(p, b), KeyAt(q, w));
    }
    if MayPrecede(p, q) {
      var x: Choice, y: Choice :|
        Admits(p.bounds.value, x) && Admits(q.bounds.value, y) && KeyLess(KeyAt(p, x), KeyAt(q, y));
      KeyBetween(p, x);
      KeyBetween(q, y);
    }
  }

  lemma NoThreatMeansAlwaysBefore(p: BoundedPlan, selected: BoundedPlan)
    requires p.bounds.Some? && selected.bounds.Some? && p.bounds.value.Valid() && selected.bounds.value.Valid()
    requires p.planId != selected.planId
    ensures !Threatens(p, selected) <==> AlwaysBefore(selected, p)
  {
    KeyOrder();
    if !Threatens(p, selected) {
      forall x: Choice, y: Choice | Admits(selected.bounds.value, x) && Admits(p.bounds.value, y)
        ensures KeyLess(KeyAt(selected, x), KeyAt(p, y))
      {
        KeyBetween(selected, x);
        KeyBetween(p, y);
        assert OptimisticKey(p) != ConservativeKey(selected);
        assert KeyLess(ConservativeKey(selected), OptimisticKey(p));
      }
    }
    if AlwaysBefore(selected, p) {
      ExtremesAdmissible(p.bounds.value);
      ExtremesAdmissible(selected.bounds.value);
      assert KeyLess(KeyAt(selected, WorstChoice(selected.bounds.value)), KeyAt(p, BestChoice(p.bounds.value)));
    }
  }

  // ---- Soundness and completeness of the stability test ----

  ghost predicate AllBounded(plans: seq<BoundedPlan>) {
    forall p :: p in plans ==> p.bounds.Some? && p.bounds.value.Valid()
  }

  /** Membership of the sorted identifiers of the plans a filter keeps. */
  lemma SortedIdsOf(plans: seq<BoundedPlan>, keep: BoundedPlan -> bool)
    ensures forall id :: id in SortBy(PlanIds(Filter(plans, keep)), Identity)
                    <==> exists p :: p in plans && keep(p) && p.planId == id
    ensures SortBy(PlanIds(Filter(plans, keep)), Identity) == [] <==> forall p :: p in plans ==> !keep(p)
  {
    hide IdsLess, Sort;
    var kept := Filter(plans, keep);
    var ids := PlanIds(kept);
    SortPermutes(ids, ByKey(Identity));
    forall id ensures id in ids <==> exists p :: p in plans && keep(p) && p.planId == id {
      if p :| p in plans && keep(p) && p.planId == id {
        assert p in kept;
        var i :| 0 <= i < |kept| && kept[i] == p;
        assert ids[i] == id;
      }
      if id in ids {
        var i :| 0 <= i < |ids| && ids[i] == id;
        assert kept[i] in kept;
      }
    }
    if kept != [] { assert kept[0] in kept; }
    if p :| p in plans && keep(p) { assert p in kept; }
  }

  /**
   * Without bounds the answer is UNDETERMINED, listing exactly the unbounded plans. With bounds it
   * is STABLE exactly when the selected plan precedes every competitor under every joint choice of
   * values, and the frontier is exactly the competitors that precede it under some choice.
   */
  lemma StabilityExact(selected: BoundedPlan, competitors: seq<BoundedPlan>)
    requires forall p :: p in [selected] + competitors && p.bounds.Some? ==> p.bounds.value.Valid()
    requires forall p :: p in competitors ==> p.planId != selected.planId
    ensures var r := AssessRankStability(selected, competitors);
            && (r.status == Undetermined <==> !AllBounded([selected] + competitors))
            && (forall id ::
                 id in r.boundUnavailable
                 <==> exists p :: p in [selected] + competitors && Unbounded(p) && p.planId == id)
            && (AllBounded([selected] + competitors) ==>
                  && (r.status == Stable
                      <==> forall p :: p in competitors ==> p.bounds.Some? && AlwaysBefore(selected, p))
                  && (forall id :: id in r.orderingFrontier
                                <==> exists p ::
                                     p in competitors && p.bounds.Some? && MayPrecede(p, selected) && p.planId == id))
  {
    var all := [selected] + competitors;
    SortedIdsOf(all, Unbounded);
    var threat := (p: BoundedPlan) => Threatens(p, selected);
    SortedIdsOf(competitors, threat);
    assert selected in all;
    assert forall p :: p in competitors ==> p in all;
    if AllBounded(all) {
      forall p | p in competitors
        ensures threat(p) <==> MayPrecede(p, selected)
        ensures !threat(p) <==> AlwaysBefore(selected, p)
      {
        ThreatMeansMayPrecede(p, selected);
        NoThreatMeansAlwaysBefore(p, selected);
      }
    }
  }

  // ---- Being first of all, which is more than preceding the selected plan ----

  ghost predicate AdmissibleAll(plans: seq<BoundedPlan>, choices: seq<Choice>)
    requires AllBounded(plans)
  {
    |choices| == |plans| && forall j :: 0 <= j < |plans| ==> Admits(plans[j].bounds.value, choices[j])
  }

  ghost predicate FirstUnder(plans: seq<BoundedPlan>, i: nat, choices: seq<Choice>)
    requires AllBounded(plans) && i < |plans| && AdmissibleAll(plans, choices)
  {
    forall j :: 0 <= j < |plans| && j != i ==> KeyLess(KeyAt(plans[i], choices[i]), KeyAt(plans[j], choices[j]))
  }

  /** A plan can come first of all exactly when its best case precedes every other worst case. */
  lemma MayWinExact(plans: seq<BoundedPlan>, i: nat)
    requires AllBounded(plans) && i < |plans|
    ensures (exists choices :: AdmissibleAll(plans, choices) && FirstUnder(plans, i, choices))
            <==> forall j :: 0 <= j < |plans| && j != i ==> Threatens(plans[i], plans[j])
  {
    if choices :| AdmissibleAll(plans, choices) && FirstUnder(plans, i, choices) {
      forall j | 0 <= j < |plans| && j != i ensures Threatens(plans[i], plans[j]) {
        assert KeyLess(KeyAt(plans[i], choices[i]), KeyAt(plans[j], choices[j]));
        ThreatMeansMayPrecede(plans[i], plans[j]);
      }
    }
    if forall j :: 0 <= j < |plans| && j != i ==> Threatens(plans[i], plans[j]) {
      var choices := seq(|plans|, j requires 0 <= j < |plans| =>
        if j == i then BestChoice(plans[j].bounds.value) else WorstChoice(plans[j].bounds.value));
      forall j | 0 <= j < |plans| ensures Admits(plans[j].bounds.value, choices[j]) {
        ExtremesAdmissible(plans[j].bounds.value);
      }
      assert AdmissibleAll(plans, choices) && FirstUnder(plans, i, choices);
    }
  }

  function RiskOnlyPlan(id: string, risk: RiskBounds): BoundedPlan {
    var cents := Money(100, "USD");
    var bounds :=
      OrderingBounds(Interval(50.0, 50.0), risk, CostBounds(cents, cents, cents), Interval(1.0, 1.0),
        Interval(0.0, 0.0));
    BoundedPlan(id, Eligible, ["replace", id], Some(bounds), {})
  }

  lemma ReplaceOrder(x: string, y: string)
    requires StrLess(x, y) && x != y
    ensures IdsLess(["replace", x], ["replace", y]) && !IdsLess(["replace", y], ["replace", x])
  {
    IdsOrder();
    assert ["replace", x][1..] == [x] && ["replace", y][1..] == [y];
  }

  /**
   * A frontier member need not be able to come first of all: here c may precede the selected
   * plan a, yet b precedes c whatever happens.
   */
  lemma FrontierNeedNotWin(a: BoundedPlan, b: BoundedPlan, c: BoundedPlan)
    requires a == RiskOnlyPlan("a", RiskBounds(Low, Low, High))
    requires b == RiskOnlyPlan("b", RiskBounds(Medium, Medium, Medium))
    requires c == RiskOnlyPlan("c", RiskBounds(Medium, Medium, Medium))
    ensures AllBounded([a, b, c])
    ensures KeyLess(AuthoritativeKey(a), AuthoritativeKey(b)) && KeyLess(AuthoritativeKey(a), AuthoritativeKey(c))
    ensures c.planId in AssessRankStability(a, [b, c]).orderingFrontier
    ensures !exists choices :: AdmissibleAll([a, b, c], choices) && FirstUnder([a, b, c], 2, choices)
  {
    var plans := [a, b, c];
    FrontierHas(a, b, c);
    ReplaceOrder("b", "c");
    assert !Threatens(plans[2], plans[1]);
    MayWinExact(plans, 2);
  }

  lemma FrontierHas(a: BoundedPlan, b: BoundedPlan, c: BoundedPlan)
    requires a.bounds.Some? && b.bounds.Some? && c.bounds.Some?
    requires a.bounds.value.Valid() && b.bounds.value.Valid() && c.bounds.value.Valid()
    requires a.planId != b.planId && a.planId != c.planId
    requires Threatens(c, a)
    ensures c.planId in AssessRankStability(a, [b, c]).orderingFrontier
  {
    StabilityExact(a, [b, c]);
    ThreatMeansMayPrecede(c, a);
    assert c in [b, c];
  }
}
