/** Exact intervals for one plan's dimensions. */
module Bounds {
  import opened Outcomes
  import opened Ordering
  import opened Domain

  datatype Interval = Interval(low: real, high: real) {
    predicate Within(least: real, most: real) {
      least <= low <= high <= most
    }
  }

  datatype PreferenceCriterionBound = PreferenceCriterionBound(criterionId: string, weight: nat,
      satisfaction: Interval) {
    predicate Valid() {
      1 <= weight <= 5 && satisfaction.Within(0.0, 1.0)
    }
  }

  function TotalWeight(criteria: seq<PreferenceCriterionBound>): nat {
    if criteria == [] then 0 else criteria[0].weight + TotalWeight(criteria[1..])
  }

  /** What one criterion adds to the weighted sum. */
  function Contribution(c: PreferenceCriterionBound, optimistic: bool): real {
    c.weight as real * (if optimistic then c.satisfaction.high else c.satisfaction.low)
  }

  /** Weighted sum of the conservative (or optimistic) satisfactions. */
  function WeightedSum(criteria: seq<PreferenceCriterionBound>, optimistic: bool): real {
    if criteria == [] then 0.0 else Contribution(criteria[0], optimistic) + WeightedSum(criteria[1..], optimistic)
  }

  function BoundId(c: PreferenceCriterionBound): string { c.criterionId }

  function CriterionIds(criteria: seq<PreferenceCriterionBound>): seq<string> {
    Map(criteria, BoundId)
  }

  function AggregatePreference(criteria: seq<PreferenceCriterionBound>): Result<Interval, Error> {
    if criteria == [] || !Distinct(CriterionIds(criteria)) || !(forall c :: c in criteria ==> c.Valid()) then
      Raise(InvalidPreferenceBounds)
    else
      WeightPositive(criteria);
      Ok(Interval(Score(criteria, false), Score(criteria, true)))
  }

  /** The weighted mean of the satisfactions, on a scale of one hundred. */
  function Score(criteria: seq<PreferenceCriterionBound>, optimistic: bool): real
    requires TotalWeight(criteria) > 0
  {
    OutOfHundred(WeightedSum(criteria, optimistic), TotalWeight(criteria) as real)
  }

  function OutOfHundred(x: real, whole: real): real
    requires whole > 0.0
  {
    100.0 * x / whole
  }

  lemma WeightPositive(criteria: seq<PreferenceCriterionBound>)
    requires criteria != [] && forall c :: c in criteria ==> c.Valid()
    ensures TotalWeight(criteria) > 0
  {
    assert criteria[0] in criteria;
  }

  lemma WeightTimes(w: real, low: real, high: real)
    requires 0.0 <= w && 0.0 <= low <= high <= 1.0
    ensures 0.0 <= w * low <= w * high <= w
  {
    assert w * (high - low) >= 0.0;
    assert w * (1.0 - high) >= 0.0;
  }

  lemma {:induction false} WeightedSumRange(criteria: seq<PreferenceCriterionBound>)
    requires forall c :: c in criteria ==> c.Valid()
    ensures 0.0 <= WeightedSum(criteria, false) <= WeightedSum(criteria, true) <= TotalWeight(criteria) as real
  {
    if criteria != [] {
      var head := criteria[0];
      assert head in criteria;
      WeightTimes(head.weight as real, head.satisfaction.low, head.satisfaction.high);
      WeightedSumRange(criteria[1..]);
    }
  }

  lemma DivideRange(low: real, high: real, d: real)
    requires d > 0.0 && 0.0 <= low <= high <= d
    ensures 0.0 <= 100.0 * low / d <= 100.0 * high / d <= 100.0
  {
    DivideMonotone(0.0, 100.0 * low, d);
    DivideMonotone(100.0 * low, 100.0 * high, d);
    DivideMonotone(100.0 * high, 100.0 * d, d);
  }

  lemma DivideMonotone(x: real, y: real, d: real)
    requires d > 0.0 && x <= y
    ensures x / d <= y / d
  {
    var a, b := x / d, y / d;
    assert a * d == x && b * d == y;
    if a > b { ProductPositive(a - b, d); }
  }

  lemma ProductPositive(x: real, y: real)
    requires x > 0.0 && y > 0.0
    ensures x * y > 0.0
  {
  }

  /** Valid, distinct criteria always aggregate, to an ordered interval inside [0, 100]. */
  lemma PreferenceInRange(criteria: seq<PreferenceCriterionBound>)
    requires criteria != [] && Distinct(CriterionIds(criteria))
    requires forall c :: c in criteria ==> c.Valid()
    ensures AggregatePreference(criteria).Ok?
    ensures AggregatePreference(criteria).value.Within(0.0, 100.0)
  {
    WeightPositive(criteria);
    WeightedSumRange(criteria);
    DivideRange(WeightedSum(criteria, false), WeightedSum(criteria, true), TotalWeight(criteria) as real);
  }

  function Heavier(k: nat): PreferenceCriterionBound -> PreferenceCriterionBound {
    (c: PreferenceCriterionBound) => c.(weight := k * c.weight)
  }

  /** The same criteria with every weight multiplied by k. */
  function Scaled(criteria: seq<PreferenceCriterionBound>, k: nat): seq<PreferenceCriterionBound> {
    Map(criteria, Heavier(k))
  }

  function Times(k: real, x: real): real { k * x }

  function TimesNat(k: nat, n: nat): nat { k * n }

  lemma TimesAdds(k: real, x: real, y: real)
    ensures Times(k, x) + Times(k, y) == Times(k, x + y)
    ensures Times(k, 0.0) == 0.0
  {
  }

  lemma TimesNatAdds(k: nat, m: nat, n: nat)
    ensures TimesNat(k, m) + TimesNat(k, n) == TimesNat(k, m + n)
    ensures TimesNat(k, 0) == 0
  {
  }

  lemma ContributionScales(c: PreferenceCriterionBound, k: nat, optimistic: bool)
    ensures Contribution(Heavier(k)(c), optimistic) == Times(k as real, Contribution(c, optimistic))
    ensures Heavier(k)(c).weight == TimesNat(k, c.weight)
  {
    var value := if optimistic then c.satisfaction.high else c.satisfaction.low;
    var w, m := c.weight as real, k as real;
    assert (k * c.weight) as real == m * w;
    assert (m * w) * value == m * (w * value);
  }

  lemma ScaledParts(criteria: seq<PreferenceCriterionBound>, k: nat)
    requires criteria != []
    ensures Scaled(criteria, k) != []
    ensures Scaled(criteria, k)[0] == Heavier(k)(criteria[0]) && Scaled(criteria, k)[1..] == Scaled(criteria[1..], k)
  {
  }

  lemma {:induction false} ScaledSums(criteria: seq<PreferenceCriterionBound>, k: nat, optimistic: bool)
    ensures TotalWeight(Scaled(criteria, k)) == TimesNat(k, TotalWeight(criteria))
    ensures WeightedSum(Scaled(criteria, k), optimistic) == Times(k as real, WeightedSum(criteria, optimistic))
  {
    hide Times, TimesNat, Contribution, Heavier;
    if criteria == [] {
      TimesAdds(k as real, 0.0, 0.0);
      TimesNatAdds(k, 0, 0);
    } else {
      ScaledParts(criteria, k);
      ScaledSums(criteria[1..], k, optimistic);
      ContributionScales(criteria[0], k, optimistic);
      TimesAdds(k as real, Contribution(criteria[0], optimistic), WeightedSum(criteria[1..], optimistic));
      TimesNatAdds(k, criteria[0].weight, TotalWeight(criteria[1..]));
    }
  }

  lemma WeightScales(k: nat, weight: nat)
    requires k > 0 && weight > 0
    ensures TimesNat(k, weight) > 0
    ensures TimesNat(k, weight) as real == Times(k as real, weight as real)
  {
  }

  lemma ScoreScales(criteria: seq<PreferenceCriterionBound>, k: nat, optimistic: bool)
    requires k > 0 && TotalWeight(criteria) > 0
    ensures TotalWeight(Scaled(criteria, k)) > 0
    ensures Score(Scaled(criteria, k), optimistic) == Score(criteria, optimistic)
  {
    hide Times, TimesNat, OutOfHundred, Scaled, WeightedSum, TotalWeight;
    ScaledSums(criteria, k, optimistic);
    WeightScales(k, TotalWeight(criteria));
    CancelScale(k as real, WeightedSum(criteria, optimistic), TotalWeight(criteria) as real);
  }

  /** Proportionally equivalent weights give the same preference interval. */
  lemma WeightsOnlyMatterUpToScale(criteria: seq<PreferenceCriterionBound>, k: nat)
    requires k > 0
    requires AggregatePreference(criteria).Ok? && AggregatePreference(Scaled(criteria, k)).Ok?
    ensures AggregatePreference(Scaled(criteria, k)) == AggregatePreference(criteria)
  {
    WeightPositive(criteria);
    ScoreScales(criteria, k, false);
    ScoreScales(criteria, k, true);
  }

  lemma CancelScale(k: real, x: real, d: real)
    requires k > 0.0 && d > 0.0
    ensures Times(k, d) > 0.0 && OutOfHundred(Times(k, x), Times(k, d)) == OutOfHundred(x, d)
  {
    ProductPositive(k, d);
    var q := OutOfHundred(x, d);
    assert q * d == 100.0 * x;
    Rearranged(k, x, d, q);
    QuotientIs(100.0 * Times(k, x), Times(k, d), q);
  }

  lemma Rearranged(k: real, x: real, d: real, q: real)
    requires q * d == 100.0 * x
    ensures q * (k * d) == 100.0 * (k * x)
  {
    assert q * (k * d) == k * (q * d);
    assert k * (100.0 * x) == 100.0 * (k * x);
  }

  lemma QuotientIs(x: real, d: real, q: real)
    requires d > 0.0 && x == q * d
    ensures x / d == q
  {
    var r := x / d;
    assert r * d == q * d;
    if r > q { ProductPositive(r - q, d); }
    if q > r { ProductPositive(q - r, d); }
  }

  datatype CoverageCriterion = CoverageCriterion(criterionId: string, weight: nat, conservative: bool,
      optimistic: bool) {
    predicate Valid() {
      1 <= weight <= 5 && (conservative ==> optimistic)
    }
  }

  function CoveredWeight(criteria: seq<CoverageCriterion>, counts: CoverageCriterion -> bool): nat {
    if criteria == [] then 0
    else (if counts(criteria[0]) then criteria[0].weight else 0) + CoveredWeight(criteria[1..], counts)
  }

  function CoverageId(c: CoverageCriterion): string { c.criterionId }

  function Share(part: nat, whole: nat): real
    requires whole > 0
  {
    part as real / whole as real
  }

  predicate Counted(c: CoverageCriterion) { true }

  predicate CoveredNow(c: CoverageCriterion) { c.conservative }

  predicate CoveredAtBest(c: CoverageCriterion) { c.optimistic }

  /** An empty list counts as fully covered. */
  function AggregateCoverage(criteria: seq<CoverageCriterion>): Result<Interval, Error> {
    if criteria == [] then Ok(Interval(1.0, 1.0))
    else if !Distinct(Map(criteria, CoverageId)) || !(forall c :: c in criteria ==> c.Valid()) then
      Raise(InvalidCoverage)
    else
      CoveragePositive(criteria);
      Ok(Interval(Share(CoveredWeight(criteria, CoveredNow), CoveredWeight(criteria, Counted)),
                  Share(CoveredWeight(criteria, CoveredAtBest), CoveredWeight(criteria, Counted))))
  }

  lemma CoveragePositive(criteria: seq<CoverageCriterion>)
    requires criteria != [] && forall c :: c in criteria ==> c.Valid()
    ensures CoveredWeight(criteria, Counted) > 0
  {
    assert criteria[0] in criteria;
    assert CoveredWeight(criteria, Counted) == criteria[0].weight + CoveredWeight(criteria[1..], Counted);
  }

  lemma {:induction false} CoveredWeightMonotone(criteria: seq<CoverageCriterion>, p: CoverageCriterion -> bool,
      q: CoverageCriterion -> bool)
    requires forall c :: c in criteria && p(c) ==> q(c)
    ensures CoveredWeight(criteria, p) <= CoveredWeight(criteria, q)
  {
    if criteria != [] {
      assert criteria[0] in criteria;
      CoveredWeightMonotone(criteria[1..], p, q);
    }
  }

  lemma CoverageInRange(criteria: seq<CoverageCriterion>)
    requires Distinct(Map(criteria, CoverageId))
    requires forall c :: c in criteria ==> c.Valid()
    ensures AggregateCoverage(criteria).Ok?
    ensures AggregateCoverage(criteria).value.Within(0.0, 1.0)
  {
    if criteria != [] {
      CoveragePositive(criteria);
      CoveredWeightMonotone(criteria, CoveredNow, CoveredAtBest);
      CoveredWeightMonotone(criteria, CoveredAtBest, Counted);
      SharesOrdered(CoveredWeight(criteria, CoveredNow), CoveredWeight(criteria, CoveredAtBest),
        CoveredWeight(criteria, Counted));
    }
  }

  lemma SharesOrdered(low: nat, high: nat, whole: nat)
    requires low <= high <= whole && whole > 0
    ensures 0.0 <= Share(low, whole) <= Share(high, whole) <= 1.0
  {
    DivideMonotone(0.0, low as real, whole as real);
    DivideMonotone(low as real, high as real, whole as real);
    DivideMonotone(high as real, whole as real, whole as real);
  }

  datatype RiskBounds = RiskBounds(lower: StackRisk, base: StackRisk, upper: StackRisk) {
    predicate Valid() {
      lower.Rank() <= base.Rank() <= upper.Rank()
    }
  }

  function MaxRisk(a: StackRisk, b: StackRisk): StackRisk {
    if a.Rank() < b.Rank() then b else a
  }

  function AggregateRisk(components: seq<RiskBounds>): (r: RiskBounds)
    requires components != []
    ensures forall c :: c in components ==>
              c.lower.Rank() <= r.lower.Rank() && c.base.Rank() <= r.base.Rank() && c.upper.Rank() <= r.upper.Rank()
    ensures exists c :: c in components && c.lower == r.lower
    ensures exists c :: c in components && c.base == r.base
    ensures exists c :: c in components && c.upper == r.upper
  {
    var head := components[0];
    if |components| == 1 then head
    else
      var tail := AggregateRisk(components[1..]);
      assert forall c :: c in components ==> c == head || c in components[1..];
      assert forall c :: c in components[1..] ==> c in components;
      RiskBounds(MaxRisk(head.lower, tail.lower), MaxRisk(head.base, tail.base), MaxRisk(head.upper, tail.upper))
  }

  lemma RiskInRange(components: seq<RiskBounds>)
    requires components != [] && forall c :: c in components ==> c.Valid()
    ensures AggregateRisk(components).Valid()
  {
    var r := AggregateRisk(components);
    var low :| low in components && low.lower == r.lower;
    var base :| base in components && base.base == r.base;
  }

  datatype CostBounds = CostBounds(low: Money, base: Money, high: Money) {
    predicate Valid() {
      low.currency == base.currency == high.currency && low.amount <= base.amount <= high.amount
    }
  }

  /** Age over the freshness allowance; instants are whole microseconds. */
  function EvidenceAge(evaluatedAt: int, observedLower: int, observedUpper: int, slaSeconds: nat)
    : Result<Interval, Error>
  {
    if slaSeconds < 1 then Raise(InvalidFreshnessAllowance)
    else if !(observedLower <= observedUpper <= evaluatedAt) then Raise(EvidenceAfterEvaluation)
    else
      var sla := (slaSeconds * 1_000_000) as real;
      Ok(Interval((evaluatedAt - observedUpper) as real / sla, (evaluatedAt - observedLower) as real / sla))
  }

  lemma EvidenceAgeInRange(evaluatedAt: int, observedLower: int, observedUpper: int, slaSeconds: nat)
    requires slaSeconds >= 1 && observedLower <= observedUpper <= evaluatedAt
    ensures EvidenceAge(evaluatedAt, observedLower, observedUpper, slaSeconds).Ok?
    ensures 0.0 <= EvidenceAge(evaluatedAt, observedLower, observedUpper, slaSeconds).value.low
              <= EvidenceAge(evaluatedAt, observedLower, observedUpper, slaSeconds).value.high
  {
    var sla := (slaSeconds * 1_000_000) as real;
    DivideMonotone(0.0, (evaluatedAt - observedUpper) as real, sla);
    DivideMonotone((evaluatedAt - observedUpper) as real, (evaluatedAt - observedLower) as real, sla);
  }

  function MaxReal(a: real, b: real): real {
    if a < b then b else a
  }

  /** The oldest evidence decides; no evidence has age zero. */
  function AggregateAge(items: seq<Interval>): Interval {
    if items == [] then Interval(0.0, 0.0)
    else
      var tail := AggregateAge(items[1..]);
      Interval(MaxReal(items[0].low, tail.low), MaxReal(items[0].high, tail.high))
  }

  lemma {:induction false} AgeInRange(items: seq<Interval>)
    requires forall i :: i in items ==> 0.0 <= i.low <= i.high
    ensures 0.0 <= AggregateAge(items).low <= AggregateAge(items).high
    ensures forall i :: i in items ==> i.low <= AggregateAge(items).low && i.high <= AggregateAge(items).high
  {
    if items != [] {
      assert items[0] in items;
      AgeInRange(items[1..]);
    }
  }

  /** Why a dimension has no usable bound. */
  datatype BoundReason =
    | UnknownBound(criterionId: string)
    | NeutralPriorMissing(criterionId: string)
    | EvidenceTimeUnknown
    | NoApplicablePreference
    | RiskInputMissing(ruleId: string)
    | RiskRulesIncomplete
    | TotalCostUnknown(offerId: string)
    | LineItemsDisagree(offerId: string, part: string)
    | FeeCountWrong(offerId: string)
    | UnexpectedFee(offerId: string)

  datatype OrderingBounds = OrderingBounds(
    preference: Interval,
    risk: RiskBounds,
    cost: CostBounds,
    coverage: Interval,
    age: Interval)
  {
    predicate Valid() {
      && preference.low <= preference.high
      && risk.Valid()
      && cost.Valid()
      && coverage.low <= coverage.high
      && age.low <= age.high
    }
  }
}
