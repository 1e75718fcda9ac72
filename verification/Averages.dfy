/** Preference and coverage are weighted means: what fixes them apart from the sums they are computed by. */
module Averages {
  import opened Outcomes
  import opened Ordering
  import opened Bounds

  // ---- Preference ----

  /** Valid criteria under different identifiers. */
  ghost predicate Proper(criteria: seq<PreferenceCriterionBound>) {
    criteria != [] && Distinct(CriterionIds(criteria)) && forall c :: c in criteria ==> c.Valid()
  }

  function End(i: Interval, optimistic: bool): real {
    if optimistic then i.high else i.low
  }

  lemma {:induction false} SumAt(criteria: seq<PreferenceCriterionBound>, s: real, optimistic: bool)
    requires forall c :: c in criteria ==> End(c.satisfaction, optimistic) == s
    ensures WeightedSum(criteria, optimistic) == s * TotalWeight(criteria) as real
  {
    if criteria != [] {
      assert criteria[0] in criteria;
      SumAt(criteria[1..], s, optimistic);
    }
  }

  /** Where every criterion is satisfied to the same degree, that is the preference, on a scale of one hundred. */
  lemma AllAlike(criteria: seq<PreferenceCriterionBound>, s: real, optimistic: bool)
    requires Proper(criteria) && forall c :: c in criteria ==> End(c.satisfaction, optimistic) == s
    ensures AggregatePreference(criteria).Ok?
    ensures End(AggregatePreference(criteria).value, optimistic) == 100.0 * s
  {
    SumAt(criteria, s, optimistic);
    WeightPositive(criteria);
    var w := TotalWeight(criteria) as real;
    Hundred(s, w);
    QuotientIs(100.0 * WeightedSum(criteria, optimistic), w, 100.0 * s);
  }

  lemma Hundred(s: real, w: real)
    ensures 100.0 * (s * w) == (100.0 * s) * w
  {
  }

  lemma {:induction false} SumParts(a: seq<PreferenceCriterionBound>, b: seq<PreferenceCriterionBound>,
      optimistic: bool)
    ensures WeightedSum(a + b, optimistic) == WeightedSum(a, optimistic) + WeightedSum(b, optimistic)
    ensures TotalWeight(a + b) == TotalWeight(a) + TotalWeight(b)
  {
    if a == [] {
      assert a + b == b;
    } else {
      assert (a + b)[1..] == a[1..] + b;
      SumParts(a[1..], b, optimistic);
    }
  }

  lemma SumWithout(s: seq<PreferenceCriterionBound>, i: nat, optimistic: bool)
    requires i < |s|
    ensures var rest := s[..i] + s[i + 1..];
            && WeightedSum(s, optimistic) == Contribution(s[i], optimistic) + WeightedSum(rest, optimistic)
            && TotalWeight(s) == s[i].weight + TotalWeight(rest)
            && multiset(s) == multiset{s[i]} + multiset(rest)
  {
    assert s == s[..i] + ([s[i]] + s[i + 1..]);
    SumParts(s[..i], [s[i]] + s[i + 1..], optimistic);
    SumParts(s[..i], s[i + 1..], optimistic);
    assert ([s[i]] + s[i + 1..])[1..] == s[i + 1..];
  }

  /** Where the first of a is in b, and what both are without it. */
  lemma Found<T>(a: seq<T>, b: seq<T>) returns (i: nat)
    requires multiset(a) == multiset(b) && a != []
    ensures i < |b| && b[i] == a[0] && multiset(a[1..]) == multiset(b[..i] + b[i + 1..])
  {
    assert a[0] in multiset(a) && a == [a[0]] + a[1..];
    i :| 0 <= i < |b| && b[i] == a[0];
    var rest := b[..i] + b[i + 1..];
    assert b == b[..i] + ([b[i]] + b[i + 1..]);
    assert multiset(b) == multiset(b[..i]) + (multiset{b[i]} + multiset(b[i + 1..])) == multiset{a[0]} + multiset(rest);
    assert multiset(a[1..]) == multiset(a) - multiset{a[0]} == multiset(rest);
  }

  lemma {:induction false} SumRearranged(a: seq<PreferenceCriterionBound>, b: seq<PreferenceCriterionBound>,
      optimistic: bool)
    requires multiset(a) == multiset(b)
    ensures WeightedSum(a, optimistic) == WeightedSum(b, optimistic) && TotalWeight(a) == TotalWeight(b)
  {
    hide Contribution;
    assert |a| == |multiset(a)| == |multiset(b)| == |b|;
    if a != [] {
      var i := Found(a, b);
      SumWithout(b, i, optimistic);
      SumRearranged(a[1..], b[..i] + b[i + 1..], optimistic);
    }
  }

  /** The order of the criteria does not matter. */
  lemma PreferenceForgetsOrder(a: seq<PreferenceCriterionBound>, b: seq<PreferenceCriterionBound>)
    requires multiset(a) == multiset(b)
    ensures AggregatePreference(a) == AggregatePreference(b)
  {
    hide WeightedSum, TotalWeight, Distinct;
    assert |a| == |multiset(a)| == |multiset(b)| == |b|;
    forall c ensures c in a <==> c in b { assert c in multiset(a) <==> c in multiset(b); }
    if Distinct(CriterionIds(a)) { RearrangedKeys(a, b, BoundId); }
    if Distinct(CriterionIds(b)) { RearrangedKeys(b, a, BoundId); }
    SumRearranged(a, b, false);
    SumRearranged(a, b, true);
  }

  /** One criterion satisfied to a different degree. */
  function Resatisfied(criteria: seq<PreferenceCriterionBound>, i: nat, s: Interval): seq<PreferenceCriterionBound>
    requires i < |criteria|
  {
    criteria[i := criteria[i].(satisfaction := s)]
  }

  lemma SumChanged(criteria: seq<PreferenceCriterionBound>, i: nat, s: Interval, optimistic: bool)
    requires i < |criteria|
    ensures |Resatisfied(criteria, i, s)| == |criteria|
    ensures var changed := Resatisfied(criteria, i, s);
            && WeightedSum(changed, optimistic) - WeightedSum(criteria, optimistic)
               == Contribution(changed[i], optimistic) - Contribution(criteria[i], optimistic)
            && TotalWeight(changed) == TotalWeight(criteria)
  {
    hide Contribution, WeightedSum, TotalWeight;
    var changed := Resatisfied(criteria, i, s);
    SumWithout(criteria, i, optimistic);
    SumWithout(changed, i, optimistic);
    assert changed[..i] == criteria[..i] && changed[i + 1..] == criteria[i + 1..];
  }

  lemma ContributionChanged(c: PreferenceCriterionBound, s: Interval, optimistic: bool)
    ensures Contribution(c.(satisfaction := s), optimistic) - Contribution(c, optimistic)
         == Times(c.weight as real, End(s, optimistic) - End(c.satisfaction, optimistic))
  {
    Distributes(c.weight as real, End(s, optimistic), End(c.satisfaction, optimistic));
  }

  lemma Distributes(w: real, x: real, y: real)
    ensures w * (x - y) == w * x - w * y
  {
  }

  lemma {:induction false} WeightsSummed(criteria: seq<PreferenceCriterionBound>)
    ensures TotalWeight(criteria) == Sum(Map(criteria, WeightOf))
  {
    if criteria != [] {
      WeightsSummed(criteria[1..]);
      assert Map(criteria, WeightOf)[1..] == Map(criteria[1..], WeightOf);
    }
  }

  function WeightOf(c: PreferenceCriterionBound): nat { c.weight }

  function Sum(s: seq<nat>): nat {
    if s == [] then 0 else s[0] + Sum(s[1..])
  }

  /** What a change by d of one criterion of weight w amounts to among weights that add up to whole. */
  function Portion(d: real, w: nat, whole: nat): real
    requires whole > 0
  {
    100.0 * d * w as real / whole as real
  }

  /**
   * Raising how far one criterion is satisfied by d raises the preference by one hundred times d, times the
   * criterion's weight over the sum of all weights; at either end, whatever the other end does.
   */
  lemma RaisingOne(criteria: seq<PreferenceCriterionBound>, i: nat, s: Interval, optimistic: bool)
    requires Proper(criteria) && i < |criteria| && s.Within(0.0, 1.0)
    ensures var changed, whole := Resatisfied(criteria, i, s), Sum(Map(criteria, WeightOf));
            var d := End(s, optimistic) - End(criteria[i].satisfaction, optimistic);
            && AggregatePreference(criteria).Ok? && AggregatePreference(changed).Ok? && whole > 0
            && PreferenceAt(changed, optimistic)
               == PreferenceAt(criteria, optimistic) + Portion(d, criteria[i].weight, whole)
  {
    hide WeightedSum, TotalWeight, Sum, Proper, OutOfHundred, AggregatePreference, End, Contribution, Times,
         PreferenceAt, Resatisfied, Interval.Within, Portion;
    var changed := Resatisfied(criteria, i, s);
    var d := End(s, optimistic) - End(criteria[i].satisfaction, optimistic);
    SumMoved(criteria, i, s, optimistic);
    RaisedBy(criteria, changed, Times(criteria[i].weight as real, d), optimistic);
    Spelled(d, criteria[i].weight, Sum(Map(criteria, WeightOf)));
  }

  lemma SumMoved(criteria: seq<PreferenceCriterionBound>, i: nat, s: Interval, optimistic: bool)
    requires Proper(criteria) && i < |criteria| && s.Within(0.0, 1.0)
    ensures var changed := Resatisfied(criteria, i, s);
            && Proper(changed) && TotalWeight(changed) == TotalWeight(criteria)
            && WeightedSum(changed, optimistic) - WeightedSum(criteria, optimistic)
               == Times(criteria[i].weight as real, End(s, optimistic) - End(criteria[i].satisfaction, optimistic))
  {
    hide WeightedSum, TotalWeight, Proper, End, Contribution, Times, Resatisfied, Interval.Within;
    StillProper(criteria, i, s);
    SumChanged(criteria, i, s, optimistic);
    ChangedAt(criteria, i, s);
    ContributionChanged(criteria[i], s, optimistic);
  }

  lemma Spelled(d: real, w: nat, whole: nat)
    requires whole > 0
    ensures OutOfHundred(Times(w as real, d), whole as real) == Portion(d, w, whole)
  {
    assert 100.0 * d * w as real == 100.0 * (w as real * d);
  }

  /** The preference at one end, of criteria that aggregate. */
  function PreferenceAt(criteria: seq<PreferenceCriterionBound>, optimistic: bool): real
    requires AggregatePreference(criteria).Ok?
  {
    End(AggregatePreference(criteria).value, optimistic)
  }

  lemma RaisedBy(criteria: seq<PreferenceCriterionBound>, changed: seq<PreferenceCriterionBound>, y: real,
      optimistic: bool)
    requires Proper(criteria) && Proper(changed) && TotalWeight(changed) == TotalWeight(criteria)
    requires WeightedSum(changed, optimistic) - WeightedSum(criteria, optimistic) == y
    ensures AggregatePreference(criteria).Ok? && AggregatePreference(changed).Ok?
    ensures Sum(Map(criteria, WeightOf)) > 0
    ensures PreferenceAt(changed, optimistic)
            == PreferenceAt(criteria, optimistic) + OutOfHundred(y, Sum(Map(criteria, WeightOf)) as real)
  {
    hide WeightedSum, TotalWeight, Sum, Proper, OutOfHundred, AggregatePreference, End;
    ScoreIs(criteria, optimistic);
    ScoreIs(changed, optimistic);
    Moved(WeightedSum(criteria, optimistic), WeightedSum(changed, optimistic), y, TotalWeight(criteria) as real);
  }

  lemma ChangedAt(criteria: seq<PreferenceCriterionBound>, i: nat, s: Interval)
    requires i < |criteria|
    ensures |Resatisfied(criteria, i, s)| == |criteria|
    ensures Resatisfied(criteria, i, s)[i] == criteria[i].(satisfaction := s)
  {
  }

  lemma Moved(x: real, y: real, z: real, whole: real)
    requires whole > 0.0 && y - x == z
    ensures OutOfHundred(y, whole) == OutOfHundred(x, whole) + OutOfHundred(z, whole)
  {
    hide OutOfHundred;
    assert y == x + z;
    SharesAdd(x, z, whole);
  }

  lemma ScoreIs(criteria: seq<PreferenceCriterionBound>, optimistic: bool)
    requires Proper(criteria)
    ensures AggregatePreference(criteria).Ok?
    ensures TotalWeight(criteria) == Sum(Map(criteria, WeightOf)) > 0
    ensures End(AggregatePreference(criteria).value, optimistic)
            == OutOfHundred(WeightedSum(criteria, optimistic), TotalWeight(criteria) as real)
  {
    hide WeightedSum, TotalWeight, Sum;
    WeightPositive(criteria);
    WeightsSummed(criteria);
  }

  lemma StillProper(criteria: seq<PreferenceCriterionBound>, i: nat, s: Interval)
    requires Proper(criteria) && i < |criteria| && s.Within(0.0, 1.0)
    ensures Proper(Resatisfied(criteria, i, s))
  {
    var changed := Resatisfied(criteria, i, s);
    assert CriterionIds(changed) == CriterionIds(criteria);
    forall c | c in changed ensures c.Valid() {
      var j :| 0 <= j < |changed| && changed[j] == c;
      assert criteria[j] in criteria;
    }
  }

  lemma SharesAdd(x: real, y: real, whole: real)
    requires whole > 0.0
    ensures OutOfHundred(x + y, whole) == OutOfHundred(x, whole) + OutOfHundred(y, whole)
  {
    var p, q := 100.0 * x / whole, 100.0 * y / whole;
    assert p * whole == 100.0 * x && q * whole == 100.0 * y;
    QuotientIs(100.0 * (x + y), whole, p + q);
  }

  // ---- Coverage ----

  ghost predicate ProperCoverage(criteria: seq<CoverageCriterion>) {
    criteria != [] && Distinct(Map(criteria, CoverageId)) && forall c :: c in criteria ==> c.Valid()
  }

  /** The criterion counts as covered, conservatively or at best. */
  predicate CountsAs(c: CoverageCriterion, optimistic: bool) {
    if optimistic then c.optimistic else c.conservative
  }

  function Counting(optimistic: bool): CoverageCriterion -> bool {
    (c: CoverageCriterion) => CountsAs(c, optimistic)
  }

  function CoverageWeight(c: CoverageCriterion): nat { c.weight }

  function CountedWeight(optimistic: bool): CoverageCriterion -> nat {
    (c: CoverageCriterion) => if CountsAs(c, optimistic) then c.weight else 0
  }

  lemma {:induction false} CoveredIs(criteria: seq<CoverageCriterion>, counts: CoverageCriterion -> bool,
      weigh: CoverageCriterion -> nat)
    requires forall c :: c in criteria ==> weigh(c) == if counts(c) then c.weight else 0
    ensures CoveredWeight(criteria, counts) == Sum(Map(criteria, weigh))
  {
    if criteria != [] {
      assert criteria[0] in criteria;
      CoveredIs(criteria[1..], counts, weigh);
      assert Map(criteria, weigh)[1..] == Map(criteria[1..], weigh);
    }
  }

  /** Coverage is the weight of the criteria that count over the weight of all, at either end. */
  lemma CoverageExact(criteria: seq<CoverageCriterion>, optimistic: bool)
    requires ProperCoverage(criteria)
    ensures AggregateCoverage(criteria).Ok? && Sum(Map(criteria, CoverageWeight)) > 0
    ensures End(AggregateCoverage(criteria).value, optimistic)
            == Sum(Map(criteria, CountedWeight(optimistic))) as real / Sum(Map(criteria, CoverageWeight)) as real
  {
    hide CoveredWeight, Sum;
    CoveragePositive(criteria);
    CoveredIs(criteria, Counted, CoverageWeight);
    CoveredIs(criteria, CoveredNow, CountedWeight(false));
    CoveredIs(criteria, CoveredAtBest, CountedWeight(true));
  }
}
