/** What a bundle says on a preference field, in terms of what its components say. */
module BundleFields {
  import opened Outcomes
  import opened Ordering
  import opened GraphModels
  import opened Gates
  import opened Dimensions
  import opened Materials
  import opened Matching
  import opened Removals

  // ---- Numbers ----

  /** The numbers the values are read as, one by one. */
  ghost predicate ReadAs(host: Host, values: seq<FactValue>, numbers: seq<real>) {
    |values| == |numbers| && forall i :: 0 <= i < |values| ==> Reads(host, values[i], numbers[i])
  }

  function Total(numbers: seq<real>): real {
    if numbers == [] then 0.0 else Total(numbers[..|numbers| - 1]) + numbers[|numbers| - 1]
  }

  lemma {:induction false} TotalFromFront(numbers: seq<real>)
    ensures SumOf(numbers) == Total(numbers)
  {
    if |numbers| == 1 {
      assert numbers[1..] == [] && numbers[..0] == [];
    } else if numbers != [] {
      var front := numbers[..|numbers| - 1];
      TotalFromFront(front);
      TotalFromFront(numbers[1..]);
      TotalFromFront(numbers[1..][..|numbers| - 2]);
      assert numbers[1..][..|numbers| - 2] == front[1..] && front[0] == numbers[0];
    }
  }

  /** The value stands for the number: a whole number as such, another as text. */
  ghost predicate StandsForNumber(host: Host, v: FactValue, n: real) {
    if n == n.Floor as real then v.Whole? && v.number as real == n else v == Text(host.numberText(n))
  }

  lemma NumberStands(host: Host, n: real)
    ensures StandsForNumber(host, NumberFact(host, n), n)
  {
  }

  ghost predicate AllNumeric(values: seq<FactValue>) {
    forall v :: v in values ==> NumberOrText(v)
  }

  lemma NumbersRead(host: Host, values: seq<FactValue>, numbers: seq<real>)
    requires ReadAs(host, values, numbers)
    ensures Traverse(values, NumberOf(host)) == Ok(numbers) && AllNumeric(values)
  {
    TraversePointwise(values, NumberOf(host));
    forall i | 0 <= i < |values| ensures NumberOf(host)(values[i]) == Ok(numbers[i]) {
      ReadsExact(host, values[i], numbers[i]);
    }
    forall v | v in values ensures NumberOrText(v) {
      var i :| 0 <= i < |values| && values[i] == v;
    }
    assert Traverse(values, NumberOf(host)).value == numbers;
  }

  ghost predicate Lowest(numbers: seq<real>, n: real) {
    n in numbers && forall k :: k in numbers ==> n <= k
  }

  ghost predicate Highest(numbers: seq<real>, n: real) {
    n in numbers && forall k :: k in numbers ==> k <= n
  }

  /** Sum, minimum and maximum of numbers are what they are called. */
  lemma NumbersCombined(host: Host, how: Aggregation, values: seq<FactValue>, numbers: seq<real>)
    requires values != [] && ReadAs(host, values, numbers) && (how == Sum || how == Min || how == Max)
    ensures var r := CombineValues(host, how, values);
            && r.Ok? && r.value.Some?
            && (how == Sum ==> StandsForNumber(host, r.value.value, Total(numbers)))
            && (how == Min ==> exists n :: Lowest(numbers, n) && StandsForNumber(host, r.value.value, n))
            && (how == Max ==> exists n :: Highest(numbers, n) && StandsForNumber(host, r.value.value, n))
  {
    hide NumberFact, StandsForNumber;
    NumbersRead(host, values, numbers);
    assert forall v :: v in values ==> IsNumeric(v);
    TraversePointwise(values, NumberOf(host));
    TotalFromFront(numbers);
    NumberStands(host, SumOf(numbers));
    assert Lowest(numbers, Least(numbers)) && Highest(numbers, Greatest(numbers));
    NumberStands(host, Least(numbers));
    NumberStands(host, Greatest(numbers));
  }

  // ---- Flags and lists ----

  /** All flags are combined by conjunction and disjunction, all lists by union. */
  lemma OthersCombined(host: Host, how: Aggregation, values: seq<FactValue>)
    requires values != []
    ensures how == All && (forall v :: v in values ==> v.Truth?) ==>
              CombineValues(host, how, values) == Ok(Some(Truth(forall v :: v in values ==> v.flag)))
    ensures how == Any && (forall v :: v in values ==> v.Truth?) ==>
              CombineValues(host, how, values) == Ok(Some(Truth(exists v :: v in values && v.flag)))
    ensures how == Union && (forall v :: v in values ==> v.Names?) ==>
              exists items :: CombineValues(host, how, values) == Ok(Some(Names(items)))
                && forall s :: s in items <==> exists v :: v in values && s in v.items
  {
    if how == Union && forall v :: v in values ==> v.Names? {
      var all := set v, s | v in values && v.Names? && s in v.items :: s;
      assert CombineValues(host, how, values) == Ok(Some(Names(SortedIds(all))));
    }
  }

  /** Values that cannot be combined the declared way are left apart. */
  lemma LeftApart(host: Host, how: Aggregation, values: seq<FactValue>)
    requires values != []
    ensures (how == Sum || how == Min || how == Max) && !AllNumeric(values) ==>
              CombineValues(host, how, values) == Ok(None)
    ensures (how == All || how == Any) && (exists v :: v in values && !v.Truth?) ==>
              CombineValues(host, how, values) == Ok(None)
    ensures how == Union && (exists v :: v in values && !v.Names?) ==> CombineValues(host, how, values) == Ok(None)
  {
    if v :| v in values && !NumberOrText(v) { assert !IsNumeric(v); }
  }

  // ---- The facts of a bundle ----

  /** Each component states the field exactly once; the facts, in order. */
  ghost predicate EachOnce(records: seq<RawCandidate>, field: string, facts: seq<ProductFact>) {
    |facts| == |records| && forall i :: 0 <= i < |records| ==> OnField(records[i].facts, field) == [facts[i]]
  }

  lemma {:induction false} Gathered(records: seq<RawCandidate>, field: string, facts: seq<ProductFact>)
    requires EachOnce(records, field, facts)
    ensures FlatMap(FactsOnField(records, field), OwnFacts) == facts
  {
    var per := FactsOnField(records, field);
    if records != [] {
      assert per[1..] == FactsOnField(records[1..], field);
      Gathered(records[1..], field, facts[1..]);
    }
  }

  /** The evidence of all the facts. */
  ghost predicate Pooled(evidence: set<string>, facts: seq<ProductFact>) {
    forall id :: id in evidence <==> exists f :: f in facts && id in f.evidenceIds
  }

  /** On a field that belongs to the root alone the bundle says what the root says. */
  lemma RootField(host: Host, c: PreferenceCriterion, records: seq<RawCandidate>)
    requires records != [] && c.aggregation == PrimaryComponent
    ensures BundleField(host, c, records) == Ok(OnField(records[|records| - 1].facts, c.field))
  {
  }

  lemma OnceEach(host: Host, c: PreferenceCriterion, records: seq<RawCandidate>, facts: seq<ProductFact>)
    requires records != [] && c.aggregation != PrimaryComponent && EachOnce(records, c.field, facts)
    ensures var combined := CombineValues(host, c.aggregation, Map(facts, FactValueOf));
            BundleField(host, c, records)
            == if combined.Raise? then Raise(combined.error)
               else
                 Ok(if combined.value.None? then facts
                    else [ProductFact(c.field, combined.value.value, EvidenceIdsOf(facts),
                            Some(records[|records| - 1].productId))])
  {
    hide CombineValues, EvidenceIdsOf, OnField;
    var per := FactsOnField(records, c.field);
    forall part | part in per ensures |part| == 1 {
      var i :| 0 <= i < |per| && per[i] == part;
    }
    Gathered(records, c.field, facts);
  }

  /**
   * Where each component states the field once and the values can be combined, the bundle states the combined
   * value, on the evidence of all, for its root; where they cannot, every statement stays.
   */
  lemma BundledField(host: Host, c: PreferenceCriterion, records: seq<RawCandidate>, facts: seq<ProductFact>,
      value: Option<FactValue>)
    returns (evidence: set<string>)
    requires records != [] && c.aggregation != PrimaryComponent && EachOnce(records, c.field, facts)
    requires CombineValues(host, c.aggregation, Map(facts, FactValueOf)) == Ok(value)
    ensures Pooled(evidence, facts)
    ensures value.None? ==> BundleField(host, c, records) == Ok(facts)
    ensures value.Some? ==>
              BundleField(host, c, records)
              == Ok([ProductFact(c.field, value.value, evidence, Some(records[|records| - 1].productId))])
  {
    hide CombineValues, BundleField;
    OnceEach(host, c, records, facts);
    evidence := EvidenceIdsOf(facts);
  }

  /** Criterion c is the last one declared on its field. */
  ghost predicate Governs(context: DecisionContext, c: PreferenceCriterion) {
    exists i :: 0 <= i < |context.preferences| && context.preferences[i] == c
                && forall j :: i < j < |context.preferences| ==> context.preferences[j].field != c.field
  }

  lemma GoverningCriterion(context: DecisionContext, c: PreferenceCriterion)
    requires Governs(context, c)
    ensures CriterionOn(context.preferences, c.field) == Some(c)
  {
    var ps := context.preferences;
    var keep := (p: PreferenceCriterion) => p.field == c.field;
    var i :| 0 <= i < |ps| && ps[i] == c && forall j :: i < j < |ps| ==> ps[j].field != c.field;
    SameFilter(ps, keep, (p: PreferenceCriterion) => p.field == c.field);
    assert ps[i] in ps && c in Filter(ps, keep);
    var k := LastKept(ps, keep);
  }

  /** What a bundle states on a preference field is what the last criterion declared on it makes of its components. */
  lemma AggregatedField(host: Host, context: DecisionContext, records: seq<RawCandidate>, c: PreferenceCriterion,
      f: ProductFact)
    requires |records| > 1 && AggregateFacts(host, context, records).Ok? && Governs(context, c) && f.field == c.field
    ensures BundleField(host, c, records).Ok?
    ensures f in AggregateFacts(host, context, records).value <==> f in BundleField(host, c, records).value
  {
    hide BundleField, CriterionOn, CombineValues, Governs;
    GoverningCriterion(context, c);
    var names := set p | p in context.preferences :: p.field;
    var fields, bundle := SortedIds(names), BundleFields(host, context, records);
    TraversePointwise(fields, bundle);
    var perField := Traverse(fields, bundle).value;
    Within(perField, f);
    FieldListed(context, c);
    assert c.field in fields;
    var k :| 0 <= k < |fields| && fields[k] == c.field;
    assert bundle(c.field) == BundleField(host, c, records) && perField[k] in perField;
    if part :| part in perField && f in part {
      var i :| 0 <= i < |perField| && perField[i] == part;
      FieldStated(host, context, records, fields[i], f);
    }
  }

  lemma FieldListed(context: DecisionContext, c: PreferenceCriterion)
    requires Governs(context, c)
    ensures c in context.preferences
  {
  }

  lemma FieldStated(host: Host, context: DecisionContext, records: seq<RawCandidate>, field: string, f: ProductFact)
    requires records != [] && BundleFields(host, context, records)(field).Ok?
    requires f in BundleFields(host, context, records)(field).value
    ensures f.field == field
  {
    hide BundleField;
    BundleFieldOn(host, CriterionOn(context.preferences, field).value, records, f);
  }
}
