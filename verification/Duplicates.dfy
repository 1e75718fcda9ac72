/** What merging duplicate records does to the evidence behind a field, and to coverage. */
module Duplicates {
  import opened Outcomes
  import opened Ordering
  import opened GraphModels
  import opened Recall
  import opened Evidence
  import opened Gates

  // ---- When a field is acceptable ----

  /** The facts give the field a value, and only one. */
  ghost predicate OneValue(facts: seq<ProductFact>, field: string) {
    && (exists f :: f in facts && f.field == field)
    && (forall f, g :: f in facts && g in facts && f.field == field && g.field == field ==> f.value == g.value)
  }

  /** Some evidence behind the field was assessed to be in the state. */
  ghost predicate Backed(facts: seq<ProductFact>, field: string, index: AssessmentIndex, state: EvidenceState) {
    exists f, e ::
           f in facts && f.field == field && e in f.evidenceIds && (e, field) in index
             && index[(e, field)].state == state
  }

  lemma StatesAre(facts: seq<ProductFact>, field: string, index: AssessmentIndex, state: EvidenceState)
    ensures state in StatesOf(AssessmentsOn(EvidenceIdsOf(OnField(facts, field)), field, index))
            <==> Backed(facts, field, index, state)
  {
    var matching := OnField(facts, field);
    var ids := EvidenceIdsOf(matching);
    var assessments := AssessmentsOn(ids, field, index);
    if f, e :|
        f in facts && f.field == field && e in f.evidenceIds && (e, field) in index
          && index[(e, field)].state == state {
      assert f in matching && e in ids && index[(e, field)] in assessments;
    }
    if a :| a in assessments && a.state == state {
      var e :| e in ids && (e, field) in index && index[(e, field)] == a;
      var f :| f in matching && e in f.evidenceIds;
    }
  }

  lemma ValuesAre(host: Host, facts: seq<ProductFact>, field: string)
    requires exists f :: f in facts && f.field == field
    ensures |ValuesOf(host, OnField(facts, field))| == 1 <==> OneValue(facts, field)
    ensures |ValuesOf(host, OnField(facts, field))| >= 1
  {
    var matching := OnField(facts, field);
    var raw := Map(matching, FactValueOf);
    var values := ValuesOf(host, matching);
    SortPermutes(Dedup(raw), ByKey(ValueOrder(host)));
    forall f | f in facts && f.field == field ensures f.value in values {
      assert f in matching;
      var i :| 0 <= i < |matching| && matching[i] == f;
      assert raw[i] == f.value;
      DedupKeeps(raw, f.value);
    }
    if |values| > 1 {
      SomeOther(Dedup(raw), values);
      var x :| x in values && x != values[0];
      ValueStated(host, facts, field, x);
      ValueStated(host, facts, field, values[0]);
    }
  }

  lemma ValueStated(host: Host, facts: seq<ProductFact>, field: string, x: FactValue)
    requires x in ValuesOf(host, OnField(facts, field))
    ensures exists f :: f in facts && f.field == field && f.value == x
  {
    var matching := OnField(facts, field);
    var raw := Map(matching, FactValueOf);
    SortPermutes(Dedup(raw), ByKey(ValueOrder(host)));
    DedupKeeps(raw, x);
    var i :| 0 <= i < |raw| && raw[i] == x;
    assert matching[i] in matching;
  }

  /** Several values listed once each are not all alike. */
  lemma SomeOther<T>(once: seq<T>, listed: seq<T>)
    requires Distinct(once) && |once| == |listed| > 1 && forall x :: x in once ==> x in listed
    ensures exists x :: x in listed && x != listed[0]
  {
    assert once[0] in listed && once[1] in listed;
  }

  /**
   * A field is acceptable exactly when it has one value, some acceptable evidence, and none in conflict;
   * stale exactly when it has one value and its best evidence is stale;
   * unknown exactly when it has at most one value and no evidence that is acceptable, stale or in conflict.
   */
  lemma FieldStateExact(host: Host, facts: seq<ProductFact>, field: string, index: AssessmentIndex)
    ensures FieldStateOf(host, facts, field, index).state == Acceptable
            <==> OneValue(facts, field) && Backed(facts, field, index, Acceptable)
                 && !Backed(facts, field, index, EvidenceState.Conflict)
    ensures FieldStateOf(host, facts, field, index).state == EvidenceState.Unknown
            <==> && ((exists f :: f in facts && f.field == field) ==> OneValue(facts, field))
                 && !Backed(facts, field, index, Acceptable) && !Backed(facts, field, index, EvidenceState.Stale)
                 && !Backed(facts, field, index, EvidenceState.Conflict)
    ensures FieldStateOf(host, facts, field, index).state == EvidenceState.Stale
            <==> && OneValue(facts, field) && Backed(facts, field, index, EvidenceState.Stale)
                 && !Backed(facts, field, index, Acceptable) && !Backed(facts, field, index, EvidenceState.Conflict)
  {
    hide Backed, OneValue, ValuesOf, StatesOf, AssessmentsOn, EvidenceIdsOf;
    StatesAre(facts, field, index, Acceptable);
    StatesAre(facts, field, index, EvidenceState.Stale);
    StatesAre(facts, field, index, EvidenceState.Conflict);
    StatedField(facts, field);
    if OnField(facts, field) == [] {
      NoBacking(facts, field, index);
    } else {
      ValuesAre(host, facts, field);
    }
  }

  lemma StatedField(facts: seq<ProductFact>, field: string)
    ensures OnField(facts, field) != [] <==> exists f :: f in facts && f.field == field
    ensures OneValue(facts, field) ==> OnField(facts, field) != []
  {
    if OnField(facts, field) != [] { assert OnField(facts, field)[0] in OnField(facts, field); }
    if f :| f in facts && f.field == field { assert f in OnField(facts, field); }
  }

  lemma NoBacking(facts: seq<ProductFact>, field: string, index: AssessmentIndex)
    requires OnField(facts, field) == []
    ensures forall s :: !Backed(facts, field, index, s)
  {
    forall f | f in facts ensures f.field != field { assert f.field == field ==> f in OnField(facts, field); }
  }

  /** What else a field's state records: the values stated, the evidence behind them, and whether any is undated. */
  lemma FieldStateParts(host: Host, facts: seq<ProductFact>, field: string, index: AssessmentIndex)
    ensures var s := FieldStateOf(host, facts, field, index);
            && (forall v :: v in s.values <==> exists f :: f in facts && f.field == field && f.value == v)
            && (forall e :: e in s.evidenceIds <==> exists f :: f in facts && f.field == field && e in f.evidenceIds)
            && (s.timeUnavailable
                <==> exists f, e :: f in facts && f.field == field && e in f.evidenceIds && (e, field) in index
                       && index[(e, field)].timeUnavailable)
  {
    hide StatesOf, ValuesOf;
    var matching := OnField(facts, field);
    forall f ensures f in matching <==> f in facts && f.field == field {}
    if matching != [] {
      forall f | f in facts && f.field == field ensures f.value in ValuesOf(host, matching) {
        ValueListed(host, facts, field, f);
      }
      forall v | v in ValuesOf(host, matching) ensures exists f :: f in facts && f.field == field && f.value == v {
        ValueStated(host, facts, field, v);
      }
      forall e | e in EvidenceIdsOf(matching) && (e, field) in index
        ensures index[(e, field)] in AssessmentsOn(EvidenceIdsOf(matching), field, index) {}
    } else {
      StatedField(facts, field);
    }
  }

  lemma ValueListed(host: Host, facts: seq<ProductFact>, field: string, f: ProductFact)
    requires f in facts && f.field == field
    ensures f.value in ValuesOf(host, OnField(facts, field))
  {
    var matching := OnField(facts, field);
    var raw := Map(matching, FactValueOf);
    SortPermutes(Dedup(raw), ByKey(ValueOrder(host)));
    assert f in matching;
    var i :| 0 <= i < |matching| && matching[i] == f;
    assert raw[i] == f.value;
    DedupKeeps(raw, f.value);
  }

  // ---- Merging pools evidence and keeps every value ----

  lemma MergedBacking(host: Host, facts: seq<ProductFact>, product: string, field: string, index: AssessmentIndex,
      state: EvidenceState)
    ensures Backed(MergeFacts(host, facts, product), field, index, state) <==> Backed(facts, field, index, state)
  {
    var merged := MergeFacts(host, facts, product);
    if f, e :|
        f in facts && f.field == field && e in f.evidenceIds && (e, field) in index
          && index[(e, field)].state == state {
      MergeKeepsValues(host, facts, product, f);
      var g :| g in merged && g.field == f.field && g.value == f.value && f.evidenceIds <= g.evidenceIds;
      assert e in g.evidenceIds;
    }
    if g, e :|
        g in merged && g.field == field && e in g.evidenceIds && (e, field) in index
          && index[(e, field)].state == state {
      MergeAddsNothing(host, facts, product, g);
      var f :| f in facts && f.field == g.field && f.value == g.value && e in f.evidenceIds;
    }
  }

  lemma MergedValues(host: Host, facts: seq<ProductFact>, product: string, field: string)
    ensures OneValue(MergeFacts(host, facts, product), field) <==> OneValue(facts, field)
  {
    hide MergeFacts;
    var merged := MergeFacts(host, facts, product);
    forall f | f in facts ensures exists g :: g in merged && g.field == f.field && g.value == f.value {
      MergeKeepsValues(host, facts, product, f);
    }
    forall g | g in merged ensures exists f :: f in facts && f.field == g.field && f.value == g.value {
      MergeAddsNothing(host, facts, product, g);
    }
  }

  /** Some record of the group states the field, and all that do state one value. */
  ghost predicate GroupAgrees(group: seq<RawCandidate>, field: string) {
    && (exists r, f :: r in group && f in r.facts && f.field == field)
    && (forall r, s, f, g ::
         r in group && s in group && f in r.facts && g in s.facts && f.field == field && g.field == field ==>
           f.value == g.value)
  }

  /** Some record of the group has evidence behind the field in the state. */
  ghost predicate GroupBacked(group: seq<RawCandidate>, field: string, index: AssessmentIndex, state: EvidenceState) {
    exists r :: r in group && Backed(r.facts, field, index, state)
  }

  lemma {:induction false} FactOf(group: seq<RawCandidate>, f: ProductFact)
    ensures f in AllFacts(group) <==> exists r :: r in group && f in r.facts
  {
    FlatMapMembers(group, FactsOf, f);
    if r :| r in group && f in r.facts {
      var i :| 0 <= i < |group| && group[i] == r;
      assert f in FactsOf(group[i]);
    }
  }

  lemma PooledFacts(group: seq<RawCandidate>, field: string, index: AssessmentIndex, state: EvidenceState)
    ensures OneValue(AllFacts(group), field) <==> GroupAgrees(group, field)
    ensures Backed(AllFacts(group), field, index, state) <==> GroupBacked(group, field, index, state)
  {
    hide AllFacts;
    forall f ensures f in AllFacts(group) <==> exists r :: r in group && f in r.facts { FactOf(group, f); }
  }

  /**
   * A merged record is acceptable on a field exactly when its duplicates state one value for it, some of
   * their evidence is acceptable, and none is in conflict.
   */
  lemma MergedFieldExact(host: Host, group: seq<RawCandidate>, product: string, field: string, index: AssessmentIndex)
    ensures FieldStateOf(host, MergeFacts(host, AllFacts(group), product), field, index).state == Acceptable
            <==> && GroupAgrees(group, field)
                 && GroupBacked(group, field, index, Acceptable)
                 && !GroupBacked(group, field, index, EvidenceState.Conflict)
  {
    hide MergeFacts, AllFacts, FieldStateOf, OneValue, Backed, GroupAgrees, GroupBacked;
    var facts := AllFacts(group);
    FieldStateExact(host, MergeFacts(host, facts, product), field, index);
    MergedValues(host, facts, product, field);
    MergedBacking(host, facts, product, field, index, Acceptable);
    MergedBacking(host, facts, product, field, index, EvidenceState.Conflict);
    PooledFacts(group, field, index, Acceptable);
    PooledFacts(group, field, index, EvidenceState.Conflict);
  }

  // ---- When merging improves on a record ----

  /** What the record's own facts make of the field. */
  function OwnState(host: Host, r: RawCandidate, field: string, index: AssessmentIndex): EvidenceState {
    FieldStateOf(host, r.facts, field, index).state
  }

  lemma OwnAcceptable(host: Host, group: seq<RawCandidate>, a: RawCandidate, field: string, index: AssessmentIndex)
    requires a in group && GroupAgrees(group, field) && !GroupBacked(group, field, index, EvidenceState.Conflict)
    ensures OwnState(host, a, field, index) == Acceptable <==> Backed(a.facts, field, index, Acceptable)
  {
    hide FieldStateOf;
    FieldStateExact(host, a.facts, field, index);
  }

  /**
   * Merging lifts a field above what a record makes of it alone exactly when the merged field is
   * acceptable and the record itself has no acceptable evidence behind it.
   */
  lemma ImprovementExact(host: Host, group: seq<RawCandidate>, product: string, field: string, index: AssessmentIndex,
      a: RawCandidate)
    requires a in group
    ensures FieldStateOf(host, MergeFacts(host, AllFacts(group), product), field, index).state == Acceptable
            && OwnState(host, a, field, index) != Acceptable
            <==> && GroupAgrees(group, field)
                 && GroupBacked(group, field, index, Acceptable)
                 && !GroupBacked(group, field, index, EvidenceState.Conflict)
                 && !Backed(a.facts, field, index, Acceptable)
  {
    hide FieldStateOf, MergeFacts, AllFacts, OwnState, GroupAgrees, GroupBacked, Backed;
    MergedFieldExact(host, group, product, field, index);
    if GroupAgrees(group, field) && !GroupBacked(group, field, index, EvidenceState.Conflict) {
      OwnAcceptable(host, group, a, field, index);
    }
  }

  /** On a single field the merged record never does better than the best of its duplicates. */
  lemma SomeDuplicateAsGood(host: Host, group: seq<RawCandidate>, product: string, field: string,
      index: AssessmentIndex)
    requires FieldStateOf(host, MergeFacts(host, AllFacts(group), product), field, index).state == Acceptable
    ensures exists r :: r in group && OwnState(host, r, field, index) == Acceptable
  {
    hide FieldStateOf, MergeFacts, AllFacts, OwnState, Backed, GroupAgrees;
    MergedFieldExact(host, group, product, field, index);
    var r :| r in group && Backed(r.facts, field, index, Acceptable);
    OwnAcceptable(host, group, r, field, index);
  }

  // ---- In every recall ----

  /** The group holds exactly the candidates kept under the key. */
  ghost predicate KeptUnder(host: Host, input: DecisionInput, key: IdentityKey, group: seq<RawCandidate>) {
    forall x :: x in group <==> x in input.candidates && Classify(host, input.context, x) == Ok(Kept(x, key))
  }

  lemma FiledUnder(host: Host, input: DecisionInput, cs: seq<Classified>, filed: seq<Filed>, merged: seq<MergedGroup>,
      f: Filed, x: RawCandidate)
    requires Trail(host, input, cs, filed, merged) && f in GroupsOf(cs)
    ensures x in f.Records() <==> x in input.candidates && Classify(host, input.context, x) == Ok(Kept(x, f.key))
  {
    hide GroupsOf, Classify, MergeGroup, InIdOrder;
    OrderedMembers(input);
    if x in f.Records() {
      GroupHolds(cs, f, x);
      var i :| 0 <= i < |cs| && cs[i] == Kept(x, f.key);
      ClassifiedIsItself(host, input.context, InIdOrder(input.candidates)[i], x, f.key);
      assert InIdOrder(input.candidates)[i] in InIdOrder(input.candidates);
    }
    if x in input.candidates && Classify(host, input.context, x) == Ok(Kept(x, f.key)) {
      KeptIsListed(host, input, cs, filed, merged, f, x);
    }
  }

  lemma ClassifiedIsItself(host: Host, context: DecisionContext, r: RawCandidate, x: RawCandidate, key: IdentityKey)
    requires Classify(host, context, r) == Ok(Kept(x, key))
    ensures r == x
  {
  }

  /** Every representative merges exactly the candidates kept under one key. */
  lemma RepresentativeSource(host: Host, input: DecisionInput, rep: RawCandidate) returns (f: Filed)
    requires RecallAndDeduplicate(host, input).Ok? && rep in RecallAndDeduplicate(host, input).value.representatives
    ensures KeptUnder(host, input, f.key, f.Records())
    ensures MergeGroup(host, input.context.aliases, f).Ok?
            && MergeGroup(host, input.context.aliases, f).value.representative == rep
  {
    hide GroupsOf, Classify, MergeGroup, InIdOrder, RecallAndDeduplicate, ExclusionsOf;
    var cs, filed, merged := RecallTrail(host, input);
    var representatives := Map(merged, RepresentativeOf);
    SortPermutes(representatives, ByKey(RecordKey));
    var k :| 0 <= k < |merged| && representatives[k] == rep;
    f := filed[k];
    SortPermutes(GroupsOf(cs), ByKey(KeyParts));
    forall x
      ensures x in f.Records() <==> x in input.candidates && Classify(host, input.context, x) == Ok(Kept(x, f.key))
    {
      FiledUnder(host, input, cs, filed, merged, f, x);
    }
  }

  lemma MergedFacts(host: Host, aliases: map<string, string>, f: Filed)
    requires MergeGroup(host, aliases, f).Ok?
    ensures MergeGroup(host, aliases, f).value.representative.facts
            == MergeFacts(host, AllFacts(f.Records()), f.key.product)
    ensures MergeGroup(host, aliases, f).value.representative.productId == f.key.product
  {
    hide MergeFacts, CanonicalSet;
  }

  /**
   * In every recall, a representative is acceptable on a field exactly when the candidates kept under its
   * key state one value for it, some of their evidence is acceptable, and none is in conflict.
   */
  lemma RecalledFieldExact(host: Host, input: DecisionInput, rep: RawCandidate, field: string, index: AssessmentIndex)
    returns (key: IdentityKey, group: seq<RawCandidate>)
    requires RecallAndDeduplicate(host, input).Ok? && rep in RecallAndDeduplicate(host, input).value.representatives
    ensures KeptUnder(host, input, key, group) && rep.productId == key.product
    ensures OwnState(host, rep, field, index) == Acceptable
            <==> && GroupAgrees(group, field)
                 && GroupBacked(group, field, index, Acceptable)
                 && !GroupBacked(group, field, index, EvidenceState.Conflict)
  {
    hide RecallAndDeduplicate, KeptUnder, MergeGroup, MergeFacts, FieldStateOf, GroupAgrees, GroupBacked, AllFacts;
    var f := RepresentativeSource(host, input, rep);
    MergedFacts(host, input.context.aliases, f);
    key, group := f.key, f.Records();
    MergedFieldExact(host, group, key.product, field, index);
  }

  // ---- Samples ----

  function FactOn(field: string, evidenceId: string): ProductFact {
    ProductFact(field, Truth(true), {evidenceId}, None)
  }

  function Witness(evidenceId: string, at: int): EvidenceRecord {
    EvidenceRecord(evidenceId, "class", "method", "scope", true, Some(ObservedTime(at, at)), false, false)
  }

  function OneSecond(field: string): EvidencePolicy {
    EvidencePolicy(field, {"class"}, {"method"}, "scope", 1)
  }

  lemma FirstFound<T>(s: seq<T>, wanted: T -> bool, i: nat)
    requires i < |s| && wanted(s[i]) && forall j :: 0 <= j < |s| && j != i ==> !wanted(s[j])
    ensures Find(s, wanted) == Some(s[i])
  {
    var found := Find(s, wanted);
    var j :| 0 <= j < |s| && s[j] == found.value;
  }

  /** Each field of a record with two facts is as good as its own evidence. */
  lemma TwoFacts(facts: seq<ProductFact>, x: string, ex: string, y: string, ey: string, index: AssessmentIndex)
    requires facts == [FactOn(x, ex), FactOn(y, ey)] && x != y
    requires (ex, x) in index && (ey, y) in index
    ensures forall s :: Backed(facts, x, index, s) <==> index[(ex, x)].state == s
    ensures forall s :: Backed(facts, y, index, s) <==> index[(ey, y)].state == s
    ensures OneValue(facts, x) && OneValue(facts, y)
  {
    assert facts[0] == FactOn(x, ex) && facts[1] == FactOn(y, ey);
    assert ex in facts[0].evidenceIds && ey in facts[1].evidenceIds;
  }
}
