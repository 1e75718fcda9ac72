/** What gates and risk rules compare, in terms of the facts and values themselves. */
module Matching {
  import opened Outcomes
  import opened Domain
  import opened GraphModels
  import opened Duplicates
  import opened Evidence
  import opened Gates
  import opened Failures
  import opened Dimensions
  import opened Recall
  import opened Closure
  import opened Bounds
  import opened Materials
  import opened Engine
  import opened Guarantees
  import opened Removals

  // ---- Operators ----

  /** The value is read as the number. */
  ghost predicate Reads(host: Host, v: FactValue, n: real) {
    (v.Whole? && n == v.number as real) || (v.Text? && host.parseNumber(v.text) == Some(n))
  }

  ghost predicate Ordered(op: Operator) {
    op == Lte || op == Lt || op == Gte || op == Gt
  }

  /** Every wanted item occurs. */
  ghost predicate Covers(wanted: seq<string>, items: seq<string>) {
    forall i :: 0 <= i < |wanted| ==> exists j :: 0 <= j < |items| && items[j] == wanted[i]
  }

  /** What it means for a value to satisfy a predicate, operator by operator. */
  ghost predicate Satisfies(host: Host, v: FactValue, p: Predicate) {
    match p.operator
    case Eq => v == p.value
    case Neq => v != p.value
    case In => v.Text? && p.value.Names? && exists i :: 0 <= i < |p.value.items| && p.value.items[i] == v.text
    case ContainsAll =>
      v.Names? && p.value.Names? && Covers(p.value.items, v.items)
    case Exists => v != Absent
    case Lte => exists a, b :: Reads(host, v, a) && Reads(host, p.value, b) && a <= b
    case Lt => exists a, b :: Reads(host, v, a) && Reads(host, p.value, b) && a < b
    case Gte => exists a, b :: Reads(host, v, a) && Reads(host, p.value, b) && a >= b
    case Gt => exists a, b :: Reads(host, v, a) && Reads(host, p.value, b) && a > b
    case OtherOperator => false
  }

  predicate NumberOrText(v: FactValue) {
    v.Whole? || v.Text?
  }

  /** Comparing them raises nothing: the operator is known, and texts put in order are numbers. */
  ghost predicate Answerable(host: Host, v: FactValue, p: Predicate) {
    && p.operator != OtherOperator
    && (Ordered(p.operator) && NumberOrText(v) && NumberOrText(p.value) ==>
          (exists a :: Reads(host, v, a)) && exists b :: Reads(host, p.value, b))
  }

  lemma ReadsExact(host: Host, v: FactValue, n: real)
    ensures Reads(host, v, n) <==> Numeric(host, v) == Ok(n)
  {
  }

  lemma OrderedExact(host: Host, v: FactValue, p: Predicate)
    requires Ordered(p.operator)
    ensures Matches(host, v, p) == Ok(true) <==> Satisfies(host, v, p)
    ensures Matches(host, v, p) == Ok(false) <==> !Satisfies(host, v, p) && Answerable(host, v, p)
  {
    forall w, n ensures Reads(host, w, n) <==> Numeric(host, w) == Ok(n) { ReadsExact(host, w, n); }
    if Numeric(host, v).Ok? { assert Reads(host, v, Numeric(host, v).value); }
    if Numeric(host, p.value).Ok? { assert Reads(host, p.value, Numeric(host, p.value).value); }
  }

  /** A value matches exactly when it satisfies the predicate; it raises exactly when the two cannot be compared. */
  lemma MatchExact(host: Host, v: FactValue, p: Predicate)
    ensures Matches(host, v, p) == Ok(true) <==> Satisfies(host, v, p)
    ensures Matches(host, v, p) == Ok(false) <==> !Satisfies(host, v, p) && Answerable(host, v, p)
  {
    hide Reads, Numeric;
    if Ordered(p.operator) {
      OrderedExact(host, v, p);
    } else if p.operator == ContainsAll {
      ContainsExact(host, v, p);
    } else if v.Text? && p.value.Names? {
      Among(v.text, p.value.items);
    }
  }

  lemma ContainsExact(host: Host, v: FactValue, p: Predicate)
    requires p.operator == ContainsAll
    ensures Matches(host, v, p) == Ok(true) <==> Satisfies(host, v, p)
    ensures Matches(host, v, p).Ok? && Answerable(host, v, p)
  {
    hide Covers;
    if v.Names? && p.value.Names? { AllAmong(p.value.items, v.items); }
  }

  lemma Among(s: string, items: seq<string>)
    ensures s in items <==> exists i :: 0 <= i < |items| && items[i] == s
  {
  }

  lemma AllAmong(wanted: seq<string>, items: seq<string>)
    ensures (forall s :: s in wanted ==> s in items) <==> Covers(wanted, items)
  {
    if Covers(wanted, items) {
      forall s | s in wanted ensures s in items {
        var i :| 0 <= i < |wanted| && wanted[i] == s;
      }
    }
    if forall s :: s in wanted ==> s in items {
      forall i | 0 <= i < |wanted| ensures exists j :: 0 <= j < |items| && items[j] == wanted[i] {
        assert wanted[i] in items;
      }
    }
  }

  // ---- What a component says ----

  /** The fact is about the field and component c; a plan with one component is all about that. */
  ghost predicate Says(m: PlanMaterial, c: string, field: string, x: ProductFact) {
    x in m.gateFacts && x.field == field && (|m.componentIds| == 1 || x.componentId == Some(c))
  }

  /** Some evidence behind what c says was assessed to be in the state. */
  ghost predicate Rests(m: PlanMaterial, c: string, field: string, index: AssessmentIndex, state: EvidenceState) {
    exists x, e ::
           Says(m, c, field, x) && e in x.evidenceIds && (e, field) in index && index[(e, field)].state == state
  }

  /** c says one thing about the field, on acceptable and undisputed evidence. */
  ghost predicate Proven(m: PlanMaterial, c: string, field: string, index: AssessmentIndex) {
    && (forall x, y :: Says(m, c, field, x) && Says(m, c, field, y) ==> x.value == y.value)
    && Rests(m, c, field, index, Acceptable) && !Rests(m, c, field, index, EvidenceState.Conflict)
  }

  /** What c says is proven, and satisfies the predicate. */
  ghost predicate Shows(host: Host, m: PlanMaterial, c: string, p: Predicate, index: AssessmentIndex) {
    Proven(m, c, p.field, index) && forall x :: Says(m, c, p.field, x) ==> Satisfies(host, x.value, p)
  }

  /** What c says is proven, and can be compared, but does not satisfy the predicate. */
  ghost predicate Denies(host: Host, m: PlanMaterial, c: string, p: Predicate, index: AssessmentIndex) {
    && Proven(m, c, p.field, index)
    && forall x :: Says(m, c, p.field, x) ==> !Satisfies(host, x.value, p) && Answerable(host, x.value, p)
  }

  /** c contradicts itself on the field, or its evidence is disputed. */
  ghost predicate Disputed(m: PlanMaterial, c: string, field: string, index: AssessmentIndex) {
    (exists x, y :: Says(m, c, field, x) && Says(m, c, field, y) && x.value != y.value)
    || Rests(m, c, field, index, EvidenceState.Conflict)
  }

  /** The facts a component's field state is taken from. */
  function Own(m: PlanMaterial, c: string): seq<ProductFact> {
    if |m.componentIds| == 1 then m.gateFacts else FactsOfComponent(m, c)
  }

  lemma OwnSays(m: PlanMaterial, c: string, field: string, x: ProductFact)
    ensures x in Own(m, c) && x.field == field <==> Says(m, c, field, x)
  {
  }

  lemma OwnRests(m: PlanMaterial, c: string, field: string, index: AssessmentIndex, state: EvidenceState)
    ensures Backed(Own(m, c), field, index, state) <==> Rests(m, c, field, index, state)
  {
    hide Own, Says;
    forall x ensures x in Own(m, c) && x.field == field <==> Says(m, c, field, x) { OwnSays(m, c, field, x); }
  }

  lemma StateProven(host: Host, m: PlanMaterial, c: string, field: string, index: AssessmentIndex)
    ensures FieldStateOf(host, Own(m, c), field, index).state == Acceptable <==> Proven(m, c, field, index)
    ensures FieldStateOf(host, Own(m, c), field, index).state == EvidenceState.Conflict
            <==> Disputed(m, c, field, index)
  {
    hide FieldStateOf, Own, Says, Backed, Rests;
    forall x ensures x in Own(m, c) && x.field == field <==> Says(m, c, field, x) { OwnSays(m, c, field, x); }
    OwnRests(m, c, field, index, Acceptable);
    OwnRests(m, c, field, index, EvidenceState.Conflict);
    FieldStateExact(host, Own(m, c), field, index);
    ConflictExact(host, Own(m, c), field, index);
    if Rests(m, c, field, index, Acceptable) { SomethingSaid(m, c, field, index, Acceptable); }
  }

  lemma SomethingSaid(m: PlanMaterial, c: string, field: string, index: AssessmentIndex, state: EvidenceState)
    requires Rests(m, c, field, index, state)
    ensures exists x :: Says(m, c, field, x)
  {
  }

  /** A field is in conflict exactly when two values are stated for it, or some of its evidence is in conflict. */
  lemma ConflictExact(host: Host, facts: seq<ProductFact>, field: string, index: AssessmentIndex)
    ensures FieldStateOf(host, facts, field, index).state == EvidenceState.Conflict
            <==> (exists x, y :: x in facts && y in facts && x.field == field && y.field == field && x.value != y.value)
                 || Backed(facts, field, index, EvidenceState.Conflict)
  {
    hide Backed, ValuesOf, StatesOf, AssessmentsOn, EvidenceIdsOf;
    StatesAre(facts, field, index, EvidenceState.Conflict);
    StatedField(facts, field);
    if OnField(facts, field) == [] {
      NoBacking(facts, field, index);
    } else {
      ValuesAre(host, facts, field);
    }
  }

  // ---- Gates ----

  lemma StateAt(host: Host, m: PlanMaterial, field: string, index: AssessmentIndex)
    ensures |ComponentFieldStates(host, m, field, index)| == |m.componentIds|
    ensures forall i :: 0 <= i < |m.componentIds| ==>
              ComponentFieldStates(host, m, field, index)[i]
                == FieldStateOf(host, Own(m, m.componentIds[i]), field, index)
  {
    hide FieldStateOf;
  }

  lemma StateShows(host: Host, m: PlanMaterial, c: string, p: Predicate, index: AssessmentIndex)
    ensures var s := FieldStateOf(host, Own(m, c), p.field, index);
            && (Supports(host, s, p) <==> Shows(host, m, c, p, index))
            && (Contradicts(host, s, p) <==> Denies(host, m, c, p, index))
  {
    hide FieldStateOf, Own, Matches, Satisfies, Answerable, Proven, Says;
    StateProven(host, m, c, p.field, index);
    FieldStateShape(host, Own(m, c), p.field, index);
    if Proven(m, c, p.field, index) {
      var v := FieldStateOf(host, Own(m, c), p.field, index).values[0];
      MatchExact(host, v, p);
      assert v in FieldStateOf(host, Own(m, c), p.field, index).values;
      OneSaid(host, m, c, p.field, index, v);
    }
  }

  lemma OneSaid(host: Host, m: PlanMaterial, c: string, field: string, index: AssessmentIndex, v: FactValue)
    requires Proven(m, c, field, index) && v in FieldStateOf(host, Own(m, c), field, index).values
    ensures exists x :: Says(m, c, field, x)
    ensures forall x :: Says(m, c, field, x) ==> x.value == v
  {
    hide Own, Says, Rests, OnField, ValuesOf, StatesOf;
    ValueStated(host, Own(m, c), field, v);
    var f :| f in Own(m, c) && f.field == field && f.value == v;
    OwnSays(m, c, field, f);
  }

  /** Every component shows every predicate of the rule. */
  ghost predicate AllShown(host: Host, rule: GateRule, m: PlanMaterial, index: AssessmentIndex) {
    forall c, p :: c in m.componentIds && p in rule.predicates ==> Shows(host, m, c, p, index)
  }

  lemma AllShownExact(host: Host, rule: GateRule, m: PlanMaterial, index: AssessmentIndex)
    ensures AllSupported(host, rule, m, index) <==> AllShown(host, rule, m, index)
  {
    hide FieldStateOf, Own, Shows, Supports, ComponentFieldStates;
    if AllSupported(host, rule, m, index) {
      forall c, p | c in m.componentIds && p in rule.predicates ensures Shows(host, m, c, p, index) {
        PredicateShown(host, m, p, index);
      }
    }
    if AllShown(host, rule, m, index) {
      forall p, s | p in rule.predicates && s in ComponentFieldStates(host, m, p.field, index)
        ensures Supports(host, s, p)
      {
        PredicateShown(host, m, p, index);
      }
    }
  }

  lemma PredicateShown(host: Host, m: PlanMaterial, p: Predicate, index: AssessmentIndex)
    ensures (forall s :: s in ComponentFieldStates(host, m, p.field, index) ==> Supports(host, s, p))
            <==> forall c :: c in m.componentIds ==> Shows(host, m, c, p, index)
    ensures (exists s :: s in ComponentFieldStates(host, m, p.field, index) && Contradicts(host, s, p))
            <==> exists c :: c in m.componentIds && Denies(host, m, c, p, index)
    ensures (forall s :: s in ComponentFieldStates(host, m, p.field, index) ==> s.state == Acceptable)
            <==> forall c :: c in m.componentIds ==> Proven(m, c, p.field, index)
    ensures HasConflict(host, m, p.field, index) <==> exists c :: c in m.componentIds && Disputed(m, c, p.field, index)
  {
    hide FieldStateOf, Own, Shows, Supports, ComponentFieldStates, Contradicts, Denies, Proven, Disputed;
    var states, ids := ComponentFieldStates(host, m, p.field, index), m.componentIds;
    StateAt(host, m, p.field, index);
    forall i | 0 <= i < |ids|
      ensures states[i] in states && ids[i] in ids
      ensures Supports(host, states[i], p) <==> Shows(host, m, ids[i], p, index)
      ensures Contradicts(host, states[i], p) <==> Denies(host, m, ids[i], p, index)
      ensures states[i].state == Acceptable <==> Proven(m, ids[i], p.field, index)
      ensures states[i].state == EvidenceState.Conflict <==> Disputed(m, ids[i], p.field, index)
    {
      StateShows(host, m, ids[i], p, index);
      StateProven(host, m, ids[i], p.field, index);
    }
    forall s | s in states ensures exists i :: 0 <= i < |ids| && states[i] == s {}
    forall c | c in ids ensures exists i :: 0 <= i < |ids| && ids[i] == c {}
  }

  /** A required match of the buyer is TRUE exactly when every component shows every predicate. */
  lemma RequiredExact(host: Host, rule: GateRule, m: PlanMaterial, buyer: map<string, FactValue>,
      index: AssessmentIndex)
    requires rule.mode == RequireMatch && rule.blockedStatus != SeilPass
    ensures EvaluateGate(host, rule, m, buyer, index).Ok?
            && EvaluateGate(host, rule, m, buyer, index).value.truth == True
            <==> AllShown(host, rule, m, index)
  {
    hide EvaluateGate, AllSupported, AllShown;
    RequireMatchExact(host, rule, m, buyer, index);
    AllShownExact(host, rule, m, index);
  }

  /**
   * It is FALSE exactly when nothing it reads is disputed, and on some predicate all components
   * are proven and one denies it.
   */
  lemma RequiredFails(host: Host, rule: GateRule, m: PlanMaterial, buyer: map<string, FactValue>,
      index: AssessmentIndex)
    requires rule.mode == RequireMatch && rule.blockedStatus != SeilPass
    requires EvaluateGate(host, rule, m, buyer, index).Ok?
    ensures EvaluateGate(host, rule, m, buyer, index).value.truth == False
            <==> && (forall c, p :: c in m.componentIds && p in rule.predicates ==> !Disputed(m, c, p.field, index))
                 && exists c, p :: c in m.componentIds && p in rule.predicates && Denies(host, m, c, p, index)
                      && forall d :: d in m.componentIds ==> Proven(m, d, p.field, index)
  {
    hide EvaluateGate, ComponentFieldStates, Contradicts, Denies, Proven, Disputed, HasConflict;
    FailsExact(host, rule, m, buyer, index);
    forall p: Predicate
      ensures BuyerRefutes(host, p, ComponentFieldStates(host, m, p.field, index))
              <==> && (forall c :: c in m.componentIds ==> Proven(m, c, p.field, index))
                   && exists c :: c in m.componentIds && Denies(host, m, c, p, index)
      ensures HasConflict(host, m, p.field, index)
              <==> exists c :: c in m.componentIds && Disputed(m, c, p.field, index)
    {
      PredicateShown(host, m, p, index);
    }
  }

  /** A block of the buyer is FALSE exactly when every component shows every predicate. */
  lemma BlockedExact(host: Host, rule: GateRule, m: PlanMaterial, buyer: map<string, FactValue>, index: AssessmentIndex)
    requires rule.mode == BlockOnMatch && rule.blockedStatus != SeilPass
    ensures EvaluateGate(host, rule, m, buyer, index).Ok?
            && EvaluateGate(host, rule, m, buyer, index).value.truth == False
            <==> AllShown(host, rule, m, index)
  {
    hide EvaluateGate, AllSupported, AllShown;
    BlockOnMatchExact(host, rule, m, buyer, index);
    AllShownExact(host, rule, m, index);
  }

  // ---- Rules of a seller ----

  /** The last statement among these on the field says v. */
  ghost predicate LastSays(facts: seq<BuyerFact>, field: string, v: FactValue) {
    exists i :: 0 <= i < |facts| && facts[i].field == field && facts[i].value == v
                && forall j :: i < j < |facts| ==> facts[j].field != field
  }

  /** The buyer's last word on the field, of those not removed, is v. */
  ghost predicate BuyerSays(c: DecisionContext, field: string, v: FactValue) {
    LastSays(Left(c.buyerFacts, c.removedFactIds), field, v)
  }

  lemma {:induction false} LastValue(facts: seq<BuyerFact>, field: string, v: FactValue)
    ensures field in ValueMap(facts) && ValueMap(facts)[field] == v <==> LastSays(facts, field, v)
  {
    if facts != [] {
      var before, last := facts[..|facts| - 1], facts[|facts| - 1];
      LastValue(before, field, v);
      LastSaysOn(before, last, field, v);
      assert facts == before + [last];
    }
  }

  lemma LastSaysOn(before: seq<BuyerFact>, last: BuyerFact, field: string, v: FactValue)
    ensures LastSays(before + [last], field, v)
            <==> if last.field == field then last.value == v else LastSays(before, field, v)
  {
    var facts := before + [last];
    assert facts[|before|] == last;
    if LastSays(before, field, v) && last.field != field {
      var i :| 0 <= i < |before| && before[i].field == field && before[i].value == v
               && forall j :: i < j < |before| ==> before[j].field != field;
      assert facts[i] == before[i];
      assert forall j :: i < j < |before| ==> facts[j] == before[j];
    }
    if LastSays(facts, field, v) && last.field != field {
      var i :| 0 <= i < |facts| && facts[i].field == field && facts[i].value == v
               && forall j :: i < j < |facts| ==> facts[j].field != field;
      assert facts[i] == before[i];
      assert forall j :: i < j < |before| ==> facts[j] == before[j];
    }
  }

  /** A later statement on a field replaces an earlier one. */
  lemma BuyerSaysExact(c: DecisionContext, field: string, v: FactValue)
    ensures field in ValueMap(ActiveFacts(c)) && ValueMap(ActiveFacts(c))[field] == v <==> BuyerSays(c, field, v)
  {
    hide ValueMap, LastSays;
    SameFilter(c.buyerFacts, (f: BuyerFact) => f.factId !in c.removedFactIds,
      (f: BuyerFact) => f.factId !in c.removedFactIds);
    assert ActiveFacts(c) == Left(c.buyerFacts, c.removedFactIds);
    LastValue(ActiveFacts(c), field, v);
  }

  /**
   * A seller's required match is FALSE exactly when no evidence behind the rule is in conflict and the buyer's
   * last word on some field does not satisfy its predicate; a seller's block, when the evidence is in order and
   * the buyer's last word satisfies every predicate.
   */
  lemma SellerFails(host: Host, c: DecisionContext, rule: GateRule, m: PlanMaterial, index: AssessmentIndex)
    requires rule.blockedStatus == SeilPass
    requires EvaluateGate(host, rule, m, ValueMap(ActiveFacts(c)), index).Ok?
    ensures EvaluateGate(host, rule, m, ValueMap(ActiveFacts(c)), index).value.truth == False
            <==> match rule.mode
                 case RequireMatch =>
                   !ClaimsConflict(rule, index)
                   && exists p, v :: p in rule.predicates && BuyerSays(c, p.field, v)
                        && !Satisfies(host, v, p) && Answerable(host, v, p)
                 case BlockOnMatch =>
                   ClaimsHold(rule, index)
                   && forall p :: p in rule.predicates ==> exists v :: BuyerSays(c, p.field, v) && Satisfies(host, v, p)
  {
    hide EvaluateGate, ActiveFacts, BuyerSays, Satisfies, Answerable, Matches, ClaimsConflict, ClaimsHold, ValueMap;
    var buyer := ValueMap(ActiveFacts(c));
    FailsExact(host, rule, m, buyer, index);
    forall p: Predicate
      ensures Refutes(host, rule, m, buyer, index, p)
              <==> exists v :: BuyerSays(c, p.field, v) && !Satisfies(host, v, p) && Answerable(host, v, p)
      ensures Meets(host, rule, m, buyer, index, p)
              <==> exists v :: BuyerSays(c, p.field, v) && Satisfies(host, v, p)
    {
      BuyerAnswers(host, c, p);
    }
  }

  lemma BuyerAnswers(host: Host, c: DecisionContext, p: Predicate)
    ensures var buyer := ValueMap(ActiveFacts(c));
            && (p.field in buyer && Matches(host, buyer[p.field], p) == Ok(false)
                <==> exists v :: BuyerSays(c, p.field, v) && !Satisfies(host, v, p) && Answerable(host, v, p))
            && (p.field in buyer && Matches(host, buyer[p.field], p) == Ok(true)
                <==> exists v :: BuyerSays(c, p.field, v) && Satisfies(host, v, p))
  {
    hide ActiveFacts, BuyerSays, Satisfies, Answerable, Matches, ValueMap;
    var buyer := ValueMap(ActiveFacts(c));
    forall v ensures p.field in buyer && buyer[p.field] == v <==> BuyerSays(c, p.field, v) {
      BuyerSaysExact(c, p.field, v);
      MatchExact(host, v, p);
    }
    if p.field in buyer { MatchExact(host, buyer[p.field], p); }
  }

  // ---- In every evaluation ----

  /**
   * An executable plan shows, on every component, every predicate of each required match of the buyer that
   * judges it.
   */
  lemma ExecutableShows(host: Host, input: DecisionInput, e: Evaluation, p: EvaluatedPlan, m: PlanMaterial,
      rule: GateRule)
    requires SoundRules(input.context)
    requires EvaluateOnce(host, input) == Ok(e) && p in e.plans && BuiltFrom(host, input.context, e, p, m)
    requires p.lifecycle == Executable
    requires Judges(input.context, m, rule) && rule.mode == RequireMatch && rule.blockedStatus != SeilPass
    ensures AllShown(host, rule, m, IndexOf(e.assessments))
  {
    hide EvaluateOnce, BuildPlan, AllMaterials, AllShown, AllSupported, Judges, ApplicableGates;
    RulesExact(input.context, m);
    EligibilityFailsClosed(host, input, e, p, m, rule);
    AllShownExact(host, rule, m, IndexOf(e.assessments));
  }

  /** So under a required match that a field be at most k, every component states a number, and it is at most k. */
  lemma WithinLimit(host: Host, input: DecisionInput, e: Evaluation, p: EvaluatedPlan, m: PlanMaterial, rule: GateRule,
      on: Predicate, c: string, k: real)
    returns (x: ProductFact, a: real)
    requires SoundRules(input.context)
    requires EvaluateOnce(host, input) == Ok(e) && p in e.plans && BuiltFrom(host, input.context, e, p, m)
    requires p.lifecycle == Executable
    requires Judges(input.context, m, rule) && rule.mode == RequireMatch && rule.blockedStatus != SeilPass
    requires on in rule.predicates && on.operator == Lte && Reads(host, on.value, k) && c in m.componentIds
    ensures Says(m, c, on.field, x) && Reads(host, x.value, a) && a <= k
    ensures forall y :: Says(m, c, on.field, y) ==> y.value == x.value
  {
    hide EvaluateOnce, BuildPlan, AllMaterials, Judges, Says;
    ExecutableShows(host, input, e, p, m, rule);
    assert Shows(host, m, c, on, IndexOf(e.assessments));
    SomethingSaid(m, c, on.field, IndexOf(e.assessments), Acceptable);
    x :| Says(m, c, on.field, x);
    var b, l :| Reads(host, x.value, b) && Reads(host, on.value, l) && b <= l;
    a := b;
  }

  /** The platform reads back the decimal text it writes for an amount. */
  ghost predicate ReadsAmounts(host: Host) {
    forall n: nat :: host.parseNumber(host.decimalText(n)) == Some(n as real / 100.0)
  }

  lemma LandedTotal(host: Host, context: DecisionContext, offers: map<string, OfferCost>, root: RawCandidate,
      records: seq<RawCandidate>, issues: set<string>, m: PlanMaterial)
    requires records != [] && MaterialFor(host, context, offers, root, records, issues) == Ok(m)
    ensures m.componentIds != []
    ensures forall x :: x in m.gateFacts && x.field == LANDED_TOTAL ==>
              m.cost.base.Some? && x.value == Text(host.decimalText(m.cost.base.value.amount))
  {
    hide AggregateFacts, CombinedCost, AllFacts, CostEvidence;
    var facts := CostFacts(host, m.cost, CostEvidence(AllFacts(records)), records);
    forall x | x in m.gateFacts && x.field == LANDED_TOTAL
      ensures m.cost.base.Some? && x.value == Text(host.decimalText(m.cost.base.value.amount))
    {
      assert x in facts;
      var j :| 0 <= j < |facts| && facts[j] == x;
    }
  }

  /** The fact states the base cost on exactly the evidence the records have for their landed totals. */
  ghost predicate StatesCost(host: Host, m: PlanMaterial, records: seq<RawCandidate>, x: ProductFact) {
    && m.cost.base.Some? && x.field == LANDED_TOTAL
    && x.value == Text(host.decimalText(m.cost.base.value.amount))
    && forall e :: e in x.evidenceIds <==>
         exists r, f :: r in records && f in r.facts && f.field == LANDED_TOTAL && e in f.evidenceIds
  }

  /** On the landed total the facts state the cost for each of these records, if it is known, and nothing else. */
  ghost predicate StateOnlyCost(host: Host, m: PlanMaterial, records: seq<RawCandidate>, facts: seq<ProductFact>,
      stating: seq<RawCandidate>)
  {
    && (forall x :: x in facts && x.field == LANDED_TOTAL ==>
          StatesCost(host, m, records, x) && exists r :: r in stating && x.componentId == Some(r.productId))
    && (m.cost.base.Some? ==>
          forall r :: r in stating ==>
            exists x :: x in facts && x.field == LANDED_TOTAL && x.componentId == Some(r.productId))
  }

  /** A pack's plan states its cost for its root where it is scored, and for every component where it is judged. */
  lemma CostStated(host: Host, context: DecisionContext, offers: map<string, OfferCost>, root: RawCandidate,
      records: seq<RawCandidate>, issues: set<string>, m: PlanMaterial)
    requires records != [] && MaterialFor(host, context, offers, root, records, issues) == Ok(m)
    ensures StateOnlyCost(host, m, records, m.facts, [root])
    ensures StateOnlyCost(host, m, records, m.gateFacts, records)
  {
    hide AggregateFacts, CombinedCost, AllFacts, CostEvidence, StateOnlyCost, CostFacts;
    CostFactsState(host, m, AggregateFacts(host, context, records).value, [root], records);
    CostFactsState(host, m, AllFacts(records), records, records);
  }

  lemma CostFactsState(host: Host, m: PlanMaterial, others: seq<ProductFact>, stating: seq<RawCandidate>,
      records: seq<RawCandidate>)
    ensures StateOnlyCost(host, m, records,
              Filter(others, NotLandedTotal) + CostFacts(host, m.cost, CostEvidence(AllFacts(records)), stating),
                stating)
  {
    hide AllFacts, StatesCost, CostEvidence;
    var own := CostFacts(host, m.cost, CostEvidence(AllFacts(records)), stating);
    var facts := Filter(others, NotLandedTotal) + own;
    forall x | x in facts && x.field == LANDED_TOTAL
      ensures StatesCost(host, m, records, x) && exists r :: r in stating && x.componentId == Some(r.productId)
    {
      assert x in own;
      var i :| 0 <= i < |own| && own[i] == x;
      CostFactStates(host, m, stating[i].productId, records);
      assert stating[i] in stating;
    }
    if m.cost.base.Some? {
      forall r | r in stating
        ensures exists x :: x in facts && x.field == LANDED_TOTAL && x.componentId == Some(r.productId)
      {
        var i :| 0 <= i < |stating| && stating[i] == r;
        assert own[i] in facts;
      }
    }
  }

  lemma CostFactStates(host: Host, m: PlanMaterial, productId: string, records: seq<RawCandidate>)
    requires m.cost.base.Some?
    ensures StatesCost(host, m, records,
              CostFact(host, m.cost.base.value, CostEvidence(AllFacts(records)), productId))
  {
    hide AllFacts;
    forall f ensures f in AllFacts(records) <==> exists r :: r in records && f in r.facts { FactOf(records, f); }
  }

  /** All a pack material says about its landed total is what it costs. */
  lemma LandedTotals(host: Host, context: DecisionContext, representatives: seq<RawCandidate>, m: PlanMaterial)
    requires PackMaterials(host, context, representatives).Ok?
             && m in PackMaterials(host, context, representatives).value
    ensures m.componentIds != []
    ensures forall x :: x in m.gateFacts && x.field == LANDED_TOTAL ==>
              m.cost.base.Some? && x.value == Text(host.decimalText(m.cost.base.value.amount))
  {
    hide OfferMap, CatalogOf, ClosureOf, MaterialFor, PackMaterials, Relabelled;
    PackMaterialsFrom(host, context, representatives);
    var packs, roots := PackMaterials(host, context, representatives).value, Relabelled(host, context, representatives);
    var i :| 0 <= i < |packs| && packs[i] == m;
    var closure := ClosureOf(CatalogOf(roots), roots[i]);
    LandedTotal(host, context, OfferMap(host, context.aliases, context.offers), roots[i], closure.0, closure.1, m);
  }

  /**
   * An executable plan for packs costs no more than any limit that a required match of the buyer sets on the
   * landed total.
   */
  lemma BudgetHolds(host: Host, input: DecisionInput, e: Evaluation, p: EvaluatedPlan, m: PlanMaterial, rule: GateRule,
      on: Predicate, k: real)
    requires SoundRules(input.context) && ReadsAmounts(host)
    requires EvaluateOnce(host, input) == Ok(e) && p in e.plans && BuiltFrom(host, input.context, e, p, m)
    requires PackMaterials(host, input.context, e.recall.representatives).Ok?
             && m in PackMaterials(host, input.context, e.recall.representatives).value
    requires p.lifecycle == Executable
    requires Judges(input.context, m, rule) && rule.mode == RequireMatch && rule.blockedStatus != SeilPass
    requires on in rule.predicates && on.field == LANDED_TOTAL && on.operator == Lte && Reads(host, on.value, k)
    ensures p.dimensions.totalCost.base.Some? && p.dimensions.totalCost.base.value.amount as real / 100.0 <= k
  {
    hide EvaluateOnce, BuildPlan, AllMaterials, Judges, PackMaterials;
    LandedTotals(host, input.context, e.recall.representatives, m);
    assert m.componentIds[0] in m.componentIds;
    var x, a := WithinLimit(host, input, e, p, m, rule, on, m.componentIds[0], k);
    CostTaken(host, input.context, e.assessments, m);
  }

  lemma CostTaken(host: Host, context: DecisionContext, assessments: seq<EvidenceAssessment>, m: PlanMaterial)
    requires BuildPlan(host, context, assessments, m).Ok?
    ensures BuildPlan(host, context, assessments, m).value.dimensions.totalCost == m.cost
  {
    hide EvaluateGates, PrimaryStatus, Scores, PreferenceOf, RiskSteps, AggregateCoverage, ValidCost, IndexOf;
  }
}
