/** What each operator of the rule grammar asks, in terms of the numbers, dates, texts and lists compared. */
module RuleAnswers {
  import opened Outcomes
  import opened Domain
  import opened Rules

  /** The field leads to a value, and it is not null. */
  predicate LeadsTo(c: RuleCondition, context: Value, v: Value) {
    Resolve(context, c.field) == Some(v) && v != Null
  }

  // ---- Numbers and dates ----

  /** The value is read as the number; floating-point numbers and flags are not. */
  ghost predicate NumberAs(reader: Reader, v: Value, n: real) {
    v == Number(n, false) || (v.Text? && reader.decimal(v.text) == Some(n))
  }

  ghost predicate DateAs(reader: Reader, v: Value, d: int) {
    v == Day(d) || (v.Text? && reader.date(v.text) == Some(d))
  }

  predicate ComparesNumbers(op: RuleOperator) {
    op == Gte || op == Lte || op == Gt || op == Lt
  }

  predicate ComparesDates(op: RuleOperator) {
    op == DateBefore || op == DateOnOrBefore || op == DateAfter || op == DateOnOrAfter
  }

  /** Where both sides are read as numbers, the answer is the order of these numbers. */
  lemma NumbersExact(reader: Reader, c: RuleCondition, context: Value, v: Value, a: real, b: real)
    requires LeadsTo(c, context, v) && NumberAs(reader, v, a) && NumberAs(reader, c.value, b)
    ensures var t := TruthOf(reader, c, context);
            && (c.operator == Gte ==> (t == True <==> a >= b) && (t == False <==> a < b))
            && (c.operator == Lte ==> (t == True <==> a <= b) && (t == False <==> a > b))
            && (c.operator == Gt ==> (t == True <==> a > b) && (t == False <==> a <= b))
            && (c.operator == Lt ==> (t == True <==> a < b) && (t == False <==> a >= b))
  {
  }

  /** Where both sides are read as dates, the answer is the order of these dates. */
  lemma DatesExact(reader: Reader, c: RuleCondition, context: Value, v: Value, a: int, b: int)
    requires LeadsTo(c, context, v) && DateAs(reader, v, a) && DateAs(reader, c.value, b)
    ensures var t := TruthOf(reader, c, context);
            && (c.operator == DateBefore ==> (t == True <==> a < b) && (t == False <==> a >= b))
            && (c.operator == DateOnOrBefore ==> (t == True <==> a <= b) && (t == False <==> a > b))
            && (c.operator == DateAfter ==> (t == True <==> a > b) && (t == False <==> a <= b))
            && (c.operator == DateOnOrAfter ==> (t == True <==> a >= b) && (t == False <==> a < b))
  {
  }

  /** Such a comparison stays unresolved exactly when a side cannot be read. */
  lemma UnreadExact(reader: Reader, c: RuleCondition, context: Value, v: Value)
    requires LeadsTo(c, context, v)
    ensures ComparesNumbers(c.operator) ==>
              (TruthOf(reader, c, context) == Unresolved
               <==> (forall n :: !NumberAs(reader, v, n)) || forall n :: !NumberAs(reader, c.value, n))
    ensures ComparesDates(c.operator) ==>
              (TruthOf(reader, c, context) == Unresolved
               <==> (forall d :: !DateAs(reader, v, d)) || forall d :: !DateAs(reader, c.value, d))
  {
    if AsDecimal(reader, v).Some? { assert NumberAs(reader, v, AsDecimal(reader, v).value); }
    if AsDecimal(reader, c.value).Some? { assert NumberAs(reader, c.value, AsDecimal(reader, c.value).value); }
    if AsDate(reader, v).Some? { assert DateAs(reader, v, AsDate(reader, v).value); }
    if AsDate(reader, c.value).Some? { assert DateAs(reader, c.value, AsDate(reader, c.value).value); }
  }

  /** A field that is missing or null leaves every condition but existence unresolved, and answers that. */
  lemma MissingExact(reader: Reader, c: RuleCondition, context: Value)
    requires Resolve(context, c.field) == None || Resolve(context, c.field) == Some(Null)
    ensures c.operator != Exists ==>
              EvaluateCondition(reader, c, context) == RuleEvaluation(Unresolved, {c.field})
    ensures c.operator == Exists && c.value.Flag? ==> (TruthOf(reader, c, context) == True <==> !c.value.flag)
  {
  }

  // ---- Equality and membership ----

  predicate Plain(v: Value) {
    v.Null? || v.Flag? || v.Number? || v.Text? || v.Day?
  }

  /** The same plain value; a flag is never a number. */
  predicate Same(a: Value, b: Value) {
    match a
    case Null => b.Null?
    case Flag(x) => b.Flag? && x == b.flag
    case Number(x, _) => b.Number? && x == b.number
    case Text(x) => b.Text? && x == b.text
    case Day(x) => b.Day? && x == b.day
    case _ => false
  }

  /** The same, or a flag that is taken for the number one or zero. */
  predicate TakenForSame(a: Value, b: Value) {
    || Same(a, b)
    || (a.Flag? && b.Number? && b.number == if a.flag then 1.0 else 0.0)
    || (b.Flag? && a.Number? && a.number == if b.flag then 1.0 else 0.0)
  }

  predicate PlainItems(v: Value) {
    v.Items? && forall i :: 0 <= i < |v.items| ==> Plain(v.items[i])
  }

  ghost predicate Holds(v: Value, x: Value) {
    v.Items? && exists i :: 0 <= i < |v.items| && Same(x, v.items[i])
  }

  lemma PlainEqual(a: Value, b: Value)
    requires Plain(a) && Plain(b)
    ensures StrictEqual(a, b) <==> Same(a, b)
    ensures LooseEqual(a, b) <==> TakenForSame(a, b)
  {
  }

  lemma HoldsExact(v: Value, x: Value)
    requires PlainItems(v) && Plain(x)
    ensures Listed(x, v) <==> Holds(v, x)
  {
    hide StrictEqual, Same;
    forall i | 0 <= i < |v.items| ensures StrictEqual(x, v.items[i]) <==> Same(x, v.items[i]) {
      PlainEqual(x, v.items[i]);
    }
  }

  /** On plain values equality is TRUE exactly when they are the same, and inequality when they are not. */
  lemma EqualityExact(reader: Reader, c: RuleCondition, context: Value, v: Value)
    requires LeadsTo(c, context, v) && Plain(v) && Plain(c.value)
    ensures c.operator == Eq ==> TruthOf(reader, c, context) == Truly(Same(v, c.value))
    ensures c.operator == Neq ==> TruthOf(reader, c, context) == Truly(!Same(v, c.value))
  {
    PlainEqual(v, c.value);
  }

  /** So on lists of plain values, item by item. */
  lemma ListEqualityExact(reader: Reader, c: RuleCondition, context: Value, v: Value)
    requires LeadsTo(c, context, v) && PlainItems(v) && PlainItems(c.value) && c.operator == Eq
    ensures TruthOf(reader, c, context) == True
            <==> |v.items| == |c.value.items|
                 && forall i :: 0 <= i < |v.items| ==> TakenForSame(v.items[i], c.value.items[i])
  {
    if |v.items| == |c.value.items| {
      forall i | 0 <= i < |v.items|
        ensures LooseEqual(v.items[i], c.value.items[i]) <==> TakenForSame(v.items[i], c.value.items[i])
      {
        PlainEqual(v.items[i], c.value.items[i]);
      }
    }
  }

  /** A plain value is in a list exactly when the list holds the same value. */
  lemma MembershipExact(reader: Reader, c: RuleCondition, context: Value, v: Value)
    requires LeadsTo(c, context, v) && Plain(v) && PlainItems(c.value)
    ensures c.operator == In ==> (TruthOf(reader, c, context) == True <==> Holds(c.value, v))
    ensures c.operator == NotIn ==> (TruthOf(reader, c, context) == True <==> !Holds(c.value, v))
    ensures c.operator == In || c.operator == NotIn ==> TruthOf(reader, c, context) != Unresolved
  {
    HoldsExact(c.value, v);
  }

  /** A list contains all of another exactly when it holds every item of it; anything else stays unresolved. */
  lemma ContainsAllExact(reader: Reader, c: RuleCondition, context: Value, v: Value)
    requires LeadsTo(c, context, v) && c.operator == ContainsAll && PlainItems(c.value)
    ensures !v.Items? ==> TruthOf(reader, c, context) == Unresolved
    ensures PlainItems(v) ==>
              (TruthOf(reader, c, context) == True
               <==> forall i :: 0 <= i < |c.value.items| ==> Holds(v, c.value.items[i]))
  {
    hide Listed, Holds;
    if PlainItems(v) {
      forall i | 0 <= i < |c.value.items| ensures Listed(c.value.items[i], v) <==> Holds(v, c.value.items[i]) {
        HoldsExact(v, c.value.items[i]);
      }
    }
  }

  predicate StartsAt(part: string, whole: string, i: nat) {
    i + |part| <= |whole| && whole[i..i + |part|] == part
  }

  /** The part occurs somewhere in the whole. */
  ghost predicate Occurs(part: string, whole: string) {
    exists i :: StartsAt(part, whole, i)
  }

  lemma Shifted(part: string, whole: string, i: nat)
    requires whole != []
    ensures StartsAt(part, whole, i + 1) <==> StartsAt(part, whole[1..], i)
  {
    if i + 1 + |part| <= |whole| {
      assert whole[1..][i..i + |part|] == whole[i + 1..i + 1 + |part|];
    }
  }

  lemma {:induction false} OccursExact(part: string, whole: string)
    ensures Substring(part, whole) <==> Occurs(part, whole)
  {
    assert part <= whole <==> StartsAt(part, whole, 0);
    if whole != [] {
      OccursExact(part, whole[1..]);
      forall i: nat ensures StartsAt(part, whole, i + 1) <==> StartsAt(part, whole[1..], i) { Shifted(part, whole, i); }
      if i: nat :| StartsAt(part, whole, i) && i > 0 {
        assert StartsAt(part, whole[1..], i - 1);
      }
      if i: nat :| StartsAt(part, whole[1..], i) {
        assert StartsAt(part, whole, i + 1);
      }
    }
  }

  /** A text contains what occurs in it; a list contains what one of its items is taken for. */
  lemma ContainsExact(reader: Reader, c: RuleCondition, context: Value, v: Value)
    requires LeadsTo(c, context, v) && c.operator == Contains && Plain(c.value)
    ensures v.Text? && c.value.Text? ==>
              (TruthOf(reader, c, context) == True <==> Occurs(c.value.text, v.text))
    ensures v.Text? && !c.value.Text? ==> TruthOf(reader, c, context) == Unresolved
    ensures PlainItems(v) ==>
              (TruthOf(reader, c, context) == True
               <==> exists i :: 0 <= i < |v.items| && TakenForSame(v.items[i], c.value))
    ensures v.Flag? || v.Number? || v.Day? ==> TruthOf(reader, c, context) == Unresolved
  {
    hide LooseEqual, TakenForSame, Substring, Occurs;
    if v.Text? && c.value.Text? { OccursExact(c.value.text, v.text); }
    if PlainItems(v) {
      forall i | 0 <= i < |v.items| ensures LooseEqual(v.items[i], c.value) <==> TakenForSame(v.items[i], c.value) {
        PlainEqual(v.items[i], c.value);
      }
    }
  }

  // ---- Expressions ----

  /** Some condition on the field is unresolved. */
  ghost predicate Open(reader: Reader, e: RuleExpression, context: Value, field: seq<string>) {
    exists c :: c in e.conditions && TruthOf(reader, c, context) == Unresolved && c.field == field
  }

  /**
   * The fields an expression reports as unresolved are those of its unresolved conditions, unless its answer
   * rests on none of them, being TRUE for all or FALSE for any.
   */
  lemma UnresolvedExact(reader: Reader, e: RuleExpression, context: Value)
    ensures var r := EvaluateExpression(reader, e, context);
            if (e.mode == All && r.value == True) || (e.mode == Any && r.value == False) then r.unresolvedFields == {}
            else
              forall f :: f in r.unresolvedFields <==> Open(reader, e, context, f)
  {
    hide EvaluateCondition, TruthOf;
    var results := Evaluations(reader, e, context);
    forall f
      ensures (exists r :: r in results && f in r.unresolvedFields)
              <==> Open(reader, e, context, f)
    {
      if r :| r in results && f in r.unresolvedFields {
        var i :| 0 <= i < |results| && results[i] == r;
        ConditionTruth(reader, e.conditions[i], context);
        assert e.conditions[i] in e.conditions && results[i] == EvaluateCondition(reader, e.conditions[i], context);
      }
      if c :| c in e.conditions && TruthOf(reader, c, context) == Unresolved && c.field == f {
        var i :| 0 <= i < |e.conditions| && e.conditions[i] == c;
        ConditionTruth(reader, c, context);
        assert results[i] == EvaluateCondition(reader, c, context) && results[i] in results;
      }
    }
  }
}
