/** The three-valued rule grammar and what more information can do to its answers. */
module Rules {
  import opened Outcomes
  import opened Domain

  datatype Value =
    | Null
    | Flag(flag: bool)
    | Number(number: real, isFloat: bool)
    | Text(text: string)
    | Day(day: int)
    | Items(items: seq<Value>)
    | Mapping(entries: map<string, Value>)

  datatype RuleOperator =
    | Eq | Neq | In | NotIn | Contains | ContainsAll | Gte | Lte | Gt | Lt | Exists
    | DateBefore | DateOnOrBefore | DateAfter | DateOnOrAfter

  /** Reading numbers and dates from text is the platform's. */
  datatype Reader = Reader(decimal: string -> Option<real>, date: string -> Option<int>)

  datatype RuleCondition = RuleCondition(field: seq<string>, operator: RuleOperator, value: Value) {
    /** What construction checks: a path, and a value that fits the operator. */
    predicate Valid() {
      && field != []
      && (operator == In || operator == NotIn || operator == ContainsAll ==> value.Items?)
      && (operator == Exists ==> value.Flag?)
    }
  }

  datatype RuleEvaluation = RuleEvaluation(value: TruthValue, unresolvedFields: set<seq<string>>)

  // ---- Fields ----

  /** The value a dotted path leads to. */
  function Resolve(context: Value, path: seq<string>): Option<Value>
    decreases |path|
  {
    if path == [] then Some(context)
    else if context.Mapping? && path[0] in context.entries then Resolve(context.entries[path[0]], path[1..])
    else None
  }

  method ResolveField(context: Value, path: seq<string>) returns (r: Option<Value>)
    ensures r == Resolve(context, path)
  {
    var current := context;
    for i := 0 to |path|
      invariant Resolve(context, path) == Resolve(current, path[i..])
    {
      assert path[i..][1..] == path[i + 1..] && path[i..][0] == path[i];
      if current.Mapping? && path[i] in current.entries {
        current := current.entries[path[i]];
      } else {
        return None;
      }
    }
    r := Some(current);
  }

  // ---- Comparisons ----

  /** Equality of plain values; a flag equals the number one or zero. */
  predicate LooseEqual(a: Value, b: Value) {
    match (a, b)
    case (Number(x, _), Number(y, _)) => x == y
    case (Flag(x), Number(y, _)) => y == if x then 1.0 else 0.0
    case (Number(x, _), Flag(y)) => x == if y then 1.0 else 0.0
    case (Items(xs), Items(ys)) => |xs| == |ys| && forall i :: 0 <= i < |xs| ==> LooseEqual(xs[i], ys[i])
    case (Mapping(m), Mapping(n)) => m.Keys == n.Keys && forall k ::
      k in m.Keys && k in n.Keys ==> LooseEqual(m[k], n[k])
    case _ => a == b
  }

  /** Flags equal only flags. */
  predicate StrictEqual(a: Value, b: Value) {
    if a.Flag? || b.Flag? then a == b else LooseEqual(a, b)
  }

  function AsDecimal(reader: Reader, v: Value): Option<real> {
    match v
    case Number(n, false) => Some(n)
    case Text(s) => reader.decimal(s)
    case _ => None
  }

  function AsDate(reader: Reader, v: Value): Option<int> {
    match v
    case Day(d) => Some(d)
    case Text(s) => reader.date(s)
    case _ => None
  }

  predicate Substring(part: string, whole: string) {
    part <= whole || (whole != [] && Substring(part, whole[1..]))
  }

  /** Membership as the platform defines it for text, lists and mappings. */
  function Within(expected: Value, actual: Value): Option<bool> {
    match actual
    case Text(s) => if expected.Text? then Some(Substring(expected.text, s)) else None
    case Items(xs) => Some(exists i :: 0 <= i < |xs| && LooseEqual(xs[i], expected))
    case Mapping(m) => if expected.Items? || expected.Mapping? then None else Some(expected.Text? && expected.text in m)
    case _ => None
  }

  function OrderedBy(op: RuleOperator, left: real, right: real): bool {
    match op
    case Gte => left >= right
    case Lte => left <= right
    case Gt => left > right
    case _ => left < right
  }

  function DatedBy(op: RuleOperator, left: int, right: int): bool {
    match op
    case DateBefore => left < right
    case DateOnOrBefore => left <= right
    case DateAfter => left > right
    case _ => left >= right
  }

  function Listed(v: Value, expected: Value): bool {
    expected.Items? && exists i :: 0 <= i < |expected.items| && StrictEqual(v, expected.items[i])
  }

  /** Whether a value that is present satisfies the condition; none when the comparison cannot be made. */
  function Compare(reader: Reader, c: RuleCondition, actual: Value): Option<bool> {
    match c.operator
    case Eq => Some(StrictEqual(actual, c.value))
    case Neq => Some(!StrictEqual(actual, c.value))
    case In => Some(Listed(actual, c.value))
    case NotIn => Some(!Listed(actual, c.value))
    case Contains => Within(c.value, actual)
    case ContainsAll =>
      if actual.Items? && c.value.Items?
        then Some(forall i :: 0 <= i < |c.value.items| ==> Listed(c.value.items[i], actual)) else None
    case Exists => None
    case Gte | Lte | Gt | Lt =>
      var left, right := AsDecimal(reader, actual), AsDecimal(reader, c.value);
      if left.Some? && right.Some? then Some(OrderedBy(c.operator, left.value, right.value)) else None
    case _ =>
      var left, right := AsDate(reader, actual), AsDate(reader, c.value);
      if left.Some? && right.Some? then Some(DatedBy(c.operator, left.value, right.value)) else None
  }

  /** Operators that ask the opposite question. */
  function Opposite(op: RuleOperator): Option<RuleOperator> {
    match op
    case Eq => Some(Neq)
    case Neq => Some(Eq)
    case In => Some(NotIn)
    case NotIn => Some(In)
    case Gte => Some(Lt)
    case Lt => Some(Gte)
    case Gt => Some(Lte)
    case Lte => Some(Gt)
    case DateBefore => Some(DateOnOrAfter)
    case DateOnOrAfter => Some(DateBefore)
    case DateAfter => Some(DateOnOrBefore)
    case DateOnOrBefore => Some(DateAfter)
    case _ => None
  }

  /** Opposite operators can be compared on the same values, and then give opposite answers. */
  lemma OppositesDisagree(reader: Reader, c: RuleCondition, actual: Value)
    requires Opposite(c.operator).Some?
    ensures var opposite := c.(operator := Opposite(c.operator).value);
            && (Compare(reader, c, actual).Some? <==> Compare(reader, opposite, actual).Some?)
            && (Compare(reader, c, actual).Some? ==>
                 Compare(reader, c, actual).value == !Compare(reader, opposite, actual).value)
  {
  }

  function Truly(b: bool): TruthValue {
    if b then True else False
  }

  function EvaluateCondition(reader: Reader, c: RuleCondition, context: Value): RuleEvaluation {
    var actual := Resolve(context, c.field);
    if c.operator == Exists then RuleEvaluation(Truly(Flag(actual.Some? && actual != Some(Null)) == c.value), {})
    else if actual.None? || actual == Some(Null) then RuleEvaluation(Unresolved, {c.field})
    else
      match Compare(reader, c, actual.value)
      case None => RuleEvaluation(Unresolved, {c.field})
      case Some(matched) => RuleEvaluation(Truly(matched), {})
  }

  // ---- Expressions ----

  datatype Mode = All | Any

  datatype RuleExpression = RuleExpression(conditions: seq<RuleCondition>, mode: Mode) {
    predicate Valid() {
      conditions != [] && forall c :: c in conditions ==> c.Valid()
    }
  }

  function Evaluations(reader: Reader, e: RuleExpression, context: Value): seq<RuleEvaluation> {
    Map(e.conditions, (c: RuleCondition) => EvaluateCondition(reader, c, context))
  }

  function EvaluateExpression(reader: Reader, e: RuleExpression, context: Value): RuleEvaluation {
    var results := Evaluations(reader, e, context);
    var unresolved := set r, f | r in results && f in r.unresolvedFields :: f;
    var values := set r | r in results :: r.value;
    match e.mode
    case All =>
      if False in values then RuleEvaluation(False, unresolved)
      else if Unresolved in values then RuleEvaluation(Unresolved, unresolved)
      else RuleEvaluation(True, {})
    case Any =>
      if True in values then RuleEvaluation(True, unresolved)
      else if Unresolved in values then RuleEvaluation(Unresolved, unresolved)
      else RuleEvaluation(False, {})
  }

  function TruthOf(reader: Reader, c: RuleCondition, context: Value): TruthValue {
    EvaluateCondition(reader, c, context).value
  }

  lemma ConditionTruth(reader: Reader, c: RuleCondition, context: Value)
    ensures TruthOf(reader, c, context) == True || TruthOf(reader, c, context) == False
            || TruthOf(reader, c, context) == Unresolved
    ensures EvaluateCondition(reader, c, context).unresolvedFields == if TruthOf(reader, c, context) == Unresolved
      then {c.field} else {}
  {
  }

  lemma ExpressionValues(reader: Reader, e: RuleExpression, context: Value, t: TruthValue)
    ensures (exists r :: r in Evaluations(reader, e, context) && r.value == t)
            <==> exists c :: c in e.conditions && TruthOf(reader, c, context) == t
  {
    var results := Evaluations(reader, e, context);
    if r :| r in results && r.value == t {
      var i :| 0 <= i < |results| && results[i] == r;
      assert e.conditions[i] in e.conditions;
    }
    if c :| c in e.conditions && TruthOf(reader, c, context) == t {
      var i :| 0 <= i < |e.conditions| && e.conditions[i] == c;
      assert results[i] in results;
    }
  }

  /** All needs every condition true, any needs one; a decisive condition outweighs unresolved ones. */
  lemma ExpressionExact(reader: Reader, e: RuleExpression, context: Value)
    ensures var t := EvaluateExpression(reader, e, context).value;
            && (e.mode == All ==>
                  && (t == True <==> forall c :: c in e.conditions ==> TruthOf(reader, c, context) == True)
                  && (t == False <==> exists c :: c in e.conditions && TruthOf(reader, c, context) == False))
            && (e.mode == Any ==>
                  && (t == True <==> exists c :: c in e.conditions && TruthOf(reader, c, context) == True)
                  && (t == False <==> forall c :: c in e.conditions ==> TruthOf(reader, c, context) == False))
            && (t == True || t == False || t == Unresolved)
  {
    hide EvaluateCondition, Evaluations, TruthOf;
    forall c
      ensures TruthOf(reader, c, context) == True || TruthOf(reader, c, context) == False
              || TruthOf(reader, c, context) == Unresolved
    {
      ConditionTruth(reader, c, context);
    }
    ExpressionValues(reader, e, context, True);
    ExpressionValues(reader, e, context, False);
    ExpressionValues(reader, e, context, Unresolved);
    var values := set r | r in Evaluations(reader, e, context) :: r.value;
    forall t ensures t in values <==> exists c :: c in e.conditions && TruthOf(reader, c, context) == t {
      ExpressionValues(reader, e, context, t);
    }
  }

  // ---- More information ----

  /** b says everything a says: it may add entries and fill in nulls, at any depth. */
  ghost predicate Fills(a: Value, b: Value) {
    || a == b
    || a == Null
    || (a.Mapping? && b.Mapping? && forall k :: k in a.entries ==> k in b.entries && Fills(a.entries[k], b.entries[k]))
  }

  /** What a path leads to only gains information. */
  lemma {:induction false} ResolveGains(a: Value, b: Value, path: seq<string>)
    requires Fills(a, b) && Resolve(a, path).Some?
    ensures Resolve(a, path) == Some(Null)
            || (Resolve(b, path).Some? && Fills(Resolve(a, path).value, Resolve(b, path).value))
    decreases |path|
  {
    if path != [] && a != b {
      ResolveGains(a.entries[path[0]], b.entries[path[0]], path[1..]);
    }
  }

  /** The condition does not ask for existence, and its field does not hold a mapping. */
  predicate Plain(c: RuleCondition, context: Value) {
    c.operator != Exists && (Resolve(context, c.field).Some? ==> !Resolve(context, c.field).value.Mapping?)
  }

  /** A plain condition that is decided stays decided the same way. */
  lemma ConditionMonotone(reader: Reader, c: RuleCondition, a: Value, b: Value)
    requires Fills(a, b) && Plain(c, a)
    ensures TruthOf(reader, c, a) != Unresolved ==> EvaluateCondition(reader, c, b) == EvaluateCondition(reader, c, a)
  {
    if Resolve(a, c.field).Some? { ResolveGains(a, b, c.field); }
  }

  /** More information can only settle an unresolved expression: it never turns TRUE into FALSE or back. */
  lemma ExpressionMonotone(reader: Reader, e: RuleExpression, a: Value, b: Value)
    requires Fills(a, b) && forall c :: c in e.conditions ==> Plain(c, a)
    ensures var t := EvaluateExpression(reader, e, a).value;
            t != Unresolved ==> EvaluateExpression(reader, e, b).value == t
  {
    ExpressionExact(reader, e, a);
    ExpressionExact(reader, e, b);
    forall c | c in e.conditions
      ensures TruthOf(reader, c, a) != Unresolved ==> TruthOf(reader, c, b) == TruthOf(reader, c, a)
    {
      ConditionMonotone(reader, c, a, b);
    }
  }

  /** A test for existence can move one way only: presence is never lost. */
  lemma ExistenceGrows(reader: Reader, c: RuleCondition, a: Value, b: Value)
    requires Fills(a, b) && c.Valid() && c.operator == Exists
    ensures TruthOf(reader, c, a) == Truly(c.value.flag) ==> TruthOf(reader, c, b) == Truly(c.value.flag)
  {
    if Resolve(a, c.field).Some? { ResolveGains(a, b, c.field); }
  }

  /** It does move: filling in the field turns a false test for existence true. */
  lemma ExistenceNotMonotone(reader: Reader)
    ensures var c, a, b := RuleCondition(["seats"], Exists, Flag(true)), Mapping(map[]),
            Mapping(map["seats" := Number(5.0, false)]);
            Fills(a, b) && TruthOf(reader, c, a) == False && TruthOf(reader, c, b) == True
  {
    var c, a, b := RuleCondition(["seats"], Exists, Flag(true)), Mapping(map[]),
        Mapping(map["seats" := Number(5.0, false)]);
    assert Resolve(a, c.field) == None;
    assert c.field[1..] == [] && Resolve(b, c.field) == Some(Number(5.0, false));
  }

  /** Nor are mappings stable: a condition that compares a whole mapping can turn from TRUE to FALSE. */
  lemma MappingNotMonotone(reader: Reader)
    ensures var c := RuleCondition(["plan"], Eq, Mapping(map[]));
            var a := Mapping(map["plan" := Mapping(map[])]);
            var b := Mapping(map["plan" := Mapping(map["tier" := Text("pro")])]);
            Fills(a, b) && TruthOf(reader, c, a) == True && TruthOf(reader, c, b) == False
  {
    var c := RuleCondition(["plan"], Eq, Mapping(map[]));
    var inner := Mapping(map["tier" := Text("pro")]);
    var a, b := Mapping(map["plan" := Mapping(map[])]), Mapping(map["plan" := inner]);
    assert c.field[1..] == [];
    assert Resolve(a, c.field) == Some(Mapping(map[])) && Resolve(b, c.field) == Some(inner);
    assert "tier" in inner.entries.Keys && "tier" !in Mapping(map[]).entries.Keys;
    assert Fills(Mapping(map[]), inner);
  }
}
