/** Three-valued gates with a conflict value, and the status they give a plan. */
module Gates {
  import opened Outcomes
  import opened Ordering
  import opened Domain
  import opened GraphModels

  /** One action on one or more components, before it is judged. */
  datatype PlanMaterial = PlanMaterial(
    sourceId: string,
    action: SolutionAction,
    componentId: string,
    componentIds: seq<string>,
    facts: seq<ProductFact>,
    gateFacts: seq<ProductFact>,
    cost: OfferCost,
    paymentComponentCount: nat,
    available: bool,
    authority: Option<PackAuthority>,
    sellerGateIds: set<string>,
    permittedResolution: Option<string>,
    outcomeSubjectId: string,
    dependencyIssues: seq<string>)

  // ---- Buyer facts ----

  function ActiveFacts(context: DecisionContext): seq<BuyerFact> {
    Filter(context.buyerFacts, (f: BuyerFact) => f.factId !in context.removedFactIds)
  }

  function ActiveSourceIds(context: DecisionContext): set<string> {
    set f | f in ActiveFacts(context) :: f.factId
  }

  /** Field to value; a later fact on the same field replaces an earlier one. */
  function ValueMap(facts: seq<BuyerFact>): map<string, FactValue> {
    if facts == [] then map[]
    else
      var last := facts[|facts| - 1];
      ValueMap(facts[..|facts| - 1])[last.field := last.value]
  }

  // ---- Predicates and field states ----

  /** The number a value stands for in an ordered comparison. */
  function Numeric(host: Host, v: FactValue): Result<real, Error> {
    match v
    case Whole(n) => Ok(n as real)
    case Text(s) =>
      (match host.parseNumber(s)
       case Some(r) => Ok(r)
       case None => Raise(UnparsableNumber))
    case _ => Raise(UnparsableNumber)
  }

  function Compare(op: Operator, left: real, right: real): bool {
    match op
    case Lte => left <= right
    case Lt => left < right
    case Gte => left >= right
    case _ => left > right
  }

  function Matches(host: Host, value: FactValue, p: Predicate): Result<bool, Error> {
    match p.operator
    case Eq => Ok(value == p.value)
    case Neq => Ok(value != p.value)
    case In => Ok(p.value.Names? && value.Text? && value.text in p.value.items)
    case ContainsAll => Ok(value.Names? && p.value.Names? && forall s :: s in p.value.items ==> s in value.items)
    case Exists => Ok(value != Absent)
    case OtherOperator => Raise(UnsupportedOperator)
    case _ =>
      if !(value.Whole? || value.Text?) || !(p.value.Whole? || p.value.Text?) then Ok(false)
      else
        var left :- Numeric(host, value);
        var right :- Numeric(host, p.value);
        Ok(Compare(p.operator, left, right))
  }

  datatype FieldState = FieldState(
    values: seq<FactValue>,
    state: EvidenceState,
    evidenceIds: set<string>,
    timeUnavailable: bool)

  function OnField(facts: seq<ProductFact>, field: string): seq<ProductFact> {
    Filter(facts, (f: ProductFact) => f.field == field)
  }

  function FactValueOf(f: ProductFact): FactValue { f.value }

  function ValueOrder(host: Host): FactValue -> seq<string> {
    (v: FactValue) => [host.valueHash(v)]
  }

  /** The different values, in hash order. */
  function ValuesOf(host: Host, facts: seq<ProductFact>): seq<FactValue> {
    SortBy(Dedup(Map(facts, FactValueOf)), ValueOrder(host))
  }

  function EvidenceIdsOf(facts: seq<ProductFact>): set<string> {
    set f, e | f in facts && e in f.evidenceIds :: e
  }

  function AssessmentsOn(ids: set<string>, field: string, index: AssessmentIndex): set<EvidenceAssessment> {
    set e | e in ids && (e, field) in index :: index[(e, field)]
  }

  function StatesOf(assessments: set<EvidenceAssessment>): set<EvidenceState> {
    set a | a in assessments :: a.state
  }

  function FieldStateOf(host: Host, facts: seq<ProductFact>, field: string, index: AssessmentIndex): FieldState {
    var matching := OnField(facts, field);
    if matching == [] then FieldState([], EvidenceState.Unknown, {}, false)
    else
      var ids := EvidenceIdsOf(matching);
      var assessments := AssessmentsOn(ids, field, index);
      var states := StatesOf(assessments);
      var values := ValuesOf(host, matching);
      FieldState(
        values,
        if EvidenceState.Conflict in states || |values| > 1 then EvidenceState.Conflict
        else if Acceptable in states then Acceptable
        else if EvidenceState.Stale in states then EvidenceState.Stale
        else EvidenceState.Unknown,
        ids,
        exists a :: a in assessments && a.timeUnavailable)
  }

  function FactsOfComponent(m: PlanMaterial, componentId: string): seq<ProductFact> {
    Filter(m.gateFacts, (f: ProductFact) => f.componentId == Some(componentId))
  }

  /** Field states of each component; a single component sees all the gate facts. */
  function ComponentFieldStates(host: Host, m: PlanMaterial, field: string, index: AssessmentIndex): seq<FieldState> {
    if |m.componentIds| == 1 then [FieldStateOf(host, m.gateFacts, field, index)]
    else
      Map(m.componentIds, (c: string) => FieldStateOf(host, FactsOfComponent(m, c), field, index))
  }

  // ---- One gate ----

  predicate GateApplies(gate: GateRule, m: PlanMaterial, active: set<string>) {
    && gate.sourceFactIds <= active
    && (gate.appliesToActions != {} ==> m.action in gate.appliesToActions)
    && (gate.blockedStatus == SeilPass ==> gate.gateId in m.sellerGateIds)
  }

  /** Truth values and reasons collected for a gate so far. */
  datatype Tally = Tally(states: set<TruthValue>, reasons: seq<GateReason>) {
    function Plus(other: Tally): Tally {
      Tally(states + other.states, reasons + other.reasons)
    }
  }

  function SellerEvidenceTally(gate: GateRule, index: AssessmentIndex): Tally {
    if gate.blockedStatus != SeilPass || gate.evidenceClaimIds == {} then Tally({}, [])
    else
      var states := set k | k in index && k.0 in gate.evidenceClaimIds :: index[k].state;
      var missing := states == {} || EvidenceState.Unknown in states;
      (if missing
        then Tally({TruthValue.Unknown}, [GateReason("INSUFFICIENT_SELLER_RULE_EVIDENCE", InsufficientEvidence)])
        else Tally({}, []))
      .Plus(if EvidenceState.Stale in states
        then Tally({TruthValue.Unknown}, [GateReason("STALE_SELLER_RULE_EVIDENCE", StaleEvidence)]) else Tally({}, []))
      .Plus(if EvidenceState.Conflict in states
        then Tally({TruthValue.Conflict}, [GateReason("CONFLICTING_SELLER_RULE_EVIDENCE", ConflictingEvidence)])
        else Tally({}, []))
  }

  function SellerPredicateTally(host: Host, p: Predicate, buyer: map<string, FactValue>): Result<Tally, Error> {
    if p.field !in buyer then Ok(Tally({TruthValue.Unknown}, [GateReason("SELLER_CONDITION_UNRESOLVED", Conditional)]))
    else
      var matched :- Matches(host, buyer[p.field], p);
      Ok(Tally({if matched then True else False}, []))
  }

  function ValueMatcher(host: Host, p: Predicate): FactValue -> Result<bool, Error> {
    (v: FactValue) => Matches(host, v, p)
  }

  function AllMatch(host: Host, p: Predicate, s: FieldState): Result<bool, Error> {
    var matched :- Traverse(s.values, ValueMatcher(host, p));
    Ok(false !in matched)
  }

  function StateMatcher(host: Host, p: Predicate): FieldState -> Result<bool, Error> {
    (s: FieldState) => AllMatch(host, p, s)
  }

  function BuyerPredicateTally(host: Host, p: Predicate, states: seq<FieldState>): Result<Tally, Error> {
    if exists s :: s in states && s.state == EvidenceState.Conflict then
      Ok(Tally({TruthValue.Conflict}, [GateReason("CONFLICTING_EVIDENCE", ConflictingEvidence)]))
    else if exists s :: s in states && s.state == EvidenceState.Stale then
      Ok(Tally({TruthValue.Unknown}, [GateReason("STALE_EVIDENCE", StaleEvidence)]))
    else if exists s :: s in states && (s.state == EvidenceState.Unknown || s.values == []) then
      Ok(Tally({TruthValue.Unknown}, [GateReason("INSUFFICIENT_EVIDENCE", InsufficientEvidence)]))
    else
      var matched :- Traverse(states, StateMatcher(host, p));
      Ok(Tally(set b | b in matched :: if b then True else False, []))
  }

  function PredicateTally(
    host: Host, gate: GateRule, m: PlanMaterial, buyer: map<string, FactValue>, index: AssessmentIndex, p: Predicate)
    : Result<Tally, Error>
  {
    if gate.blockedStatus == SeilPass then SellerPredicateTally(host, p, buyer)
    else BuyerPredicateTally(host, p, ComponentFieldStates(host, m, p.field, index))
  }

  function Tallier(host: Host, gate: GateRule, m: PlanMaterial, buyer: map<string, FactValue>, index: AssessmentIndex)
    : Predicate -> Result<Tally, Error>
  {
    (p: Predicate) => PredicateTally(host, gate, m, buyer, index, p)
  }

  function SumTallies(ts: seq<Tally>): Tally {
    if ts == [] then Tally({}, []) else ts[0].Plus(SumTallies(ts[1..]))
  }

  /** A sum holds everything each of its tallies holds. */
  lemma {:induction false} SumHolds(ts: seq<Tally>, t: Tally)
    requires t in ts
    ensures t.states <= SumTallies(ts).states && forall x :: x in t.reasons ==> x in SumTallies(ts).reasons
  {
    if t != ts[0] { SumHolds(ts[1..], t); }
  }

  function ReasonRank(r: GateReason): nat {
    r.status.Rank()
  }

  predicate ReasonLess(a: GateReason, b: GateReason) {
    ReasonRank(a) < ReasonRank(b) || (ReasonRank(a) == ReasonRank(b) && StrLess(a.code, b.code))
  }

  lemma ReasonOrder()
    ensures WeakOrder(ReasonLess)
  {
    StrOrder();
    forall a: GateReason, b: GateReason, c: GateReason | !ReasonLess(b, a) && !ReasonLess(c, b)
      ensures !ReasonLess(c, a)
    {
      assert StrLess(a.code, b.code) || a.code == b.code || StrLess(b.code, a.code);
      assert StrLess(b.code, c.code) || b.code == c.code || StrLess(c.code, b.code);
    }
  }

  /** The reasons as reported: each once, by status precedence and code. */
  function Report(reasons: seq<GateReason>): seq<GateReason> {
    Sort(Dedup(reasons), ReasonLess)
  }

  /** Fold the truth values, adding the gate's own reason when it blocks. */
  function Conclude(gate: GateRule, t: Tally): (TruthValue, seq<GateReason>) {
    var own := [GateReason(gate.reasonCode, gate.blockedStatus)];
    if TruthValue.Conflict in t.states then (TruthValue.Conflict, t.reasons)
    else
      match gate.mode
      case RequireMatch =>
        if False in t.states then (False, t.reasons + own)
        else if TruthValue.Unknown in t.states then (TruthValue.Unknown, t.reasons)
        else (True, t.reasons)
      case BlockOnMatch =>
        if False in t.states then (True, t.reasons)
        else if TruthValue.Unknown in t.states then (TruthValue.Unknown, t.reasons)
        else (False, t.reasons + own)
  }

  /** What evaluation collects for a gate before concluding. */
  function Collected(host: Host, gate: GateRule, m: PlanMaterial, buyer: map<string, FactValue>, index: AssessmentIndex)
    : Result<Tally, Error>
  {
    var tallies :- Traverse(gate.predicates, Tallier(host, gate, m, buyer, index));
    Ok(SellerEvidenceTally(gate, index).Plus(SumTallies(tallies)))
  }

  function EvaluateGate(host: Host, gate: GateRule, m: PlanMaterial, buyer: map<string, FactValue>,
      index: AssessmentIndex)
    : Result<GateResult, Error>
  {
    var collected :- Collected(host, gate, m, buyer, index);
    var conclusion := Conclude(gate, collected);
    Ok(GateResult(gate.gateId, conclusion.0, Report(conclusion.1), Map(gate.predicates, (p: Predicate) => p.field),
      gate.permittedResolution))
  }

  // ---- All gates of a plan ----

  function AvailabilityGate(m: PlanMaterial): GateResult {
    GateResult("availability_" + m.sourceId, if m.available then True else False,
               if m.available then []
               else [GateReason("UNAVAILABLE", Unavailable)], ["availability"], m.permittedResolution)
  }

  function AuthorityGates(m: PlanMaterial): seq<GateResult> {
    if m.authority.None? || m.authority == Some(SellerSealed) then []
    else [GateResult("authority_" + m.sourceId, False, [GateReason("SELLER_AUTHORITY_REQUIRED", AdvisoryOnly)],
                     ["publisher_authority"], Some("NEW_PACK_VERSION"))]
  }

  function Digits(n: nat): string {
    if n < 10 then ["0123456789"[n]] else Digits(n / 10) + ["0123456789"[n % 10]]
  }

  function DependencyGates(sourceId: string, issues: seq<string>, index: nat): seq<GateResult> {
    if issues == [] then []
    else [GateResult("dependency_" + sourceId + "_" + Digits(index), False, [GateReason(issues[0], SiraIneligible)],
                     ["component_dependency_closure"], None)]
         + DependencyGates(sourceId, issues[1..], index + 1)
  }

  function GateOrder(g: GateRule): seq<string> { [g.gateId] }

  function ApplicableGates(context: DecisionContext, m: PlanMaterial): seq<GateRule> {
    Filter(SortBy(context.gates, GateOrder), (g: GateRule) => GateApplies(g, m, ActiveSourceIds(context)))
  }

  function GateEvaluator(host: Host, m: PlanMaterial, buyer: map<string, FactValue>, index: AssessmentIndex)
    : GateRule -> Result<GateResult, Error>
  {
    (g: GateRule) => EvaluateGate(host, g, m, buyer, index)
  }

  function EvaluateGates(host: Host, context: DecisionContext, m: PlanMaterial, index: AssessmentIndex)
    : Result<seq<GateResult>, Error>
  {
    var rules :- Traverse(ApplicableGates(context, m), GateEvaluator(host, m, ValueMap(ActiveFacts(context)), index));
    Ok([AvailabilityGate(m)] + DependencyGates(m.sourceId, m.dependencyIssues, 1) + AuthorityGates(m) + rules)
  }

  function ReasonsOf(g: GateResult): seq<GateReason> {
    g.reasons
  }

  function AllReasons(gates: seq<GateResult>): seq<GateReason> {
    FlatMap(gates, ReasonsOf)
  }

  function MinReason(reasons: seq<GateReason>): (r: GateReason)
    requires reasons != []
    ensures r in reasons && forall x :: x in reasons ==> !ReasonLess(x, r)
  {
    ReasonOrder();
    if |reasons| == 1 then reasons[0]
    else
      var rest := MinReason(reasons[1..]);
      assert forall x :: x in reasons ==> x == reasons[0] || x in reasons[1..];
      if ReasonLess(rest, reasons[0]) then rest else reasons[0]
  }

  /** The status comes from the reasons of all gates, never from their truth values. */
  function PrimaryStatus(gates: seq<GateResult>): (CandidateStatus, Option<GateReason>) {
    var reasons := AllReasons(gates);
    if reasons == [] then (Eligible, None)
    else (MinReason(reasons).status, Some(MinReason(reasons)))
  }

  // ---- Reasons explain every gate that is not true ----

  /** An undecided or conflicting truth value comes with a reason. */
  predicate Explained(t: Tally) {
    TruthValue.Unknown in t.states || TruthValue.Conflict in t.states ==> t.reasons != []
  }

  /** Every reason carries a status that rules the plan out or leaves it pending. */
  predicate Disqualifying(reasons: seq<GateReason>) {
    forall r :: r in reasons ==> !r.status.IsEligible()
  }

  lemma PredicateTallyExplained(host: Host, gate: GateRule, m: PlanMaterial, buyer: map<string, FactValue>,
      index: AssessmentIndex, p: Predicate)
    requires PredicateTally(host, gate, m, buyer, index, p).Ok?
    ensures Explained(PredicateTally(host, gate, m, buyer, index, p).value)
    ensures Disqualifying(PredicateTally(host, gate, m, buyer, index, p).value.reasons)
  {
    hide FieldStateOf, Matches, ComponentFieldStates;
  }

  lemma {:induction false} SumExplained(ts: seq<Tally>)
    requires forall t :: t in ts ==> Explained(t) && Disqualifying(t.reasons)
    ensures Explained(SumTallies(ts)) && Disqualifying(SumTallies(ts).reasons)
  {
    if ts != [] {
      assert ts[0] in ts;
      SumExplained(ts[1..]);
    }
  }

  lemma ReportKeeps(reasons: seq<GateReason>)
    ensures forall r :: r in Report(reasons) <==> r in reasons
    ensures Report(reasons) == [] <==> reasons == []
  {
    SortPermutes(Dedup(reasons), ReasonLess);
    forall r ensures r in Report(reasons) <==> r in reasons { DedupKeeps(reasons, r); }
    if reasons != [] { assert reasons[0] in Report(reasons); }
    if Report(reasons) != [] { assert Report(reasons)[0] in reasons; }
  }

  lemma SellerTallyExplained(gate: GateRule, index: AssessmentIndex)
    ensures Explained(SellerEvidenceTally(gate, index))
    ensures Disqualifying(SellerEvidenceTally(gate, index).reasons)
  {
  }

  lemma TalliesExplained(host: Host, gate: GateRule, m: PlanMaterial, buyer: map<string, FactValue>,
      index: AssessmentIndex, tallies: seq<Tally>)
    requires Traverse(gate.predicates, Tallier(host, gate, m, buyer, index)) == Ok(tallies)
    ensures Explained(SumTallies(tallies)) && Disqualifying(SumTallies(tallies).reasons)
  {
    TraversePointwise(gate.predicates, Tallier(host, gate, m, buyer, index));
    forall i | 0 <= i < |tallies| ensures Explained(tallies[i]) && Disqualifying(tallies[i].reasons) {
      PredicateTallyExplained(host, gate, m, buyer, index, gate.predicates[i]);
    }
    SumExplained(tallies);
  }

  lemma PlusExplained(s: Tally, t: Tally)
    requires Explained(s) && Explained(t) && Disqualifying(s.reasons) && Disqualifying(t.reasons)
    ensures Explained(s.Plus(t)) && Disqualifying(s.Plus(t).reasons)
  {
  }

  lemma CollectedExplained(host: Host, gate: GateRule, m: PlanMaterial, buyer: map<string, FactValue>,
      index: AssessmentIndex)
    requires Collected(host, gate, m, buyer, index).Ok?
    ensures Explained(Collected(host, gate, m, buyer, index).value)
    ensures Disqualifying(Collected(host, gate, m, buyer, index).value.reasons)
  {
    var tallies := Traverse(gate.predicates, Tallier(host, gate, m, buyer, index)).value;
    SellerTallyExplained(gate, index);
    TalliesExplained(host, gate, m, buyer, index, tallies);
    PlusExplained(SellerEvidenceTally(gate, index), SumTallies(tallies));
  }

  lemma ConcludeExplained(gate: GateRule, t: Tally)
    requires Explained(t) && Disqualifying(t.reasons)
    ensures Conclude(gate, t).1 == [] ==> Conclude(gate, t).0 == True
    ensures !gate.blockedStatus.IsEligible() ==> Disqualifying(Conclude(gate, t).1)
  {
  }

  /**
   * A gate that does not come out true has a reason, and no reason of a gate leaves its plan
   * eligible unless the rule itself blocks with an eligible status.
   */
  lemma GateReasonsComplete(host: Host, gate: GateRule, m: PlanMaterial, buyer: map<string, FactValue>,
      index: AssessmentIndex)
    requires EvaluateGate(host, gate, m, buyer, index).Ok?
    ensures var r := EvaluateGate(host, gate, m, buyer, index).value;
            && (r.reasons == [] ==> r.truth == True)
            && (!gate.blockedStatus.IsEligible() ==> Disqualifying(r.reasons))
  {
    CollectedExplained(host, gate, m, buyer, index);
    var t := Collected(host, gate, m, buyer, index).value;
    ConcludeExplained(gate, t);
    ReportKeeps(Conclude(gate, t).1);
  }

  // ---- What a satisfied requirement means ----

  /** One value, current acceptable evidence, and the value matches. */
  ghost predicate Supports(host: Host, s: FieldState, p: Predicate) {
    s.state == Acceptable && |s.values| == 1 && Matches(host, s.values[0], p) == Ok(true)
  }

  lemma FieldStateShape(host: Host, facts: seq<ProductFact>, field: string, index: AssessmentIndex)
    ensures var s := FieldStateOf(host, facts, field, index);
            && (s.values == [] <==> OnField(facts, field) == [])
            && (s.state == Acceptable ==> |s.values| == 1)
            && (s.values == [] ==> s.state == EvidenceState.Unknown)
            && (|s.values| > 1 ==> s.state == EvidenceState.Conflict)
  {
    var matching := OnField(facts, field);
    var values := Map(matching, FactValueOf);
    SortPermutes(Dedup(values), ByKey(ValueOrder(host)));
    if matching != [] { DedupKeeps(values, values[0]); }
  }

  lemma StatesShape(host: Host, m: PlanMaterial, field: string, index: AssessmentIndex, s: FieldState)
    requires s in ComponentFieldStates(host, m, field, index)
    ensures s.state == Acceptable ==> |s.values| == 1
    ensures s.values == [] ==> s.state == EvidenceState.Unknown
  {
    if |m.componentIds| == 1 {
      FieldStateShape(host, m.gateFacts, field, index);
    } else {
      var states := ComponentFieldStates(host, m, field, index);
      var i :| 0 <= i < |states| && states[i] == s;
      FieldStateShape(host, FactsOfComponent(m, m.componentIds[i]), field, index);
    }
  }

  lemma AllMatchSingle(host: Host, p: Predicate, s: FieldState)
    requires |s.values| == 1
    ensures AllMatch(host, p, s) == Matches(host, s.values[0], p)
  {
    TraversePointwise(s.values, ValueMatcher(host, p));
  }

  ghost predicate TalliesTrue(host: Host, p: Predicate, states: seq<FieldState>) {
    BuyerPredicateTally(host, p, states).Ok? && BuyerPredicateTally(host, p, states).value.states <= {True}
  }

  /** A buyer predicate tallies nothing but TRUE exactly when every component supports it. */
  lemma BuyerTallyExact(host: Host, p: Predicate, states: seq<FieldState>)
    requires forall s :: s in states ==> (s.state == Acceptable ==> |s.values| == 1)
    ensures TalliesTrue(host, p, states) <==> forall s :: s in states ==> Supports(host, s, p)
    ensures TalliesTrue(host, p, states) ==> BuyerPredicateTally(host, p, states).value.reasons == []
  {
    hide Matches, AllMatch;
    if forall s :: s in states ==> s.state == Acceptable && s.values != [] {
      var matcher := StateMatcher(host, p);
      TraversePointwise(states, matcher);
      forall i | 0 <= i < |states| ensures matcher(states[i]) == Matches(host, states[i].values[0], p) {
        assert states[i] in states;
        AllMatchSingle(host, p, states[i]);
      }
      var matched := Traverse(states, matcher);
      if matched.Ok? {
        var truths := set b | b in matched.value :: if b then True else False;
        assert BuyerPredicateTally(host, p, states) == Ok(Tally(truths, []));
        if TalliesTrue(host, p, states) {
          forall i | 0 <= i < |states| ensures Supports(host, states[i], p) {
            assert matched.value[i] in matched.value;
            assert (if matched.value[i] then True else False) in truths;
            assert states[i] in states;
          }
        }
        if forall s :: s in states ==> Supports(host, s, p) {
          forall i | 0 <= i < |states| ensures matched.value[i] { assert states[i] in states; }
        }
      } else {
        var i :| 0 <= i < |states| && matcher(states[i]).Raise?;
        assert states[i] in states && !Supports(host, states[i], p);
      }
    } else {
      var s :| s in states && !(s.state == Acceptable && s.values != []);
      assert !Supports(host, s, p);
    }
  }

  /** The four truth values evaluation produces. */
  ghost predicate Decided(t: Tally) {
    TruthValue.Unresolved !in t.states
  }

  lemma {:induction false} SumOfTrue(ts: seq<Tally>)
    ensures SumTallies(ts).states <= {True} <==> forall t :: t in ts ==> t.states <= {True}
    ensures (forall t :: t in ts ==> Decided(t)) ==> Decided(SumTallies(ts))
  {
    if ts != [] {
      assert ts[0] in ts && forall t :: t in ts ==> t == ts[0] || t in ts[1..];
      assert forall t :: t in ts[1..] ==> t in ts;
      SumOfTrue(ts[1..]);
    }
  }

  lemma BuyerTallyDecided(host: Host, p: Predicate, states: seq<FieldState>)
    requires BuyerPredicateTally(host, p, states).Ok?
    ensures Decided(BuyerPredicateTally(host, p, states).value)
  {
  }

  /** Every predicate of the gate is supported by every component of the plan. */
  ghost predicate AllSupported(host: Host, gate: GateRule, m: PlanMaterial, index: AssessmentIndex) {
    forall p, s :: p in gate.predicates && s in ComponentFieldStates(host, m, p.field, index) ==> Supports(host, s, p)
  }

  lemma CollectedTrue(host: Host, gate: GateRule, m: PlanMaterial, buyer: map<string, FactValue>,
      index: AssessmentIndex)
    requires gate.blockedStatus != SeilPass
    ensures Collected(host, gate, m, buyer, index).Ok? && Collected(host, gate, m, buyer, index).value.states <= {True}
            <==> AllSupported(host, gate, m, index)
    ensures Collected(host, gate, m, buyer, index).Ok? ==> Decided(Collected(host, gate, m, buyer, index).value)
  {
    var tallier := Tallier(host, gate, m, buyer, index);
    TraversePointwise(gate.predicates, tallier);
    forall p | p in gate.predicates
      ensures (tallier(p).Ok? && tallier(p).value.states <= {True})
              <==> forall s :: s in ComponentFieldStates(host, m, p.field, index) ==> Supports(host, s, p)
      ensures tallier(p).Ok? ==> Decided(tallier(p).value)
    {
      var states := ComponentFieldStates(host, m, p.field, index);
      forall s | s in states
        ensures s.state == Acceptable ==> |s.values| == 1 { StatesShape(host, m, p.field, index, s); }
      BuyerTallyExact(host, p, states);
      if tallier(p).Ok? { BuyerTallyDecided(host, p, states); }
    }
    TrueTallies(gate.predicates, tallier);
  }

  lemma TrueTallies(ps: seq<Predicate>, tallier: Predicate -> Result<Tally, Error>)
    ensures Traverse(ps, tallier).Ok? && SumTallies(Traverse(ps, tallier).value).states <= {True}
            <==> forall p :: p in ps ==> tallier(p).Ok? && tallier(p).value.states <= {True}
    ensures Traverse(ps, tallier).Ok? && (forall p :: p in ps && tallier(p).Ok? ==> Decided(tallier(p).value))
            ==> Decided(SumTallies(Traverse(ps, tallier).value))
  {
    TraversePointwise(ps, tallier);
    if Traverse(ps, tallier).Ok? {
      var ts := Traverse(ps, tallier).value;
      SumOfTrue(ts);
      forall t | t in ts ensures exists p :: p in ps && tallier(p) == Ok(t) {
        var i :| 0 <= i < |ts| && ts[i] == t;
        assert ps[i] in ps;
      }
      forall p | p in ps ensures tallier(p).Ok? && tallier(p).value in ts {
        var i :| 0 <= i < |ps| && ps[i] == p;
        assert ts[i] in ts;
      }
    } else {
      var i :| 0 <= i < |ps| && tallier(ps[i]).Raise?;
      assert ps[i] in ps;
    }
  }

  lemma ConcludeRequire(gate: GateRule, t: Tally)
    requires gate.mode == RequireMatch && Decided(t)
    ensures Conclude(gate, t).0 == True <==> t.states <= {True}
  {
    forall v | v in t.states
      ensures v == True || v == False || v == TruthValue.Unknown || v == TruthValue.Conflict
    {
      assert v != TruthValue.Unresolved;
    }
  }

  /**
   * A required match comes out true exactly when, for every predicate and every component, the
   * field has one value, current acceptable evidence, and that value matches.
   */
  lemma RequireMatchExact(host: Host, gate: GateRule, m: PlanMaterial, buyer: map<string, FactValue>,
      index: AssessmentIndex)
    requires gate.mode == RequireMatch && gate.blockedStatus != SeilPass
    ensures EvaluateGate(host, gate, m, buyer, index).Ok?
            && EvaluateGate(host, gate, m, buyer, index).value.truth == True
            <==> AllSupported(host, gate, m, index)
  {
    CollectedTrue(host, gate, m, buyer, index);
    var collected := Collected(host, gate, m, buyer, index);
    if collected.Ok? { ConcludeRequire(gate, collected.value); }
  }

  lemma ConcludeBlock(gate: GateRule, t: Tally)
    requires gate.mode == BlockOnMatch && Decided(t)
    ensures Conclude(gate, t).0 == False <==> t.states <= {True}
  {
    forall v | v in t.states
      ensures v == True || v == False || v == TruthValue.Unknown || v == TruthValue.Conflict
    {
      assert v != TruthValue.Unresolved;
    }
  }

  /** A blocking gate blocks exactly when every predicate is supported by every component. */
  lemma BlockOnMatchExact(host: Host, gate: GateRule, m: PlanMaterial, buyer: map<string, FactValue>,
      index: AssessmentIndex)
    requires gate.mode == BlockOnMatch && gate.blockedStatus != SeilPass
    ensures EvaluateGate(host, gate, m, buyer, index).Ok?
            && EvaluateGate(host, gate, m, buyer, index).value.truth == False
            <==> AllSupported(host, gate, m, index)
  {
    CollectedTrue(host, gate, m, buyer, index);
    var collected := Collected(host, gate, m, buyer, index);
    if collected.Ok? { ConcludeBlock(gate, collected.value); }
  }

  // ---- Conflicting values cannot be hidden ----

  lemma CollectedHas(host: Host, gate: GateRule, m: PlanMaterial, buyer: map<string, FactValue>, index: AssessmentIndex,
      p: Predicate)
    requires p in gate.predicates && Collected(host, gate, m, buyer, index).Ok?
    ensures PredicateTally(host, gate, m, buyer, index, p).Ok?
    ensures var t := PredicateTally(host, gate, m, buyer, index, p).value;
            var all := Collected(host, gate, m, buyer, index).value;
            t.states <= all.states && forall r :: r in t.reasons ==> r in all.reasons
  {
    TraversePointwise(gate.predicates, Tallier(host, gate, m, buyer, index));
    var i :| 0 <= i < |gate.predicates| && gate.predicates[i] == p;
    var tallies := Traverse(gate.predicates, Tallier(host, gate, m, buyer, index)).value;
    SumHolds(tallies, tallies[i]);
  }

  lemma ConcludeConflict(gate: GateRule, t: Tally)
    requires TruthValue.Conflict in t.states
    ensures Conclude(gate, t).0 == TruthValue.Conflict
    ensures forall r :: r in t.reasons ==> r in Report(Conclude(gate, t).1)
  {
    ReportKeeps(Conclude(gate, t).1);
  }

  lemma BuyerConflict(host: Host, p: Predicate, states: seq<FieldState>, s: FieldState)
    requires s in states && s.state == EvidenceState.Conflict
    ensures BuyerPredicateTally(host, p, states)
         == Ok(Tally({TruthValue.Conflict}, [GateReason("CONFLICTING_EVIDENCE", ConflictingEvidence)]))
  {
  }

  lemma GateParts(host: Host, gate: GateRule, m: PlanMaterial, buyer: map<string, FactValue>, index: AssessmentIndex)
    requires EvaluateGate(host, gate, m, buyer, index).Ok?
    ensures Collected(host, gate, m, buyer, index).Ok?
    ensures var r, c := EvaluateGate(host, gate, m, buyer, index).value,
            Conclude(gate, Collected(host, gate, m, buyer, index).value);
            r.truth == c.0 && r.reasons == Report(c.1)
  {
  }

  /** Some component of the plan has conflicting values or disputed evidence on the field. */
  ghost predicate HasConflict(host: Host, m: PlanMaterial, field: string, index: AssessmentIndex) {
    exists s :: s in ComponentFieldStates(host, m, field, index) && s.state == EvidenceState.Conflict
  }

  lemma CollectedConflict(host: Host, gate: GateRule, m: PlanMaterial, buyer: map<string, FactValue>,
      index: AssessmentIndex, p: Predicate)
    requires gate.blockedStatus != SeilPass && p in gate.predicates
    requires HasConflict(host, m, p.field, index)
    requires Collected(host, gate, m, buyer, index).Ok?
    ensures var all := Collected(host, gate, m, buyer, index).value;
            TruthValue.Conflict in all.states && GateReason("CONFLICTING_EVIDENCE", ConflictingEvidence) in all.reasons
  {
    hide ComponentFieldStates, FieldStateOf, SellerEvidenceTally, BuyerPredicateTally, SellerPredicateTally;
    var states := ComponentFieldStates(host, m, p.field, index);
    var s :| s in states && s.state == EvidenceState.Conflict;
    BuyerConflict(host, p, states, s);
    CollectedHas(host, gate, m, buyer, index, p);
  }

  /** A conflicting field on any component makes a buyer gate that reads it CONFLICT, whatever its mode. */
  lemma ConflictSurfaces(host: Host, gate: GateRule, m: PlanMaterial, buyer: map<string, FactValue>,
      index: AssessmentIndex, p: Predicate)
    requires gate.blockedStatus != SeilPass && p in gate.predicates
    requires HasConflict(host, m, p.field, index)
    requires EvaluateGate(host, gate, m, buyer, index).Ok?
    ensures EvaluateGate(host, gate, m, buyer, index).value.truth == TruthValue.Conflict
    ensures GateReason("CONFLICTING_EVIDENCE", ConflictingEvidence)
            in EvaluateGate(host, gate, m, buyer, index).value.reasons
  {
    GateParts(host, gate, m, buyer, index);
    CollectedConflict(host, gate, m, buyer, index, p);
    ConcludeConflict(gate, Collected(host, gate, m, buyer, index).value);
  }

  // ---- The status of a plan ----

  /** A plan is eligible exactly when none of its gates has a reason. */
  lemma StatusExact(gates: seq<GateResult>)
    requires forall g :: g in gates ==> Disqualifying(g.reasons)
    ensures PrimaryStatus(gates).0.IsEligible() <==> forall g :: g in gates ==> g.reasons == []
    ensures PrimaryStatus(gates).0.IsEligible() ==> PrimaryStatus(gates).0 == Eligible
  {
    var reasons := AllReasons(gates);
    forall r ensures r in reasons <==> exists i :: 0 <= i < |gates| && r in gates[i].reasons {
      FlatMapMembers(gates, ReasonsOf, r);
    }
    if reasons != [] {
      assert reasons[0] in reasons && PrimaryStatus(gates).1.value in reasons;
    }
    forall g | g in gates ensures g.reasons != [] ==> reasons != [] {
      var i :| 0 <= i < |gates| && gates[i] == g;
      assert g.reasons != [] ==> g.reasons[0] in gates[i].reasons && g.reasons[0] in reasons;
    }
  }

  /** No reason outranks the one that gives the status. */
  lemma StatusPrecedence(gates: seq<GateResult>, g: GateResult, r: GateReason)
    requires g in gates && r in g.reasons
    ensures PrimaryStatus(gates).0.Rank() <= r.status.Rank()
  {
    var i :| 0 <= i < |gates| && gates[i] == g;
    FlatMapMembers(gates, ReasonsOf, r);
  }

  lemma {:induction false} DependencyGatesShape(sourceId: string, issues: seq<string>, index: nat)
    ensures |DependencyGates(sourceId, issues, index)| == |issues|
    ensures forall g ::
            g in DependencyGates(sourceId, issues, index) ==>
              g.truth == False && g.reasons != [] && Disqualifying(g.reasons)
  {
    if issues != [] { DependencyGatesShape(sourceId, issues[1..], index + 1); }
  }

  lemma RuleGates(host: Host, context: DecisionContext, m: PlanMaterial, index: AssessmentIndex)
    requires EvaluateGates(host, context, m, index).Ok?
    ensures forall rule :: rule in ApplicableGates(context, m) ==>
              var r := EvaluateGate(host, rule, m, ValueMap(ActiveFacts(context)), index);
              r.Ok? && r.value in EvaluateGates(host, context, m, index).value
    ensures forall g :: g in EvaluateGates(host, context, m, index).value ==>
              || g == AvailabilityGate(m)
              || g in DependencyGates(m.sourceId, m.dependencyIssues, 1)
              || g in AuthorityGates(m)
              || exists rule ::
                   rule in ApplicableGates(context, m)
                     && EvaluateGate(host, rule, m, ValueMap(ActiveFacts(context)), index) == Ok(g)
  {
    var rules := ApplicableGates(context, m);
    var evaluate := GateEvaluator(host, m, ValueMap(ActiveFacts(context)), index);
    TraversePointwise(rules, evaluate);
    var results := Traverse(rules, evaluate).value;
    forall rule | rule in rules ensures evaluate(rule).Ok? && evaluate(rule).value in results {
      var i :| 0 <= i < |rules| && rules[i] == rule;
      assert results[i] in results;
    }
    forall g | g in results ensures exists rule :: rule in rules && evaluate(rule) == Ok(g) {
      var i :| 0 <= i < |results| && results[i] == g;
      assert rules[i] in rules;
    }
  }

  /** No rule of the context blocks with an eligible status. */
  predicate SoundRules(context: DecisionContext) {
    forall g :: g in context.gates ==> !g.blockedStatus.IsEligible()
  }

  /** The gates of an eligible plan are all true, without exception. */
  lemma EligibleMeansAllTrue(host: Host, context: DecisionContext, m: PlanMaterial, index: AssessmentIndex)
    requires SoundRules(context)
    requires EvaluateGates(host, context, m, index).Ok?
    ensures var gates := EvaluateGates(host, context, m, index).value;
            && (PrimaryStatus(gates).0.IsEligible() <==> forall g :: g in gates ==> g.reasons == [])
            && (PrimaryStatus(gates).0.IsEligible() ==> forall g :: g in gates ==> g.truth == True)
  {
    hide EvaluateGate, EvaluateGates, PrimaryStatus, ActiveFacts, ValueMap, DependencyGates;
    var gates := EvaluateGates(host, context, m, index).value;
    RuleGates(host, context, m, index);
    DependencyGatesShape(m.sourceId, m.dependencyIssues, 1);
    SortPermutes(context.gates, ByKey(GateOrder));
    forall g | g in gates ensures Disqualifying(g.reasons) && (g.reasons == [] ==> g.truth == True) {
      if rule :|
          rule in ApplicableGates(context, m)
            && EvaluateGate(host, rule, m, ValueMap(ActiveFacts(context)), index) == Ok(g) {
        GateReasonsComplete(host, rule, m, ValueMap(ActiveFacts(context)), index);
      }
    }
    StatusExact(gates);
  }
}
