/**
 * Which reasons a gate reports: about disputed, stale or missing evidence, about what the
 * buyer leaves open, or its own.
 */
module GateReasons {
  import opened Outcomes
  import opened Domain
  import opened GraphModels
  import opened Duplicates
  import opened Gates
  import opened Pending
  import opened Matching

  /** c says one thing about the field, on evidence that is stale, and neither acceptable nor disputed. */
  ghost predicate Outdated(m: PlanMaterial, c: string, field: string, index: AssessmentIndex) {
    && (forall x, y :: Says(m, c, field, x) && Says(m, c, field, y) ==> x.value == y.value)
    && Rests(m, c, field, index, EvidenceState.Stale) && !Rests(m, c, field, index, Acceptable)
    && !Rests(m, c, field, index, EvidenceState.Conflict)
  }

  ghost predicate AnyDisputed(m: PlanMaterial, field: string, index: AssessmentIndex) {
    exists c :: c in m.componentIds && Disputed(m, c, field, index)
  }

  ghost predicate AnyOutdated(m: PlanMaterial, field: string, index: AssessmentIndex) {
    exists c :: c in m.componentIds && Outdated(m, c, field, index)
  }

  ghost predicate AnyUnproven(m: PlanMaterial, field: string, index: AssessmentIndex) {
    exists c :: c in m.componentIds && !Proven(m, c, field, index)
  }

  /** What a buyer rule reports about a field it reads: a dispute first, then stale evidence, then missing evidence. */
  ghost function FieldReasons(m: PlanMaterial, field: string, index: AssessmentIndex): set<GateReason> {
    if AnyDisputed(m, field, index) then {GateReason("CONFLICTING_EVIDENCE", ConflictingEvidence)}
    else if AnyOutdated(m, field, index) then {GateReason("STALE_EVIDENCE", StaleEvidence)}
    else if AnyUnproven(m, field, index) then {GateReason("INSUFFICIENT_EVIDENCE", InsufficientEvidence)}
    else {}
  }

  /** Some evidence a seller's rule names was assessed to be in the state. */
  ghost predicate Claimed(rule: GateRule, index: AssessmentIndex, state: EvidenceState) {
    exists k :: k in index && k.0 in rule.evidenceClaimIds && index[k].state == state
  }

  ghost predicate AnyClaimed(rule: GateRule, index: AssessmentIndex) {
    exists k :: k in index && k.0 in rule.evidenceClaimIds
  }

  /** What a seller's rule reports about the evidence it names, if it names any. */
  ghost predicate ClaimReason(rule: GateRule, index: AssessmentIndex, x: GateReason) {
    rule.evidenceClaimIds != {} && (
      || (x == GateReason("INSUFFICIENT_SELLER_RULE_EVIDENCE", InsufficientEvidence)
          && (!AnyClaimed(rule, index) || Claimed(rule, index, EvidenceState.Unknown)))
      || (x == GateReason("STALE_SELLER_RULE_EVIDENCE", StaleEvidence) && Claimed(rule, index, EvidenceState.Stale))
      || (x == GateReason("CONFLICTING_SELLER_RULE_EVIDENCE", ConflictingEvidence)
          && Claimed(rule, index, EvidenceState.Conflict)))
  }

  /** What a rule reports before it concludes. */
  ghost predicate Foregoing(rule: GateRule, m: PlanMaterial, buyer: map<string, FactValue>, index: AssessmentIndex,
      x: GateReason)
  {
    if rule.blockedStatus == SeilPass then
      || ClaimReason(rule, index, x)
      || (x == GateReason("SELLER_CONDITION_UNRESOLVED", Conditional)
          && exists p :: p in rule.predicates && p.field !in buyer)
    else exists p :: p in rule.predicates && x in FieldReasons(m, p.field, index)
  }

  // ---- Predicate by predicate ----

  lemma StateOutdated(host: Host, m: PlanMaterial, c: string, field: string, index: AssessmentIndex)
    ensures FieldStateOf(host, Own(m, c), field, index).state == EvidenceState.Stale <==> Outdated(m, c, field, index)
  {
    hide FieldStateOf, Own, Says, Backed, Rests;
    forall x ensures x in Own(m, c) && x.field == field <==> Says(m, c, field, x) { OwnSays(m, c, field, x); }
    OwnRests(m, c, field, index, Acceptable);
    OwnRests(m, c, field, index, EvidenceState.Conflict);
    OwnRests(m, c, field, index, EvidenceState.Stale);
    FieldStateExact(host, Own(m, c), field, index);
    if Rests(m, c, field, index, EvidenceState.Stale) { SomethingSaid(m, c, field, index, EvidenceState.Stale); }
  }

  lemma StatesSay(host: Host, m: PlanMaterial, field: string, index: AssessmentIndex)
    ensures var states := ComponentFieldStates(host, m, field, index);
            && (AnyDisputed(m, field, index) <==> exists s :: s in states && s.state == EvidenceState.Conflict)
            && (AnyOutdated(m, field, index) <==> exists s :: s in states && s.state == EvidenceState.Stale)
            && (AnyUnproven(m, field, index) <==> exists s :: s in states && s.state != Acceptable)
  {
    hide FieldStateOf, Own, ComponentFieldStates, Proven, Disputed, Outdated;
    var states, ids := ComponentFieldStates(host, m, field, index), m.componentIds;
    StateAt(host, m, field, index);
    forall i | 0 <= i < |ids|
      ensures states[i] in states && ids[i] in ids
      ensures states[i].state == Acceptable <==> Proven(m, ids[i], field, index)
      ensures states[i].state == EvidenceState.Conflict <==> Disputed(m, ids[i], field, index)
      ensures states[i].state == EvidenceState.Stale <==> Outdated(m, ids[i], field, index)
    {
      StateProven(host, m, ids[i], field, index);
      StateOutdated(host, m, ids[i], field, index);
    }
    forall s | s in states ensures exists i :: 0 <= i < |ids| && states[i] == s {}
    forall c | c in ids ensures exists i :: 0 <= i < |ids| && ids[i] == c {}
  }

  lemma BuyerReasons(host: Host, p: Predicate, states: seq<FieldState>)
    requires BuyerPredicateTally(host, p, states).Ok?
    requires forall s :: s in states ==> (s.values == [] ==> s.state == EvidenceState.Unknown)
    ensures BuyerPredicateTally(host, p, states).value.reasons
         == if exists s :: s in states && s.state == EvidenceState.Conflict
              then [GateReason("CONFLICTING_EVIDENCE", ConflictingEvidence)]
            else if exists s :: s in states && s.state == EvidenceState.Stale
              then [GateReason("STALE_EVIDENCE", StaleEvidence)]
            else if exists s :: s in states && s.state != Acceptable
              then [GateReason("INSUFFICIENT_EVIDENCE", InsufficientEvidence)]
            else []
  {
    hide AllMatch;
    if (forall s :: s in states ==> s.state != EvidenceState.Conflict && s.state != EvidenceState.Stale) {
      if s :| s in states && s.state != Acceptable { assert s.state == EvidenceState.Unknown; }
    }
  }

  lemma PredicateReasons(host: Host, rule: GateRule, m: PlanMaterial, buyer: map<string, FactValue>,
      index: AssessmentIndex, p: Predicate, x: GateReason)
    requires PredicateTally(host, rule, m, buyer, index, p).Ok?
    ensures x in PredicateTally(host, rule, m, buyer, index, p).value.reasons
            <==> if rule.blockedStatus == SeilPass
                   then p.field !in buyer && x == GateReason("SELLER_CONDITION_UNRESOLVED", Conditional)
                 else x in FieldReasons(m, p.field, index)
  {
    hide Matches, BuyerPredicateTally, ComponentFieldStates, AnyDisputed, AnyOutdated, AnyUnproven;
    if rule.blockedStatus != SeilPass {
      var states := ComponentFieldStates(host, m, p.field, index);
      forall s | s in states ensures s.values == [] ==> s.state == EvidenceState.Unknown {
        StatesShape(host, m, p.field, index, s);
      }
      BuyerReasons(host, p, states);
      StatesSay(host, m, p.field, index);
    }
  }

  lemma ClaimReasons(rule: GateRule, index: AssessmentIndex, x: GateReason)
    ensures x in SellerEvidenceTally(rule, index).reasons
            <==> rule.blockedStatus == SeilPass && ClaimReason(rule, index, x)
  {
    if rule.blockedStatus == SeilPass && rule.evidenceClaimIds != {} {
      var states := set k | k in index && k.0 in rule.evidenceClaimIds :: index[k].state;
      forall s ensures s in states <==> Claimed(rule, index, s) {}
      assert states == {} <==> !AnyClaimed(rule, index) by {
        if k :| k in index && k.0 in rule.evidenceClaimIds { assert index[k].state in states; }
        if states != {} { var s :| s in states; }
      }
    }
  }

  lemma {:induction false} SumReasons(ts: seq<Tally>, x: GateReason)
    ensures x in SumTallies(ts).reasons <==> exists t :: t in ts && x in t.reasons
  {
    if ts != [] {
      assert forall t :: t in ts <==> t == ts[0] || t in ts[1..];
      SumReasons(ts[1..], x);
    }
  }

  lemma CollectedReasons(host: Host, rule: GateRule, m: PlanMaterial, buyer: map<string, FactValue>,
      index: AssessmentIndex, x: GateReason)
    requires Collected(host, rule, m, buyer, index).Ok?
    ensures x in Collected(host, rule, m, buyer, index).value.reasons <==> Foregoing(rule, m, buyer, index, x)
  {
    hide PredicateTally, SellerEvidenceTally, ClaimReason, FieldReasons;
    var tallier := Tallier(host, rule, m, buyer, index);
    TraversePointwise(rule.predicates, tallier);
    var tallies := Traverse(rule.predicates, tallier).value;
    ClaimReasons(rule, index, x);
    SumReasons(tallies, x);
    forall p | p in rule.predicates
      ensures tallier(p).Ok? && tallier(p).value in tallies
      ensures x in tallier(p).value.reasons
              <==> if rule.blockedStatus == SeilPass
                     then p.field !in buyer && x == GateReason("SELLER_CONDITION_UNRESOLVED", Conditional)
                   else x in FieldReasons(m, p.field, index)
    {
      var i :| 0 <= i < |rule.predicates| && rule.predicates[i] == p;
      assert tallies[i] in tallies;
      PredicateReasons(host, rule, m, buyer, index, p, x);
    }
    forall t | t in tallies ensures exists p :: p in rule.predicates && tallier(p) == Ok(t) {
      var i :| 0 <= i < |tallies| && tallies[i] == t;
      assert rule.predicates[i] in rule.predicates;
    }
  }

  lemma ConcludedReasons(rule: GateRule, t: Tally, x: GateReason)
    ensures x in Conclude(rule, t).1
            <==> x in t.reasons || (x == OwnReason(rule) && Conclude(rule, t).0 == False)
  {
    var own := [OwnReason(rule)];
    assert forall y :: y in t.reasons + own <==> y in t.reasons || y in own;
    assert own[0] in own;
  }

  /** A gate reports exactly what it met on the way, and its rule's own reason when it is FALSE. */
  lemma ReasonsExact(host: Host, rule: GateRule, m: PlanMaterial, buyer: map<string, FactValue>,
      index: AssessmentIndex, x: GateReason)
    requires EvaluateGate(host, rule, m, buyer, index).Ok?
    ensures var r := EvaluateGate(host, rule, m, buyer, index).value;
            x in r.reasons
            <==> Foregoing(rule, m, buyer, index, x)
                 || (r.truth == False && x == GateReason(rule.reasonCode, rule.blockedStatus))
  {
    hide Collected, Conclude, EvaluateGate, Report, Foregoing;
    GateParts(host, rule, m, buyer, index);
    var t := Collected(host, rule, m, buyer, index).value;
    CollectedReasons(host, rule, m, buyer, index, x);
    ConcludedReasons(rule, t, x);
    ReportKeeps(Conclude(rule, t).1);
  }
}
