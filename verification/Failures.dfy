/** When a gate fails, in terms of the fields and evidence it reads. */
module Failures {
  import opened Outcomes
  import opened Domain
  import opened GraphModels
  import opened Gates

  // ---- What a predicate comes to ----

  /** One acceptable value that does not match. */
  ghost predicate Contradicts(host: Host, s: FieldState, p: Predicate) {
    s.state == Acceptable && |s.values| == 1 && Matches(host, s.values[0], p) == Ok(false)
  }

  /** Every component has acceptable evidence for the predicate, and for some the value does not match. */
  ghost predicate BuyerRefutes(host: Host, p: Predicate, states: seq<FieldState>) {
    (forall s :: s in states ==> s.state == Acceptable) && exists s :: s in states && Contradicts(host, s, p)
  }

  /** The predicate fails: on the components' fields, or for a seller rule on the buyer's value. */
  ghost predicate Refutes(host: Host, gate: GateRule, m: PlanMaterial, buyer: map<string, FactValue>,
      index: AssessmentIndex, p: Predicate)
  {
    if gate.blockedStatus == SeilPass then p.field in buyer && Matches(host, buyer[p.field], p) == Ok(false)
    else BuyerRefutes(host, p, ComponentFieldStates(host, m, p.field, index))
  }

  /** The predicate holds: for every component, or for a seller rule of the buyer's value. */
  ghost predicate Meets(host: Host, gate: GateRule, m: PlanMaterial, buyer: map<string, FactValue>,
      index: AssessmentIndex, p: Predicate)
  {
    if gate.blockedStatus == SeilPass then p.field in buyer && Matches(host, buyer[p.field], p) == Ok(true)
    else forall s :: s in ComponentFieldStates(host, m, p.field, index) ==> Supports(host, s, p)
  }

  /** The evidence behind a seller rule, where it names any, is there and all of it acceptable. */
  ghost predicate ClaimsHold(gate: GateRule, index: AssessmentIndex) {
    gate.blockedStatus == SeilPass && gate.evidenceClaimIds != {} ==>
      && (exists k :: k in index && k.0 in gate.evidenceClaimIds)
      && (forall k :: k in index && k.0 in gate.evidenceClaimIds ==> index[k].state == Acceptable)
  }

  /** Some evidence behind a seller rule is in conflict. */
  ghost predicate ClaimsConflict(gate: GateRule, index: AssessmentIndex) {
    gate.blockedStatus == SeilPass
    && exists k :: k in index && k.0 in gate.evidenceClaimIds && index[k].state == EvidenceState.Conflict
  }

  /** Something the rule reads is in conflict. */
  ghost predicate Contested(host: Host, gate: GateRule, m: PlanMaterial, index: AssessmentIndex) {
    if gate.blockedStatus == SeilPass then ClaimsConflict(gate, index)
    else exists p :: p in gate.predicates && HasConflict(host, m, p.field, index)
  }

  /**
   * The rule fails. A required match does when nothing it reads is in conflict and some predicate fails; a
   * block on a match does when its evidence is in order and every predicate holds.
   */
  ghost predicate Fails(host: Host, gate: GateRule, m: PlanMaterial, buyer: map<string, FactValue>,
      index: AssessmentIndex)
  {
    match gate.mode
    case RequireMatch =>
      !Contested(host, gate, m, index) && exists p :: p in gate.predicates && Refutes(host, gate, m, buyer, index, p)
    case BlockOnMatch =>
      ClaimsHold(gate, index) && forall p :: p in gate.predicates ==> Meets(host, gate, m, buyer, index, p)
  }

  // ---- The tallies say so ----

  lemma {:induction false} SumStates(ts: seq<Tally>, x: TruthValue)
    ensures x in SumTallies(ts).states <==> exists t :: t in ts && x in t.states
  {
    if ts != [] {
      assert forall t :: t in ts <==> t == ts[0] || t in ts[1..];
      SumStates(ts[1..], x);
    }
  }

  lemma ClaimsTally(gate: GateRule, index: AssessmentIndex)
    ensures SellerEvidenceTally(gate, index).states == {} <==> ClaimsHold(gate, index)
    ensures TruthValue.Conflict in SellerEvidenceTally(gate, index).states <==> ClaimsConflict(gate, index)
    ensures False !in SellerEvidenceTally(gate, index).states
    ensures SellerEvidenceTally(gate, index).states <= {True} <==> SellerEvidenceTally(gate, index).states == {}
  {
    if gate.blockedStatus == SeilPass && gate.evidenceClaimIds != {} {
      var states := set k | k in index && k.0 in gate.evidenceClaimIds :: index[k].state;
      forall k | k in index && k.0 in gate.evidenceClaimIds ensures index[k].state in states {}
      if states != {} {
        var s :| s in states;
      }
    }
  }

  lemma SellerTallySays(host: Host, p: Predicate, buyer: map<string, FactValue>)
    requires SellerPredicateTally(host, p, buyer).Ok?
    ensures var states := SellerPredicateTally(host, p, buyer).value.states;
            && (False in states <==> p.field in buyer && Matches(host, buyer[p.field], p) == Ok(false))
            && (states <= {True} <==> p.field in buyer && Matches(host, buyer[p.field], p) == Ok(true))
            && TruthValue.Conflict !in states
  {
    hide Matches;
    var states := SellerPredicateTally(host, p, buyer).value.states;
    assert p.field !in buyer ==> TruthValue.Unknown in states;
  }

  lemma MatchedSays(host: Host, p: Predicate, states: seq<FieldState>, matched: seq<bool>)
    requires forall s :: s in states ==> s.state == Acceptable && |s.values| == 1
    requires Traverse(states, StateMatcher(host, p)) == Ok(matched)
    ensures false in matched <==> exists s :: s in states && Contradicts(host, s, p)
  {
    hide Matches;
    TraversePointwise(states, StateMatcher(host, p));
    forall i | 0 <= i < |states| ensures matched[i] == false <==> Contradicts(host, states[i], p) {
      assert states[i] in states;
      AllMatchSingle(host, p, states[i]);
    }
    if false in matched {
      var i :| 0 <= i < |matched| && matched[i] == false;
      assert states[i] in states;
    }
    if s :| s in states && Contradicts(host, s, p) {
      var i :| 0 <= i < |states| && states[i] == s;
      assert matched[i] == false;
    }
  }

  lemma BuyerTallySays(host: Host, p: Predicate, states: seq<FieldState>)
    requires forall s :: s in states ==> (s.state == Acceptable ==> |s.values| == 1)
    requires BuyerPredicateTally(host, p, states).Ok?
    ensures var t := BuyerPredicateTally(host, p, states).value.states;
            && (False in t <==> BuyerRefutes(host, p, states))
            && (t <= {True} <==> forall s :: s in states ==> Supports(host, s, p))
            && (TruthValue.Conflict in t <==> exists s :: s in states && s.state == EvidenceState.Conflict)
  {
    hide Matches, AllMatch, Supports, Contradicts;
    BuyerTallyExact(host, p, states);
    if forall s :: s in states ==> s.state == Acceptable && s.values != [] {
      var matched := Traverse(states, StateMatcher(host, p)).value;
      MatchedSays(host, p, states, matched);
      var truths := set b | b in matched :: if b then True else False;
      assert BuyerPredicateTally(host, p, states) == Ok(Tally(truths, []));
      assert False in truths <==> false in matched;
    }
  }

  lemma PredicateSays(host: Host, gate: GateRule, m: PlanMaterial, buyer: map<string, FactValue>,
      index: AssessmentIndex, p: Predicate)
    requires PredicateTally(host, gate, m, buyer, index, p).Ok?
    ensures var t := PredicateTally(host, gate, m, buyer, index, p).value.states;
            && (False in t <==> Refutes(host, gate, m, buyer, index, p))
            && (t <= {True} <==> Meets(host, gate, m, buyer, index, p))
            && (TruthValue.Conflict in t <==> gate.blockedStatus != SeilPass && HasConflict(host, m, p.field, index))
  {
    hide Matches, BuyerPredicateTally, SellerPredicateTally, ComponentFieldStates, Supports, BuyerRefutes;
    if gate.blockedStatus == SeilPass {
      SellerTallySays(host, p, buyer);
    } else {
      var states := ComponentFieldStates(host, m, p.field, index);
      forall s | s in states ensures s.state == Acceptable ==> |s.values| == 1 {
        StatesShape(host, m, p.field, index, s);
      }
      BuyerTallySays(host, p, states);
    }
  }

  /** The tally of a rule in terms of what it reads. */
  lemma CollectedSays(host: Host, gate: GateRule, m: PlanMaterial, buyer: map<string, FactValue>,
      index: AssessmentIndex)
    requires Collected(host, gate, m, buyer, index).Ok?
    ensures var t := Collected(host, gate, m, buyer, index).value.states;
            && (False in t <==> exists p :: p in gate.predicates && Refutes(host, gate, m, buyer, index, p))
            && (t <= {True} <==>
                 ClaimsHold(gate, index) && forall p :: p in gate.predicates ==> Meets(host, gate, m, buyer, index, p))
            && (TruthValue.Conflict in t <==> Contested(host, gate, m, index))
  {
    hide PredicateTally, Refutes, Meets, ClaimsHold, SellerEvidenceTally, HasConflict;
    var tallier := Tallier(host, gate, m, buyer, index);
    TraversePointwise(gate.predicates, tallier);
    var tallies := Traverse(gate.predicates, tallier).value;
    ClaimsTally(gate, index);
    SumStates(tallies, False);
    SumStates(tallies, TruthValue.Conflict);
    SumOfTrue(tallies);
    forall p | p in gate.predicates
      ensures tallier(p).Ok? && tallier(p).value in tallies
      ensures False in tallier(p).value.states <==> Refutes(host, gate, m, buyer, index, p)
      ensures tallier(p).value.states <= {True} <==> Meets(host, gate, m, buyer, index, p)
      ensures TruthValue.Conflict in tallier(p).value.states
              <==> gate.blockedStatus != SeilPass && HasConflict(host, m, p.field, index)
    {
      var i :| 0 <= i < |gate.predicates| && gate.predicates[i] == p;
      assert tallies[i] in tallies;
      PredicateSays(host, gate, m, buyer, index, p);
    }
    forall t | t in tallies ensures exists p :: p in gate.predicates && tallier(p) == Ok(t) {
      var i :| 0 <= i < |tallies| && tallies[i] == t;
      assert gate.predicates[i] in gate.predicates;
    }
  }

  lemma ConcludeFalse(gate: GateRule, t: Tally)
    requires Decided(t)
    ensures Conclude(gate, t).0 == False
            <==> match gate.mode
                 case RequireMatch => TruthValue.Conflict !in t.states && False in t.states
                 case BlockOnMatch => t.states <= {True}
  {
    if gate.mode == BlockOnMatch { ConcludeBlock(gate, t); }
  }

  /** A gate is FALSE exactly when its rule fails. */
  lemma FailsExact(host: Host, gate: GateRule, m: PlanMaterial, buyer: map<string, FactValue>, index: AssessmentIndex)
    requires EvaluateGate(host, gate, m, buyer, index).Ok?
    ensures EvaluateGate(host, gate, m, buyer, index).value.truth == False <==> Fails(host, gate, m, buyer, index)
  {
    hide Collected, Conclude, EvaluateGate, Refutes, Meets, ClaimsHold, Contested;
    GateParts(host, gate, m, buyer, index);
    var t := Collected(host, gate, m, buyer, index).value;
    CollectedSays(host, gate, m, buyer, index);
    CollectedDecided(host, gate, m, buyer, index);
    ConcludeFalse(gate, t);
  }

  lemma CollectedDecided(host: Host, gate: GateRule, m: PlanMaterial, buyer: map<string, FactValue>,
      index: AssessmentIndex)
    requires Collected(host, gate, m, buyer, index).Ok?
    ensures Decided(Collected(host, gate, m, buyer, index).value)
  {
    hide PredicateTally;
    var tallier := Tallier(host, gate, m, buyer, index);
    TraversePointwise(gate.predicates, tallier);
    var tallies := Traverse(gate.predicates, tallier).value;
    forall t | t in tallies ensures Decided(t) {
      var i :| 0 <= i < |tallies| && tallies[i] == t;
      TallyDecided(host, gate, m, buyer, index, gate.predicates[i]);
    }
    SumOfTrue(tallies);
  }

  lemma TallyDecided(host: Host, gate: GateRule, m: PlanMaterial, buyer: map<string, FactValue>,
      index: AssessmentIndex, p: Predicate)
    requires PredicateTally(host, gate, m, buyer, index, p).Ok?
    ensures Decided(PredicateTally(host, gate, m, buyer, index, p).value)
  {
    hide Matches, ComponentFieldStates;
    if gate.blockedStatus != SeilPass { BuyerTallyDecided(host, p, ComponentFieldStates(host, m, p.field, index)); }
  }
}
