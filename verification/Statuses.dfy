/** What status a plan ends up with, what may resolve it, and what its components must be to be executable. */
module Statuses {
  import opened Outcomes
  import opened Ordering
  import opened Domain
  import opened GraphModels
  import opened Gates
  import opened Dimensions
  import opened Pending
  import opened Engine

  // ---- Precedence ----

  /** The statuses, those first that decide over those after them. */
  const PRECEDENCE := [
    Unavailable, ConflictingEvidence, StaleEvidence, InsufficientEvidence, SiraIneligible, SeilPass,
    AuthorityRequired, AdvisoryOnly, Conditional, EligibleWithException, Eligible]

  /** Some gate reports a reason with the status. */
  ghost predicate Reported(gates: seq<GateResult>, s: CandidateStatus) {
    exists g, r :: g in gates && r in g.reasons && r.status == s
  }

  lemma Positions()
    ensures forall i :: 0 <= i < |PRECEDENCE| ==> PRECEDENCE[i].Rank() == i
    ensures forall s: CandidateStatus :: s in PRECEDENCE && s.Rank() < |PRECEDENCE| && PRECEDENCE[s.Rank()] == s
  {
    var p := PRECEDENCE;
    assert p[0].Rank() == 0 && p[1].Rank() == 1 && p[2].Rank() == 2 && p[3].Rank() == 3 && p[4].Rank() == 4
      && p[5].Rank() == 5 && p[6].Rank() == 6 && p[7].Rank() == 7 && p[8].Rank() == 8 && p[9].Rank() == 9
      && p[10].Rank() == 10;
    forall i | 0 <= i < |p| ensures p[i].Rank() == i {
      assert i == 0 || i == 1 || i == 2 || i == 3 || i == 4 || i == 5 || i == 6 || i == 7 || i == 8 || i == 9
        || i == 10;
    }
    forall s: CandidateStatus ensures s in p && s.Rank() < |p| && p[s.Rank()] == s {
      assert s.Rank() < |p| && p[s.Rank()] == s;
    }
  }

  lemma ReasonsReported(gates: seq<GateResult>, r: GateReason)
    ensures r in AllReasons(gates) <==> exists g :: g in gates && r in g.reasons
  {
    FlatMapMembers(gates, ReasonsOf, r);
    if g :| g in gates && r in g.reasons {
      var i :| 0 <= i < |gates| && gates[i] == g;
      assert r in ReasonsOf(gates[i]);
    }
  }

  /** The status is the first in precedence that any reason of any gate carries, and ELIGIBLE without reasons. */
  lemma PrimaryIsFirst(gates: seq<GateResult>, i: nat)
    requires i < |PRECEDENCE| && PrimaryStatus(gates).0 == PRECEDENCE[i]
    ensures forall j :: 0 <= j < i ==> !Reported(gates, PRECEDENCE[j])
    ensures Reported(gates, PRECEDENCE[i])
            || (PRECEDENCE[i] == Eligible && forall g :: g in gates ==> g.reasons == [])
  {
    hide CandidateStatus.Rank;
    Positions();
    forall r ensures r in AllReasons(gates) <==> exists g :: g in gates && r in g.reasons { ReasonsReported(gates, r); }
    forall j | 0 <= j < i ensures !Reported(gates, PRECEDENCE[j]) {
      if g, r :| g in gates && r in g.reasons && r.status == PRECEDENCE[j] { StatusPrecedence(gates, g, r); }
    }
    forall g | g in gates && g.reasons != [] ensures AllReasons(gates) != [] {
      ReasonsReported(gates, g.reasons[0]);
      assert g.reasons[0] in AllReasons(gates);
    }
    if AllReasons(gates) != [] {
      var least := MinReason(AllReasons(gates));
      assert least in AllReasons(gates);
    }
  }

  /** The reason named first: of the deciding status, and of those the one whose code is smallest. */
  lemma PrimaryReasonExact(gates: seq<GateResult>)
    ensures PrimaryStatus(gates).1.None? <==> forall g :: g in gates ==> g.reasons == []
    ensures PrimaryStatus(gates).1.Some? ==>
              var r := PrimaryStatus(gates).1.value;
              && r.status == PrimaryStatus(gates).0 && (exists g :: g in gates && r in g.reasons)
              && forall g, x :: g in gates && x in g.reasons && x.status == r.status ==> !StrLess(x.code, r.code)
  {
    forall r ensures r in AllReasons(gates) <==> exists g :: g in gates && r in g.reasons { ReasonsReported(gates, r); }
    forall g | g in gates && g.reasons != [] ensures AllReasons(gates) != [] {
      ReasonsReported(gates, g.reasons[0]);
      assert g.reasons[0] in AllReasons(gates);
    }
    if AllReasons(gates) != [] {
      var least := MinReason(AllReasons(gates));
      forall g, x | g in gates && x in g.reasons && x.status == least.status ensures !StrLess(x.code, least.code) {
        assert x in AllReasons(gates) && !ReasonLess(x, least);
      }
      assert AllReasons(gates)[0] in AllReasons(gates);
    }
  }

  /** a is reported before b: its status decides over b's, or is the same and its code is smaller. */
  ghost predicate ReportedBefore(a: GateReason, b: GateReason) {
    (exists i, j :: 0 <= i < j < |PRECEDENCE| && PRECEDENCE[i] == a.status && PRECEDENCE[j] == b.status)
    || (a.status == b.status && StrLess(a.code, b.code))
  }

  lemma BeforeExact(a: GateReason, b: GateReason)
    ensures ReportedBefore(a, b) <==> ReasonLess(a, b)
  {
    Positions();
    assert PRECEDENCE[a.status.Rank()] == a.status && PRECEDENCE[b.status.Rank()] == b.status;
  }

  /** A gate reports each reason once, in this order. */
  lemma ReportInOrder(host: Host, rule: GateRule, m: PlanMaterial, buyer: map<string, FactValue>,
      index: AssessmentIndex)
    requires EvaluateGate(host, rule, m, buyer, index).Ok?
    ensures var r := EvaluateGate(host, rule, m, buyer, index).value.reasons;
            forall i, j :: 0 <= i < j < |r| ==> ReportedBefore(r[i], r[j])
  {
    hide Collected, Conclude, EvaluateGate, ReportedBefore;
    GateParts(host, rule, m, buyer, index);
    var t := Conclude(rule, Collected(host, rule, m, buyer, index).value).1;
    var r := Report(t);
    ReasonOrder();
    SortSorts(Dedup(t), ReasonLess);
    SortKeepsDistinct(Dedup(t), ReasonLess, ItselfReason);
    assert Map(Dedup(t), ItselfReason) == Dedup(t) && Map(r, ItselfReason) == r;
    forall i, j | 0 <= i < j < |r| ensures ReportedBefore(r[i], r[j]) {
      assert r[i] != r[j] && !ReasonLess(r[j], r[i]);
      BeforeOrAfter(r[i], r[j]);
      BeforeExact(r[i], r[j]);
    }
  }

  function ItselfReason(r: GateReason): GateReason { r }

  lemma BeforeOrAfter(a: GateReason, b: GateReason)
    requires a != b
    ensures ReasonLess(a, b) || ReasonLess(b, a)
  {
    StrOrder();
    if a.status.Rank() == b.status.Rank() { SameRank(a.status, b.status); }
  }

  // ---- The gates every plan has ----

  /** No rule that judges the plan has a reason against it. */
  ghost predicate RulesContent(host: Host, context: DecisionContext, m: PlanMaterial, index: AssessmentIndex) {
    forall rule :: rule in ApplicableGates(context, m) ==>
      var r := EvaluateGate(host, rule, m, ValueMap(ActiveFacts(context)), index); r.Ok? && r.value.reasons == []
  }

  lemma {:induction false} DependencyReasons(sourceId: string, issues: seq<string>, index: nat)
    ensures forall g, r ::
            g in DependencyGates(sourceId, issues, index) && r in g.reasons ==> r.status == SiraIneligible
    ensures issues != [] ==> Reported(DependencyGates(sourceId, issues, index), SiraIneligible)
  {
    var gates := DependencyGates(sourceId, issues, index);
    if issues != [] {
      DependencyReasons(sourceId, issues[1..], index + 1);
      assert gates[0] in gates && gates[0].reasons[0] in gates[0].reasons;
    }
  }

  /**
   * Where the rules have nothing against it, a plan is UNAVAILABLE if it is, else ineligible with an unmet
   * dependency, else advisory until its publisher seals it in a new pack version, else ELIGIBLE. An unavailable
   * plan is UNAVAILABLE whatever the rules say.
   */
  lemma OwnStatus(host: Host, context: DecisionContext, m: PlanMaterial, index: AssessmentIndex)
    requires EvaluateGates(host, context, m, index).Ok?
    ensures var status := PrimaryStatus(EvaluateGates(host, context, m, index).value).0;
            && (!m.available ==> status == Unavailable)
            && (RulesContent(host, context, m, index) ==>
                  status == if !m.available then Unavailable
                            else if m.dependencyIssues != [] then SiraIneligible
                            else if m.authority.Some? && m.authority.value != SellerSealed then AdvisoryOnly
                            else Eligible)
  {
    hide EvaluateGates, RulesContent, PrimaryStatus, Reported;
    var gates := EvaluateGates(host, context, m, index).value;
    var status := PrimaryStatus(gates).0;
    Positions();
    PrimaryIsFirst(gates, status.Rank());
    OwnGates(host, context, m, index);
    OwnReported(m, gates);
    assert PRECEDENCE[0] == Unavailable && PRECEDENCE[4] == SiraIneligible && PRECEDENCE[7] == AdvisoryOnly
      && PRECEDENCE[10] == Eligible;
    if RulesContent(host, context, m, index) {
      forall s | Reported(gates, s) ensures FromOwn(m, s) { OwnOnly(host, context, m, index, s); }
      NothingReported(gates);
    }
  }

  /** What the gates every plan has report. */
  predicate FromOwn(m: PlanMaterial, s: CandidateStatus) {
    || (s == Unavailable && !m.available)
    || (s == SiraIneligible && m.dependencyIssues != [])
    || (s == AdvisoryOnly && m.authority.Some? && m.authority.value != SellerSealed)
  }

  lemma NothingReported(gates: seq<GateResult>)
    ensures (forall g :: g in gates ==> g.reasons == []) <==> forall s :: !Reported(gates, s)
  {
    forall g | g in gates && g.reasons != [] ensures exists s :: Reported(gates, s) {
      assert g.reasons[0] in g.reasons && Reported(gates, g.reasons[0].status);
    }
  }

  lemma OwnOnly(host: Host, context: DecisionContext, m: PlanMaterial, index: AssessmentIndex, s: CandidateStatus)
    requires EvaluateGates(host, context, m, index).Ok? && RulesContent(host, context, m, index)
    requires Reported(EvaluateGates(host, context, m, index).value, s)
    ensures FromOwn(m, s)
  {
    hide EvaluateGates, EvaluateGate, ApplicableGates, ActiveFacts, ValueMap, DependencyGates;
    var gates := EvaluateGates(host, context, m, index).value;
    var g, r :| g in gates && r in g.reasons && r.status == s;
    RuleGates(host, context, m, index);
    DependencyReasons(m.sourceId, m.dependencyIssues, 1);
    if m.dependencyIssues == [] { NoDependencyGates(m.sourceId); }
  }

  lemma NoDependencyGates(sourceId: string)
    ensures DependencyGates(sourceId, [], 1) == []
  {
  }

  lemma OwnReported(m: PlanMaterial, gates: seq<GateResult>)
    requires AvailabilityGate(m) in gates
    requires forall g :: g in DependencyGates(m.sourceId, m.dependencyIssues, 1) ==> g in gates
    requires forall g :: g in AuthorityGates(m) ==> g in gates
    ensures !m.available ==> Reported(gates, Unavailable)
    ensures m.dependencyIssues != [] ==> Reported(gates, SiraIneligible)
    ensures m.authority.Some? && m.authority.value != SellerSealed ==> Reported(gates, AdvisoryOnly)
  {
    DependencyReasons(m.sourceId, m.dependencyIssues, 1);
    if !m.available { assert AvailabilityGate(m).reasons[0] in AvailabilityGate(m).reasons; }
    if m.authority.Some? && m.authority.value != SellerSealed {
      assert AuthorityGates(m)[0] in AuthorityGates(m)
        && AuthorityGates(m)[0].reasons[0] in AuthorityGates(m)[0].reasons;
    }
  }

  // ---- Lifecycle ----

  /** The statuses a plan may wait with. */
  const WAITING: set<CandidateStatus> := {Conditional, StaleEvidence, InsufficientEvidence, AdvisoryOnly}

  /**
   * A plan is EXECUTABLE exactly when it is eligible and has bounds, waits exactly when its status is one of
   * these and some resolution is permitted, and is blocked otherwise.
   */
  lemma LifecycleExact(host: Host, context: DecisionContext, assessments: seq<EvidenceAssessment>, m: PlanMaterial)
    requires BuildPlan(host, context, assessments, m).Ok?
    ensures var p := BuildPlan(host, context, assessments, m).value;
            && (p.lifecycle == Executable
                <==> (p.status == Eligible || p.status == EligibleWithException)
                     && p.dimensions.OrderingBounds().Some?)
            && (p.lifecycle == ResolutionPending
                <==> p.status in WAITING && p.permittedResolution.Some? && p.permittedResolution.value != "")
            && (p.lifecycle != Executable && p.lifecycle != ResolutionPending ==> p.lifecycle == Blocked)
            && p.status == PrimaryStatus(p.gateResults).0
            && p.permittedResolution == PermittedResolution(p.gateResults, m)
  {
    hide EvaluateGates, DimensionsOf, PrimaryStatus, PermittedResolution, PlanDimensions.OrderingBounds;
  }

  // ---- Resolutions ----

  /** What gates with reasons permit as a resolution. */
  function Permitted(gates: seq<GateResult>): set<string> {
    set g | g in gates && g.reasons != [] && g.permittedResolution.Some? :: g.permittedResolution.value
  }

  lemma Joined(ids: set<string>)
    requires |ids| >= 2
    ensures |SortedIds(ids)| >= 2 && Join(SortedIds(ids)) != ""
  {
    SortedIdsIncrease(ids);
    Members(SortedIds(ids), ids);
    assert SortedIds(ids)[1..] != [];
  }

  lemma Members(s: seq<string>, ids: set<string>)
    requires Distinct(s) && forall x :: x in s <==> x in ids
    ensures |s| == |ids|
    decreases |s|
  {
    if s == [] {
      assert ids == {};
    } else {
      assert s[0] in s && s[0] !in s[1..];
      forall i, j | 0 <= i < j < |s[1..]| ensures s[1..][i] != s[1..][j] {
        assert s[1..][i] == s[i + 1] && s[1..][j] == s[j + 1];
      }
      forall x ensures x in s[1..] <==> x in ids - {s[0]} { assert x in s <==> x == s[0] || x in s[1..]; }
      Members(s[1..], ids - {s[0]});
    }
  }

  lemma OnlyMember(r: string)
    ensures SortedIds({r}) == [r]
  {
    SortedIdsIncrease({r});
    var s := SortedIds({r});
    Members(s, {r});
    assert s[0] in s && s == [s[0]];
  }

  lemma TwoMembers(r: string, s: string)
    requires StrLess(r, s)
    ensures SortedIds({r, s}) == [r, s]
  {
    SortedIdsIncrease({r, s});
    StrOrder();
    assert r != s;
    var ids := SortedIds({r, s});
    Members(ids, {r, s});
    assert ids[0] in ids && ids[1] in ids && ids == [ids[0], ids[1]];
  }

  /** The plan takes the resolution its gates with reasons permit, joined in order if several; else its action's own. */
  lemma ResolutionExact(gates: seq<GateResult>, m: PlanMaterial)
    ensures Permitted(gates) == {} ==> PermittedResolution(gates, m) == m.permittedResolution
    ensures forall r :: Permitted(gates) == {r} ==> PermittedResolution(gates, m) == Some(r)
    ensures forall r, s :: Permitted(gates) == {r, s} && StrLess(r, s) ==>
              PermittedResolution(gates, m) == Some(r + "+" + s)
    ensures |Permitted(gates)| >= 2 ==> PermittedResolution(gates, m) == Some(Join(SortedIds(Permitted(gates))))
  {
    hide SortedIds;
    var ids := Permitted(gates);
    assert PendingResolutions(gates) == SortedIds(ids);
    SortedIdsIncrease(ids);
    Members(SortedIds(ids), ids);
    if |ids| >= 2 { Joined(ids); }
    forall r | ids == {r} ensures PermittedResolution(gates, m) == Some(r) { OnlyMember(r); }
    forall r, s | ids == {r, s} && StrLess(r, s) ensures PermittedResolution(gates, m) == Some(r + "+" + s) {
      TwoMembers(r, s);
      assert [r, s][1..] == [s];
      assert Join([r, s]) == r + "+" + s;
    }
  }
}
