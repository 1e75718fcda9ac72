/** Adapters whose identifiers collide: refused, charged by one offer, or merged into one record. */
module TrialCollisions {
  import opened Outcomes
  import opened Ordering
  import opened Domain
  import opened Bounds
  import opened GraphModels
  import opened Recall
  import opened PlainRecall
  import opened Duplicates
  import opened Evidence
  import opened Gates
  import opened Dimensions
  import opened Materials
  import opened Engine
  import opened LonePlans
  import opened Exceptions
  import opened Guarantees
  import opened RankGuarantees
  import opened Bridge
  import opened Trials
  import opened TrialOutcome
  import opened TrialWinner
  import opened TrialPrices

  // ---- Refused ----

  lemma TrialValid(t: Trial)
    ensures ValidContext(t.Context()) && OrderedInputs(t.Context())
  {
    hide ActiveGates, PolicyFields, SortedIds, TrialGate, GateFact;
    assert PRICE_CRITERION.Valid() && ADAPTER_RISK.Valid();
    forall o | o in t.Context().offers ensures OrderedCost(o) {
      var i :| 0 <= i < |t.Context().offers| && t.Context().offers[i] == o;
      assert o == TrialOffer(t.verdicts[i]);
    }
  }

  lemma NotReadOff(t: Trial)
    ensures Outcome(t) == Raise(DuplicateIdentifier) <==> EvaluateOnce(t.host, t.Input()) == Raise(DuplicateIdentifier)
  {
    hide EvaluateOnce, BuildDecisionGraphInput, ActiveGates;
  }

  /**
   * A run is refused for a repeated identifier, however its adapters were judged, exactly when two of them
   * have the same identifier but for hyphens and underscores, or the manifest repeats the canary.
   */
  lemma RefusedExact(t: Trial)
    ensures Outcome(t) == Raise(DuplicateIdentifier)
            <==> !Distinct(Map(t.verdicts, SuffixOf)) || FunctionalCanary in t.manifestGates
  {
    hide EvaluateOnce, EvaluateWithDecisionGraph, TrialContext, ActiveGates, Distinct, SuffixOf, ValidContext,
         OrderedInputs;
    TrialIdentifiers(t);
    TrialValid(t);
    assert t.Input().context == t.Context();
    EvaluationRaises(t.host, t.Input());
    NotReadOff(t);
  }

  /** Such as a-b and a_b. */
  lemma HyphenRefused(t: Trial)
    requires |t.verdicts| == 2 && t.verdicts[0].adapterId == "a-b" && t.verdicts[1].adapterId == "a_b"
    ensures Outcome(t) == Raise(DuplicateIdentifier)
  {
    hide EvaluateWithDecisionGraph;
    assert SuffixOf(t.verdicts[0]) == "a_b" == SuffixOf(t.verdicts[1]);
    assert Map(t.verdicts, SuffixOf)[0] == Map(t.verdicts, SuffixOf)[1];
    RefusedExact(t);
  }

  // ---- Charged by another adapter's offer ----

  function LowerChar(c: char): char {
    if 'A' <= c <= 'Z' then (c as int + 32) as char else c
  }

  function LowerCase(s: string): string {
    Map(s, LowerChar)
  }

  /** A platform that folds the letters of the alphabet and tells all plans apart. */
  function AsciiHost(): Host {
    Host(
      LowerCase,
      (v: FactValue) => "",
      (k: IdentityKey) => k.product,
      (ids: seq<string>) => "",
      (a: SolutionAction, ids: seq<string>) => Join(ids),
      (n: nat) => "",
      (x: real) => "",
      (s: string) => None)
  }

  const DEARER := CandidateVerdict("a-B", true, {}, 1000)
  const CHEAPER := CandidateVerdict("a_b", true, {}, 100)
  const SHARING := Trial(AsciiHost(), {}, [DEARER, CHEAPER], 0)

  /** Letters that fold to each other, place by place. */
  lemma LowerIs(s: string, t: string)
    requires |s| == |t| && forall i :: 0 <= i < |s| ==> LowerChar(s[i]) == t[i]
    ensures LowerCase(s) == t
  {
    hide Map;
  }

  lemma SuffixIs(s: string, t: string)
    requires |s| == |t| && forall i :: 0 <= i < |s| ==> Underscored(s[i]) == t[i]
    ensures Suffix(s) == t
  {
    hide Map;
  }

  lemma SharingFolds()
    ensures LowerCase("a-B") == "a-b" && LowerCase("a-b") == "a-b" && LowerCase("a_b") == "a_b"
    ensures Suffix("a-B") == "a_B" && Suffix("a_b") == "a_b"
    ensures LowerCase("proof_offer_a_B") == "proof_offer_a_b" && LowerCase("proof_offer_a_b") == "proof_offer_a_b"
  {
    hide Map, LowerCase, Suffix;
    LowerIs("a-B", "a-b");
    LowerIs("a-b", "a-b");
    LowerIs("a_b", "a_b");
    SuffixIs("a-B", "a_B");
    SuffixIs("a_b", "a_b");
    LowerIs("proof_offer_a_B", "proof_offer_a_b");
    LowerIs("proof_offer_a_b", "proof_offer_a_b");
  }

  lemma SharingIds()
    ensures TrialOfferId(DEARER) == "proof_offer_a_B" && TrialOfferId(CHEAPER) == "proof_offer_a_b"
    ensures AdapterFold(AsciiHost())(DEARER) == "a-b" && AdapterFold(AsciiHost())(CHEAPER) == "a_b"
    ensures OfferFold(AsciiHost())(DEARER) == "proof_offer_a_b" == OfferFold(AsciiHost())(CHEAPER)
    ensures FoldsStably(AsciiHost(), "a-B") && FoldsStably(AsciiHost(), "a_b")
    ensures FoldsStably(AsciiHost(), "proof_offer_a_B") && FoldsStably(AsciiHost(), "proof_offer_a_b")
  {
    hide Map, LowerCase, Suffix;
    SharingFolds();
    assert "proof_offer_" + "a_B" == "proof_offer_a_B" && "proof_offer_" + "a_b" == "proof_offer_a_b";
  }

  lemma SharingSeparated()
    ensures SHARING.Separated()
    ensures PlanIdOf(SHARING, DEARER) == "a-b" && PlanIdOf(SHARING, CHEAPER) == "a_b"
    ensures PlanIdsSeparate(SHARING)
  {
    hide Map, LowerCase, Suffix;
    SharingIds();
    SharingFolds();
    assert "a-b"[1] != "a_b"[1] && "a_B"[2] != "a_b"[2];
  }

  lemma SharingCharged()
    ensures SHARING.Charged(DEARER) == 100 && SHARING.Charged(CHEAPER) == 100
  {
    hide OfferFold, AsciiHost;
    SharingIds();
    assert SHARING.verdicts[1] == CHEAPER;
  }

  lemma HyphenFirst()
    ensures StrLess("a-b", "a_b") && !StrLess("a_b", "a-b")
  {
    StrOrder();
    assert "a-b"[1..][0] == '-' && "a_b"[1..][0] == '_';
  }

  /**
   * Of these two adapters, both clear, the run names the one that costs ten times as much: their offers
   * fold to one identifier, the last of them is charged to both, and the tie goes to the hyphen.
   */
  lemma DearerNamed()
    ensures SHARING.Separated() && PlanIdsSeparate(SHARING)
    ensures Clear(SHARING.Active(), DEARER) && Clear(SHARING.Active(), CHEAPER)
    ensures CHEAPER.priceCents < DEARER.priceCents
    ensures Outcome(SHARING) == Ok(Winner("a-b", "a-b"))
    ensures SHARING.host.fold(DEARER.adapterId) == "a-b"
  {
    hide OfferFold, ActiveGates, AsciiHost, EvaluateWithDecisionGraph;
    SharingSeparated();
    SharingIds();
    SharingCharged();
    HyphenFirst();
    assert !ChargedBefore(SHARING, CHEAPER, DEARER);
    assert SHARING.verdicts[0] == DEARER && SHARING.verdicts[1] == CHEAPER;
    SecondWins(SHARING, 1, 0);
  }

  // ---- Merged into one record ----

  /** The identity key a verdict's record is filed under. */
  function KeyOf(t: Trial, v: CandidateVerdict): IdentityKey {
    FoldKey(t.host, t.Candidate(v))
  }

  /** A disputed price leaves the plan without bounds. */
  lemma DisputedUnbounded(host: Host, active: seq<ProofGate>, context: DecisionContext, m: PlanMaterial,
      assessments: seq<EvidenceAssessment>)
    requires Ruled(active, context) && m.action == Replace
    requires FieldStateOf(host, m.facts, PRICE_FIELD, IndexOf(assessments)).state == EvidenceState.Conflict
    requires BuildPlan(host, context, assessments, m).Ok?
    ensures BuildPlan(host, context, assessments, m).value.dimensions.OrderingBounds().None?
  {
    hide FieldStateOf, EvaluateGates, PrimaryStatus, Ruled, PreferenceOf, RiskSteps, AggregateCoverage, ValidCost,
         AggregateAge, IndexOf, BuildPlan;
    PriceApplies(active, context, m);
    PlanDimensionsOf(host, context, assessments, m);
    var index := IndexOf(assessments);
    var scored := Scored(ScoreComponent(PRICE_CRITERION.criterionId, 5, Interval(0.0, 0.0),
                                        FieldStateOf(host, m.facts, PRICE_FIELD, index).evidenceIds,
                                          EvidenceState.Conflict, false),
                         {UnknownBound(PRICE_CRITERION.criterionId)}
                           + TimeReason(FieldStateOf(host, m.facts, PRICE_FIELD, index).timeUnavailable));
    TraverseOne(PRICE_CRITERION, Scorer(host, context, m, index), scored);
    assert scored in [scored] && UnknownBound(PRICE_CRITERION.criterionId) in scored.reasons;
    assert UnknownBound(PRICE_CRITERION.criterionId) in ScoreReasons([scored]);
  }

  /** The records filed together come from verdicts with the same key. */
  lemma GroupVerdict(t: Trial, key: IdentityKey, group: seq<RawCandidate>, r: RawCandidate)
    returns (x: CandidateVerdict)
    requires KeptUnder(t.host, t.Input(), key, group) && r in group
    ensures x in t.verdicts && r == t.Candidate(x) && KeyOf(t, x) == key
  {
    hide TrialFacts, ActiveGates, TrialRecordId, TrialOfferId, TrialEvidenceId, Classify;
    var records := t.Input().candidates;
    assert r in records;
    var i :| 0 <= i < |records| && records[i] == r;
    x := t.verdicts[i];
    PlainClassify(t.host, t.Context(), r);
  }

  lemma VerdictGrouped(t: Trial, key: IdentityKey, group: seq<RawCandidate>, x: CandidateVerdict)
    requires KeptUnder(t.host, t.Input(), key, group) && x in t.verdicts && KeyOf(t, x) == key
    ensures t.Candidate(x) in group
  {
    hide TrialFacts, ActiveGates, TrialRecordId, TrialOfferId, TrialEvidenceId, Classify;
    var i :| 0 <= i < |t.verdicts| && t.verdicts[i] == x;
    assert t.Input().candidates[i] == t.Candidate(x);
    PlainClassify(t.host, t.Context(), t.Candidate(x));
  }

  /** The merged record carries what each of its verdicts states. */
  lemma FactCarried(host: Host, active: seq<ProofGate>, group: seq<RawCandidate>, product: string, v: CandidateVerdict,
      f: ProductFact)
    returns (g: ProductFact)
    requires TrialCandidate(active)(v) in group && f in TrialFacts(active, v)
    ensures g in MergeFacts(host, AllFacts(group), product) && g.field == f.field && g.value == f.value
  {
    hide MergeFacts, TrialFacts;
    assert f in TrialCandidate(active)(v).facts;
    FactOf(group, f);
    MergeKeepsValues(host, AllFacts(group), product, f);
    g :| g in MergeFacts(host, AllFacts(group), product) && g.field == f.field && g.value == f.value;
  }

  lemma PriceStated(active: seq<ProofGate>, v: CandidateVerdict)
    ensures TrialPriceFact(v) in TrialFacts(active, v)
  {
    assert TrialFacts(active, v)[|TrialFacts(active, v)| - 1] == TrialPriceFact(v);
  }

  lemma GateStated(active: seq<ProofGate>, v: CandidateVerdict, g: ProofGate)
    requires g in active
    ensures TrialGateFact(v)(g) in TrialFacts(active, v)
  {
    var i :| 0 <= i < |active| && active[i] == g;
    assert TrialFacts(active, v)[i] == TrialGateFact(v)(g);
  }

  /** The records of a campaign need nothing, and nothing is current. */
  lemma TrialIndependent(t: Trial)
    ensures Independent(t.Input())
  {
    hide TrialFacts, ActiveGates, TrialRecordId, TrialOfferId, TrialEvidenceId, PolicyFields, SortedIds;
    var records := t.Input().candidates;
    forall r | r in records ensures r.requiredProductIds == {} {
      var i :| 0 <= i < |records| && records[i] == r;
    }
  }

  /** Both verdicts are filed under the record, which carries a fact of each on one field. */
  lemma BothCarried(t: Trial, e: Evaluation, p: EvaluatedPlan, f: Filed, m: PlanMaterial, v: CandidateVerdict,
      w: CandidateVerdict, x: ProductFact, y: ProductFact)
    requires Rooted(t.host, t.Input(), e, p, f, m)
    requires v in t.verdicts && w in t.verdicts && KeyOf(t, v) == f.key == KeyOf(t, w)
    requires x in TrialFacts(t.Active(), v) && y in TrialFacts(t.Active(), w)
    requires x.field == y.field != LANDED_TOTAL && x.value != y.value
    ensures FieldStateOf(t.host, m.facts, x.field, IndexOf(e.assessments)).state == EvidenceState.Conflict
    ensures FieldStateOf(t.host, m.gateFacts, x.field, IndexOf(e.assessments)).state == EvidenceState.Conflict
  {
    hide BuildPlan, MergeFacts, AllFacts, KeptUnder, FieldStateOf, KeyOf, ActiveGates, TrialFacts, IndexOf;
    VerdictGrouped(t, f.key, f.Records(), v);
    VerdictGrouped(t, f.key, f.Records(), w);
    RootedFact(t.host, t.Input(), e, p, f, m);
    var a := FactCarried(t.host, t.Active(), f.Records(), f.key.product, v, x);
    var b := FactCarried(t.host, t.Active(), f.Records(), f.key.product, w, y);
    TwoValuesConflict(t.host, m.facts, x.field, IndexOf(e.assessments), a, b);
    TwoValuesConflict(t.host, m.gateFacts, x.field, IndexOf(e.assessments), a, b);
  }

  /** A plan of a merged record with two prices has no bounds. */
  lemma MergedUnbounded(t: Trial, e: Evaluation, p: EvaluatedPlan, f: Filed, m: PlanMaterial, v: CandidateVerdict,
      w: CandidateVerdict)
    requires Rooted(t.host, t.Input(), e, p, f, m)
    requires v in t.verdicts && w in t.verdicts && KeyOf(t, v) == f.key == KeyOf(t, w) && v.priceCents != w.priceCents
    ensures !Rankable(p)
  {
    hide BuildPlan, MergeFacts, AllFacts, KeptUnder, FieldStateOf, KeyOf, ActiveGates, Ruled, TrialFacts, IndexOf;
    PriceStated(t.Active(), v);
    PriceStated(t.Active(), w);
    assert PRICE_FIELD[0] != LANDED_TOTAL[0];
    BothCarried(t, e, p, f, m, v, w, TrialPriceFact(v), TrialPriceFact(w));
    TrialContextParts(t);
    DisputedUnbounded(t.host, t.Active(), t.Context(), m, e.assessments);
  }

  /** A plan of a merged record with two outcomes of an active gate is blocked. */
  lemma MergedBlocked(t: Trial, e: Evaluation, p: EvaluatedPlan, f: Filed, m: PlanMaterial, v: CandidateVerdict,
      w: CandidateVerdict, g: ProofGate)
    requires Rooted(t.host, t.Input(), e, p, f, m)
    requires v in t.verdicts && w in t.verdicts && KeyOf(t, v) == f.key == KeyOf(t, w)
    requires g in t.Active() && Passed(v, g) != Passed(w, g)
    ensures !Rankable(p)
  {
    hide BuildPlan, MergeFacts, AllFacts, KeptUnder, FieldStateOf, KeyOf, ActiveGates, Ruled, TrialFacts, IndexOf,
         ApplicableGates, ProofGate.Field, TrialContext;
    GateStated(t.Active(), v, g);
    GateStated(t.Active(), w, g);
    PriceApart(g);
    assert LANDED_TOTAL[0] != 'p';
    BothCarried(t, e, p, f, m, v, w, TrialGateFact(v)(g), TrialGateFact(w)(g));
    TrialContextParts(t);
    GatesApplicable(t.Active(), t.Context(), m);
    GateDisputed(t.host, t.Context(), e.assessments, m, g);
    PlanGates(t.host, t.Context(), e.assessments, m);
  }

  lemma GateDisputed(host: Host, context: DecisionContext, assessments: seq<EvidenceAssessment>, m: PlanMaterial,
      g: ProofGate)
    requires BuildPlan(host, context, assessments, m).Ok? && |m.componentIds| == 1
    requires TrialGate(g) in ApplicableGates(context, m)
    requires FieldStateOf(host, m.gateFacts, g.Field(), IndexOf(assessments)).state == EvidenceState.Conflict
    ensures BuildPlan(host, context, assessments, m).value.lifecycle == Blocked
  {
    hide BuildPlan, FieldStateOf, ApplicableGates, IndexOf, ProofGate.Field;
    var on := Predicate(g.Field(), Eq, Truth(true));
    var s := FieldStateOf(host, m.gateFacts, g.Field(), IndexOf(assessments));
    assert ComponentFieldStates(host, m, on.field, IndexOf(assessments)) == [s] && s in [s];
    assert on in TrialGate(g).predicates;
    ConflictBlocks(host, context, assessments, m, TrialGate(g), on);
  }

  /** Adapters that fold alike are filed under one key, as case folding makes sure. */
  ghost predicate FoldsDecide(t: Trial) {
    forall v, w ::
        v in t.verdicts && w in t.verdicts && t.host.fold(v.adapterId) == t.host.fold(w.adapterId) ==>
          KeyOf(t, v) == KeyOf(t, w)
  }

  /** The plan of a run that carries a plan identifier, and the verdict whose component it has. */
  lemma PlanVerdict(t: Trial, e: Evaluation, p: EvaluatedPlan, f: Filed, m: PlanMaterial) returns (x: CandidateVerdict)
    requires Rooted(t.host, t.Input(), e, p, f, m)
    ensures x in t.verdicts && KeyOf(t, x) == f.key
    ensures p.componentIds == [t.host.fold(x.adapterId)] && p.planId == PlanIdOf(t, x)
  {
    hide MergeFacts, AllFacts, KeptUnder, EvaluateGates, DimensionsOf, PrimaryStatus, ActiveGates;
    assert f.Records()[0] in f.Records();
    x := GroupVerdict(t, f.key, f.Records(), f.Records()[0]);
  }

  /** The rankable plan that decides a run with a winner, and the plan the winner is read off. */
  lemma Decisive(t: Trial) returns (e: Evaluation, p: EvaluatedPlan, q: EvaluatedPlan)
    requires Outcome(t).Ok?
    ensures EvaluateOnce(t.host, t.Input()) == Ok(e) && p in e.plans && q in e.plans
    ensures Rankable(p) && p.planId == q.planId
    ensures |q.componentIds| == 1 && Outcome(t).value.adapterId == q.componentIds[0]
  {
    hide EvaluateOnce, Rank, ActiveGates, BuildDecisionGraphInput, RanksBefore;
    e := EvaluateOnce(t.host, t.Input()).value;
    EvaluationStages(t.host, t.Input(), e);
    SelectionExact(e.plans);
    var id := e.ranking.rankedPlanIds[0];
    p :| p in e.plans && Rankable(p) && e.ranking.selected.value == AsBounded(p, false);
    q := PlanWith(e.plans, id).value;
    PlanFound(e.plans, id);
  }

  /** Two verdicts that differ in price, or in the outcome of an active gate. */
  ghost predicate Differ(t: Trial, v: CandidateVerdict, w: CandidateVerdict) {
    v.priceCents != w.priceCents || exists g :: g in t.Active() && Passed(v, g) != Passed(w, g)
  }

  lemma MergedUnranked(t: Trial, e: Evaluation, p: EvaluatedPlan, f: Filed, m: PlanMaterial, v: CandidateVerdict,
      w: CandidateVerdict)
    requires Rooted(t.host, t.Input(), e, p, f, m)
    requires v in t.verdicts && w in t.verdicts && KeyOf(t, v) == f.key == KeyOf(t, w) && Differ(t, v, w)
    ensures !Rankable(p)
  {
    hide Rooted, KeyOf, Rankable, ActiveGates;
    if v.priceCents != w.priceCents {
      MergedUnbounded(t, e, p, f, m, v, w);
    } else {
      var g :| g in t.Active() && Passed(v, g) != Passed(w, g);
      MergedBlocked(t, e, p, f, m, v, w, g);
    }
  }

  /**
   * Adapters that fold alike are merged into one record. When they differ in price the record's price is
   * disputed and its plan has no bounds; when they differ in the outcome of an active gate that gate is in
   * conflict and the plan is blocked. Either way the run never names them.
   */
  lemma MergedNeverNamed(t: Trial, v: CandidateVerdict, w: CandidateVerdict)
    requires v in t.verdicts && w in t.verdicts && Differ(t, v, w)
    requires t.host.fold(v.adapterId) == t.host.fold(w.adapterId)
    requires FoldsDecide(t) && PlanIdsSeparate(t)
    ensures Outcome(t).Ok? ==> Outcome(t).value.adapterId != t.host.fold(v.adapterId)
  {
    hide EvaluateWithDecisionGraph, EvaluateOnce, Rooted, KeyOf, Rankable, Differ;
    if Outcome(t).Ok? {
      TrialIndependent(t);
      var e, p, q := Decisive(t);
      var f, m := PlanRoot(t.host, t.Input(), e, p);
      var g, n := PlanRoot(t.host, t.Input(), e, q);
      var x := PlanVerdict(t, e, p, f, m);
      var y := PlanVerdict(t, e, q, g, n);
      if t.host.fold(y.adapterId) == t.host.fold(v.adapterId) {
        MergedUnranked(t, e, p, f, m, v, w);
      }
    }
  }
}
