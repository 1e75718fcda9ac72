/** Compiling an observed environment into gates, and judging a campaign's runtime results by them. */
module Manifest {
  import opened Outcomes
  import opened Ordering
  import opened Domain
  import opened GraphModels
  import opened Bridge
  import opened Trials
  import opened TrialOutcome
  import opened TrialWinner
  import opened TrialPrices

  // ---- The manifest ----

  const PROFILE_DATASET := "urn:li:dataset:(urn:li:dataPlatform:postgres,sira_demo.crm.customer_profile,PROD)"
  const SUPPORT_OWNER := "urn:li:corpGroup:support-data-owners"
  const ROOT_REQUIRED := {"body", "customer_email", "ticket_id"}
  const PROFILE_REQUIRED := {"customer_id", "email", "region"}

  datatype Observation = Observation(
    rootFields: set<string>,
    profileFields: set<string>,
    upstreamUrns: set<string>,
    ownerUrns: set<string>,
    allowedRegions: seq<string>,
    piiPresent: bool)

  datatype ManifestGate = ManifestGate(ruleId: string, gate: ProofGate)

  const REGION_GATE := ManifestGate("R-REGION-01", ExecutionRegion)
  const SCHEMA_GATE := ManifestGate("R-SCHEMA-01", RequiredSchema)
  const PII_GATE := ManifestGate("R-PII-01", RawPii)

  function RuleOf(g: ManifestGate): seq<string> { [g.ruleId] }

  datatype EvaluationManifest = EvaluationManifest(gates: seq<ManifestGate>, allowedRegions: seq<string>) {
    function GateSet(): set<ProofGate> {
      set g | g in gates :: g.gate
    }

    /** The gates every adapter is judged by. */
    function Expected(): set<ProofGate> {
      {FunctionalCanary} + GateSet()
    }
  }

  /** Why an observation cannot be compiled: the first thing found missing. */
  function Missing(o: Observation): Option<Error> {
    if !(ROOT_REQUIRED <= o.rootFields) || !(PROFILE_REQUIRED <= o.profileFields) then Some(MissingRequiredFields)
    else if PROFILE_DATASET !in o.upstreamUrns then Some(MissingProfileLineage)
    else if SUPPORT_OWNER !in o.ownerUrns then Some(MissingGoverningOwner)
    else if o.allowedRegions == [] then Some(MissingAllowedRegions)
    else None
  }

  /**
   * A complete observation compiles to the region and schema gates, and the egress gate exactly when
   * personal data is present, once each and in rule order; an incomplete one is refused.
   */
  method CompileManifest(o: Observation) returns (r: Result<EvaluationManifest, Error>)
    ensures r.Ok? <==> Missing(o).None?
    ensures r.Raise? ==> Missing(o) == Some(r.error)
    ensures r.Ok? ==>
              && r.value.GateSet() == {ExecutionRegion, RequiredSchema} + (if o.piiPresent then {RawPii} else {})
              && |r.value.gates| == |r.value.GateSet()|
              && Sorted(r.value.gates, ByKey(RuleOf))
              && r.value.allowedRegions == o.allowedRegions
  {
    if !(ROOT_REQUIRED <= o.rootFields) || !(PROFILE_REQUIRED <= o.profileFields) {
      return Raise(MissingRequiredFields);
    }
    if PROFILE_DATASET !in o.upstreamUrns {
      return Raise(MissingProfileLineage);
    }
    if SUPPORT_OWNER !in o.ownerUrns {
      return Raise(MissingGoverningOwner);
    }
    if o.allowedRegions == [] {
      return Raise(MissingAllowedRegions);
    }
    var gates := [REGION_GATE, SCHEMA_GATE];
    if o.piiPresent {
      gates := gates + [PII_GATE];
    }
    GatesCompiled(gates, o.piiPresent);
    gates := SortBy(gates, RuleOf);
    r := Ok(EvaluationManifest(gates, o.allowedRegions));
  }

  lemma GatesCompiled(gates: seq<ManifestGate>, pii: bool)
    requires gates == [REGION_GATE, SCHEMA_GATE] + if pii then [PII_GATE] else []
    ensures var sorted := SortBy(gates, RuleOf);
            && (set g | g in sorted :: g.gate) == {ExecutionRegion, RequiredSchema} + (if pii then {RawPii} else {})
            && |sorted| == |{ExecutionRegion, RequiredSchema} + (if pii then {RawPii} else {})|
            && Sorted(sorted, ByKey(RuleOf))
  {
    ByKeyOrder(RuleOf);
    SortSorts(gates, ByKey(RuleOf));
    SortPermutes(gates, ByKey(RuleOf));
    var sorted := SortBy(gates, RuleOf);
    assert REGION_GATE in gates && SCHEMA_GATE in gates && (pii ==> PII_GATE in gates) by {
      assert gates[0] == REGION_GATE && gates[1] == SCHEMA_GATE && (pii ==> gates[2] == PII_GATE);
    }
    assert forall g :: g in gates ==> g == REGION_GATE || g == SCHEMA_GATE || (pii && g == PII_GATE);
    assert forall g :: g in sorted <==> g in gates;
    assert REGION_GATE in sorted && SCHEMA_GATE in sorted;
    var three := {ExecutionRegion, RequiredSchema, RawPii};
    assert three - {RawPii} == {ExecutionRegion, RequiredSchema};
  }

  // ---- Judging runtime results ----

  datatype RuntimeResult = RuntimeResult(
    completed: bool,
    gateResults: Option<map<ProofGate, bool>>,
    artifactDigest: Option<string>,
    resultHash: Option<string>,
    declaredRegion: Option<string>)

  datatype Release = Release(adapterId: string, artifactDigest: string, declaredRegion: string, priceCents: nat)

  /** Releases by adapter; a later release of an adapter replaces an earlier one. */
  function ByAdapter(releases: seq<Release>): map<string, Release> {
    if releases == [] then map[]
    else ByAdapter(releases[..|releases| - 1])[releases[|releases| - 1].adapterId := releases[|releases| - 1]]
  }

  predicate GatePassed(r: RuntimeResult, g: ProofGate) {
    r.gateResults.Some? && g in r.gateResults.value && r.gateResults.value[g]
  }

  function FailuresOf(manifest: EvaluationManifest, r: RuntimeResult): Result<set<Failure>, Error> {
    if !r.completed then Ok((set g | g in manifest.Expected() :: GateFailed(g)) + {RuntimeIncomplete})
    else if r.gateResults.None? then Raise(InvalidGateResults)
    else Ok(set g | g in manifest.Expected() && !GatePassed(r, g) :: GateFailed(g))
  }

  /** What a campaign is judged from. */
  datatype Campaign = Campaign(
    manifest: EvaluationManifest,
    results: map<string, RuntimeResult>,
    releases: Option<seq<Release>>,
    curated: map<string, nat>)
  {
    /** The adapters of the campaign with their prices in cents. */
    function Prices(): map<string, nat> {
      match releases
      case None => curated
      case Some(rs) => map a | a in ByAdapter(rs) :: ByAdapter(rs)[a].priceCents
    }

    /** Published releases must be exactly the curated adapters. */
    predicate Bound() {
      releases.Some? ==> ByAdapter(releases.value).Keys == curated.Keys
    }

    /** The release an adapter's result is checked against, if releases are given. */
    function ReleaseOf(adapterId: string): Option<Release> {
      if releases.Some? && adapterId in ByAdapter(releases.value) then Some(ByAdapter(releases.value)[adapterId])
      else None
    }
  }

  /** The verdict on one adapter, or the reason its result cannot be judged. */
  function Judge(c: Campaign, adapterId: string): (v: Result<CandidateVerdict, Error>)
    ensures v.Ok? ==> v.value.adapterId == adapterId
  {
    if adapterId !in c.results || adapterId !in c.Prices() then Raise(MissingRuntimeResult)
    else
      var result := c.results[adapterId];
      var failed :- FailuresOf(c.manifest, result);
      if result.artifactDigest.None? || result.resultHash.None? then Raise(MissingRuntimeIdentity)
      else
        var release := c.ReleaseOf(adapterId);
        if release.Some? && result.artifactDigest.value != release.value.artifactDigest then Raise(SubstitutedDigest)
        else if release.Some? && result.declaredRegion != Some(release.value.declaredRegion)
          then Raise(MismatchedRegion)
        else Ok(CandidateVerdict(adapterId, failed == {}, failed, c.Prices()[adapterId]))
  }

  function Judger(c: Campaign): string -> Result<CandidateVerdict, Error> {
    (adapterId: string) => Judge(c, adapterId)
  }

  function Verdicts(c: Campaign): Result<seq<CandidateVerdict>, Error> {
    Traverse(SortedIds(c.Prices().Keys), Judger(c))
  }

  datatype CampaignDecision = CampaignDecision(winner: Winner, verdicts: seq<CandidateVerdict>)

  function Decide(host: Host, c: Campaign, evaluatedAt: int): Result<CampaignDecision, Error> {
    if !c.Bound() then Raise(UnboundAdapterSet)
    else
      var verdicts :- Verdicts(c);
      var winner :- EvaluateWithDecisionGraph(host, c.manifest.GateSet(), verdicts, evaluatedAt);
      Ok(CampaignDecision(winner, verdicts))
  }

  /** Judges the adapters one by one in identifier order. */
  method JudgeAll(c: Campaign) returns (r: Result<seq<CandidateVerdict>, Error>)
    ensures r == Verdicts(c)
  {
    var adapters := SortedIds(c.Prices().Keys);
    var verdicts: seq<CandidateVerdict> := [];
    LoopStarts(adapters, Judger(c));
    for i := 0 to |adapters|
      invariant Verdicts(c) == After(verdicts, Traverse(adapters[i..], Judger(c)))
    {
      LoopStep(adapters, i, Judger(c), verdicts);
      var verdict := Judge(c, adapters[i]);
      if verdict.Raise? {
        return Raise(verdict.error);
      }
      verdicts := verdicts + [verdict.value];
    }
    LoopEnds(adapters, Judger(c), verdicts);
    r := Ok(verdicts);
  }

  /** Judges every adapter, then runs the decision graph on the verdicts. */
  method EvaluateCampaign(host: Host, c: Campaign, evaluatedAt: int) returns (r: Result<CampaignDecision, Error>)
    ensures r == Decide(host, c, evaluatedAt)
  {
    hide EvaluateWithDecisionGraph, Verdicts;
    if !c.Bound() {
      return Raise(UnboundAdapterSet);
    }
    var verdicts := JudgeAll(c);
    if verdicts.Raise? {
      return Raise(verdicts.error);
    }
    var winner := RunBridge(host, c.manifest.GateSet(), verdicts.value, evaluatedAt);
    if winner.Raise? {
      return Raise(winner.error);
    }
    r := Ok(CampaignDecision(winner.value, verdicts.value));
  }

  // ---- What a verdict means ----

  /** A verdict is eligible exactly when the run completed and every expected gate came out true. */
  lemma EligibleExact(c: Campaign, adapterId: string)
    requires Judge(c, adapterId).Ok?
    ensures adapterId in c.results && adapterId in c.Prices()
    ensures var v, r := Judge(c, adapterId).value, c.results[adapterId];
            && v.priceCents == c.Prices()[adapterId]
            && (v.eligible <==> r.completed && forall g :: g in c.manifest.Expected() ==> GatePassed(r, g))
            && (forall g :: g in c.manifest.Expected() ==> (Passed(v, g) <==> r.completed && GatePassed(r, g)))
  {
    var v, r := Judge(c, adapterId).value, c.results[adapterId];
    assert FunctionalCanary in c.manifest.Expected();
    assert FailuresOf(c.manifest, r) == Ok(v.failed);
    forall g | g in c.manifest.Expected() ensures GateFailed(g) !in v.failed <==> r.completed && GatePassed(r, g) {}
    if v.failed != {} {
      var f :| f in v.failed;
      if r.completed { assert f.GateFailed? && f.gate in c.manifest.Expected(); }
    }
    if !r.completed { assert RuntimeIncomplete in v.failed; }
  }

  lemma EligibleIsClear(c: Campaign, adapterId: string)
    requires Judge(c, adapterId).Ok? && FunctionalCanary !in c.manifest.GateSet()
    ensures Judge(c, adapterId).value.eligible <==> Clear(ActiveGates(c.manifest.GateSet()), Judge(c, adapterId).value)
  {
    EligibleExact(c, adapterId);
    ActiveDistinct(c.manifest.GateSet());
    assert FunctionalCanary in ActiveGates(c.manifest.GateSet());
  }

  // ---- What a campaign decides ----

  /** Folding and replacing hyphens keep the adapters apart. */
  ghost predicate KeepsApart(host: Host, adapters: set<string>) {
    && (forall a, b :: a in adapters && b in adapters && host.fold(a) == host.fold(b) ==> a == b)
    && (forall a, b :: a in adapters && b in adapters && Suffix(a) == Suffix(b) ==> a == b)
  }

  function PlanFor(host: Host, adapterId: string): string {
    host.planId(Replace, [host.fold(adapterId)])
  }

  /** Folding is also stable on the adapters and their offers, and their plan identifiers differ. */
  ghost predicate Apart(host: Host, adapters: set<string>) {
    && KeepsApart(host, adapters)
    && (forall a :: a in adapters ==> FoldsStably(host, a) && FoldsStably(host, OfferIdOf(a)))
    && (forall a, b ::
         a in adapters && b in adapters && PlanFor(host, a) == PlanFor(host, b) ==> host.fold(a) == host.fold(b))
  }

  /** One verdict for each adapter, in identifier order. */
  lemma VerdictsAre(c: Campaign, verdicts: seq<CandidateVerdict>)
    requires Verdicts(c) == Ok(verdicts)
    ensures |verdicts| == |SortedIds(c.Prices().Keys)|
    ensures forall i :: 0 <= i < |verdicts| ==> Judge(c, SortedIds(c.Prices().Keys)[i]) == Ok(verdicts[i])
    ensures forall v :: v in verdicts <==> v.adapterId in c.Prices() && Judge(c, v.adapterId) == Ok(v)
  {
    var adapters := SortedIds(c.Prices().Keys);
    TraversePointwise(adapters, Judger(c));
    forall v ensures v in verdicts <==> v.adapterId in c.Prices() && Judge(c, v.adapterId) == Ok(v) {
      if v in verdicts {
        var i :| 0 <= i < |verdicts| && verdicts[i] == v;
        assert Judger(c)(adapters[i]) == Ok(verdicts[i]) && adapters[i] in adapters;
      }
      if v.adapterId in c.Prices() && Judge(c, v.adapterId) == Ok(v) {
        assert v.adapterId in adapters;
        var i :| 0 <= i < |adapters| && adapters[i] == v.adapterId;
        assert Judger(c)(adapters[i]) == Ok(verdicts[i]);
      }
    }
  }

  function TrialOf(host: Host, c: Campaign, verdicts: seq<CandidateVerdict>, evaluatedAt: int): Trial {
    Trial(host, c.manifest.GateSet(), verdicts, evaluatedAt)
  }

  function AdapterOf(v: CandidateVerdict): string { v.adapterId }

  lemma FoldsApart(host: Host, keys: set<string>, verdicts: seq<CandidateVerdict>)
    requires KeepsApart(host, keys) && Distinct(Map(verdicts, AdapterOf))
    requires forall v :: v in verdicts ==> v.adapterId in keys
    ensures Distinct(Map(verdicts, AdapterFold(host))) && Distinct(Map(verdicts, SuffixOf))
  {
    hide Suffix;
    FinerDistinct(verdicts, AdapterOf, AdapterFold(host));
    FinerDistinct(verdicts, AdapterOf, SuffixOf);
  }

  lemma {:induction false} FinerDistinct<T, U, V>(s: seq<T>, f: T -> U, g: T -> V)
    requires Distinct(Map(s, f))
    requires forall x, y :: x in s && y in s && g(x) == g(y) ==> f(x) == f(y)
    ensures Distinct(Map(s, g))
  {
    DistinctVia(s, f, s, g);
  }

  lemma VerdictsInOrder(c: Campaign, verdicts: seq<CandidateVerdict>)
    requires Verdicts(c) == Ok(verdicts)
    ensures Map(verdicts, AdapterOf) == SortedIds(c.Prices().Keys)
    ensures forall v :: v in verdicts ==> v.adapterId in c.Prices().Keys
  {
    hide Judge, SortedIds;
    var adapters := SortedIds(c.Prices().Keys);
    TraversePointwise(adapters, Judger(c));
    forall i | 0 <= i < |verdicts| ensures AdapterOf(verdicts[i]) == adapters[i] && adapters[i] in c.Prices().Keys {
      assert Judge(c, adapters[i]) == Ok(verdicts[i]) && adapters[i] in adapters;
    }
    forall v | v in verdicts ensures v.adapterId in c.Prices().Keys {
      var i :| 0 <= i < |verdicts| && verdicts[i] == v;
      assert AdapterOf(verdicts[i]) == adapters[i];
    }
  }

  lemma VerdictsApart(host: Host, c: Campaign, verdicts: seq<CandidateVerdict>)
    requires Verdicts(c) == Ok(verdicts) && Apart(host, c.Prices().Keys)
    ensures Distinct(Map(verdicts, AdapterFold(host))) && Distinct(Map(verdicts, SuffixOf))
  {
    hide Verdicts, KeepsApart, SortedIds, AdapterFold, SuffixOf, Distinct;
    VerdictsInOrder(c, verdicts);
    SortedIdsIncrease(c.Prices().Keys);
    FoldsApart(host, c.Prices().Keys, verdicts);
  }

  lemma CampaignSeparated(host: Host, c: Campaign, verdicts: seq<CandidateVerdict>, evaluatedAt: int)
    requires Verdicts(c) == Ok(verdicts) && Apart(host, c.Prices().Keys) && FunctionalCanary !in c.manifest.GateSet()
    ensures TrialOf(host, c, verdicts, evaluatedAt).Separated()
            && PlanIdsSeparate(TrialOf(host, c, verdicts, evaluatedAt))
  {
    hide Verdicts, KeepsApart, SortedIds, AdapterFold, SuffixOf, Distinct;
    VerdictsApart(host, c, verdicts);
    VerdictsInOrder(c, verdicts);
    PlansApart(host, c.Prices().Keys, TrialOf(host, c, verdicts, evaluatedAt));
  }

  lemma PlansApart(host: Host, keys: set<string>, t: Trial)
    requires t.host == host && Apart(host, keys) && forall v :: v in t.verdicts ==> v.adapterId in keys
    ensures PlanIdsSeparate(t)
  {
    forall v, w | v in t.verdicts && w in t.verdicts && PlanIdOf(t, v) == PlanIdOf(t, w)
      ensures host.fold(v.adapterId) == host.fold(w.adapterId)
    {
      assert PlanFor(host, v.adapterId) == PlanFor(host, w.adapterId);
    }
  }

  /** v is eligible, and no eligible verdict comes before it by what the plans are charged. */
  ghost predicate FirstEligible(t: Trial, v: CandidateVerdict) {
    v in t.verdicts && v.eligible && forall w :: w in t.verdicts && w.eligible ==> !ChargedBefore(t, w, v)
  }

  /** v is eligible, and no eligible verdict is cheaper or as cheap with an earlier identifier. */
  ghost predicate CheapestEligible(t: Trial, v: CandidateVerdict) {
    v in t.verdicts && v.eligible && forall w :: w in t.verdicts && w.eligible ==> !Precedes(t.host, w, v)
  }

  /** Adapters that share a folded offer identifier declare the same price. */
  ghost predicate OffersAgree(host: Host, prices: map<string, nat>) {
    forall a, b ::
        a in prices && b in prices && host.fold(OfferIdOf(a)) == host.fold(OfferIdOf(b)) ==> prices[a] == prices[b]
  }

  lemma EligibleVerdicts(c: Campaign, verdicts: seq<CandidateVerdict>)
    requires Verdicts(c) == Ok(verdicts) && FunctionalCanary !in c.manifest.GateSet()
    ensures forall v :: v in verdicts ==> (v.eligible <==> Clear(ActiveGates(c.manifest.GateSet()), v))
  {
    VerdictsAre(c, verdicts);
    forall v | v in verdicts ensures v.eligible <==> Clear(ActiveGates(c.manifest.GateSet()), v) {
      EligibleIsClear(c, v.adapterId);
    }
  }

  /**
   * A campaign whose results can all be judged is decided exactly when some adapter is eligible, and
   * the winner is then the first eligible adapter by what the plans are charged.
   */
  lemma CampaignExact(host: Host, c: Campaign, verdicts: seq<CandidateVerdict>, evaluatedAt: int)
    requires c.Bound() && Verdicts(c) == Ok(verdicts)
    requires Apart(host, c.Prices().Keys) && FunctionalCanary !in c.manifest.GateSet()
    ensures Decide(host, c, evaluatedAt).Ok? <==> exists v :: v in verdicts && v.eligible
    ensures Decide(host, c, evaluatedAt).Raise? ==> Decide(host, c, evaluatedAt).error == NoStableWinner
    ensures Decide(host, c, evaluatedAt).Ok? ==>
              var d := Decide(host, c, evaluatedAt).value;
              && d.verdicts == verdicts
              && exists v ::
                 FirstEligible(TrialOf(host, c, verdicts, evaluatedAt), v)
                   && d.winner.adapterId == host.fold(v.adapterId)
  {
    hide EvaluateWithDecisionGraph, ActiveGates, Verdicts, ChargedBefore, Apart;
    var t := TrialOf(host, c, verdicts, evaluatedAt);
    CampaignSeparated(host, c, verdicts, evaluatedAt);
    WinnerExact(t);
    EligibleVerdicts(c, verdicts);
    if AnyClear(t) {
      var v :| First(t, v) && WonBy(t, v);
      assert FirstEligible(t, v);
    }
  }

  lemma PricesCarry(host: Host, c: Campaign, t: Trial)
    requires t.host == host && OffersAgree(host, c.Prices())
    requires forall v :: v in t.verdicts ==> v.adapterId in c.Prices() && v.priceCents == c.Prices()[v.adapterId]
    ensures OrdersAgree(t)
  {
    assert SharedPrices(t) by {
      forall v, w | v in t.verdicts && w in t.verdicts && OfferFold(host)(v) == OfferFold(host)(w)
        ensures v.priceCents == w.priceCents
      {
        OfferFoldIs(host, v);
        OfferFoldIs(host, w);
      }
    }
    SharedPricesAgree(t);
  }

  /** The orders of a judged campaign agree where shared offers have one price. */
  lemma CampaignAgrees(host: Host, c: Campaign, verdicts: seq<CandidateVerdict>, evaluatedAt: int)
    requires Verdicts(c) == Ok(verdicts) && OffersAgree(host, c.Prices())
    ensures OrdersAgree(TrialOf(host, c, verdicts, evaluatedAt))
  {
    hide OffersAgree, OrdersAgree, Verdicts;
    VerdictsAre(c, verdicts);
    forall v | v in verdicts ensures v.adapterId in c.Prices() && v.priceCents == c.Prices()[v.adapterId] {
      EligibleExact(c, v.adapterId);
    }
    PricesCarry(host, c, TrialOf(host, c, verdicts, evaluatedAt));
  }

  /** Where adapters sharing an offer identifier share a price, the winner is the cheapest eligible adapter. */
  lemma CheapestDecided(host: Host, c: Campaign, verdicts: seq<CandidateVerdict>, evaluatedAt: int)
    requires c.Bound() && Verdicts(c) == Ok(verdicts)
    requires Apart(host, c.Prices().Keys) && FunctionalCanary !in c.manifest.GateSet()
    requires OffersAgree(host, c.Prices()) && Decide(host, c, evaluatedAt).Ok?
    ensures exists v :: CheapestEligible(TrialOf(host, c, verdicts, evaluatedAt), v)
                        && Decide(host, c, evaluatedAt).value.winner.adapterId == host.fold(v.adapterId)
  {
    hide Decide, ChargedBefore, Precedes, Verdicts, Apart, OffersAgree;
    var t := TrialOf(host, c, verdicts, evaluatedAt);
    CampaignExact(host, c, verdicts, evaluatedAt);
    CampaignAgrees(host, c, verdicts, evaluatedAt);
    var v :| FirstEligible(t, v) && Decide(host, c, evaluatedAt).value.winner.adapterId == host.fold(v.adapterId);
    assert CheapestEligible(t, v);
  }

  /** The same campaign under another manifest. */
  function Under(c: Campaign, manifest: EvaluationManifest): Campaign {
    c.(manifest := manifest)
  }

  lemma FewerGates(c: Campaign, fewer: EvaluationManifest, adapterId: string)
    requires fewer.GateSet() <= c.manifest.GateSet() && Judge(c, adapterId).Ok?
    ensures Judge(Under(c, fewer), adapterId).Ok?
    ensures Judge(Under(c, fewer), adapterId).value.priceCents == Judge(c, adapterId).value.priceCents
    ensures Judge(c, adapterId).value.eligible ==> Judge(Under(c, fewer), adapterId).value.eligible
  {
    EligibleExact(c, adapterId);
    EligibleExact(Under(c, fewer), adapterId);
  }

  lemma FewerJudged(c: Campaign, fewer: EvaluationManifest, verdicts: seq<CandidateVerdict>)
    requires fewer.GateSet() <= c.manifest.GateSet() && Verdicts(c) == Ok(verdicts)
    ensures Verdicts(Under(c, fewer)).Ok?
  {
    VerdictsAre(c, verdicts);
    var adapters := SortedIds(c.Prices().Keys);
    assert Under(c, fewer).Prices() == c.Prices();
    TraversePointwise(adapters, Judger(Under(c, fewer)));
    forall i | 0 <= i < |adapters| ensures Judger(Under(c, fewer))(adapters[i]).Ok? {
      FewerGates(c, fewer, adapters[i]);
    }
  }

  /** The adapter a campaign chose, before folding. */
  ghost predicate Chose(t: Trial, d: CampaignDecision, v: CandidateVerdict) {
    d.verdicts == t.verdicts && FirstEligible(t, v) && d.winner.adapterId == t.host.fold(v.adapterId)
  }

  lemma DecidedBy(host: Host, c: Campaign, evaluatedAt: int) returns (t: Trial, v: CandidateVerdict)
    requires Apart(host, c.Prices().Keys) && FunctionalCanary !in c.manifest.GateSet()
    requires Decide(host, c, evaluatedAt).Ok?
    ensures c.Bound() && Verdicts(c) == Ok(Decide(host, c, evaluatedAt).value.verdicts)
    ensures t == TrialOf(host, c, Decide(host, c, evaluatedAt).value.verdicts, evaluatedAt)
    ensures Chose(t, Decide(host, c, evaluatedAt).value, v)
  {
    hide EvaluateWithDecisionGraph, ActiveGates, Verdicts, FirstEligible, Apart;
    var verdicts := Verdicts(c).value;
    t := TrialOf(host, c, verdicts, evaluatedAt);
    CampaignExact(host, c, verdicts, evaluatedAt);
    v :| FirstEligible(t, v) && Decide(host, c, evaluatedAt).value.winner.adapterId == host.fold(v.adapterId);
  }

  /** A verdict's place in the charged order is that of any verdict with its adapter and price. */
  lemma SamePlace(t: Trial, v: CandidateVerdict, v': CandidateVerdict, w: CandidateVerdict)
    requires v in t.verdicts && v.adapterId == v'.adapterId && v.priceCents == v'.priceCents
    ensures ChargedBefore(t, v, w) <==> ChargedBefore(t, v', w)
  {
    OfferFoldIs(t.host, v);
    OfferFoldIs(t.host, v');
    SameCharger(t.host, t.verdicts, v, v');
  }

  /**
   * Dropping gates from the manifest never loses the decision and never moves the winner back in the
   * charged order; where adapters sharing an offer share a price, it never makes the winner dearer.
   */
  lemma DroppingGates(host: Host, c: Campaign, fewer: EvaluationManifest, evaluatedAt: int)
    returns (t: Trial, before: CandidateVerdict, u: Trial, after: CandidateVerdict)
    requires fewer.GateSet() <= c.manifest.GateSet()
    requires Apart(host, c.Prices().Keys) && FunctionalCanary !in c.manifest.GateSet()
    requires Decide(host, c, evaluatedAt).Ok?
    ensures Decide(host, Under(c, fewer), evaluatedAt).Ok?
    ensures t.host == u.host == host
    ensures Chose(t, Decide(host, c, evaluatedAt).value, before)
    ensures Chose(u, Decide(host, Under(c, fewer), evaluatedAt).value, after)
    ensures !ChargedBefore(u, before, after)
    ensures OffersAgree(host, c.Prices()) ==> after.priceCents <= before.priceCents
  {
    hide EvaluateWithDecisionGraph, Decide, Judge, ActiveGates, Verdicts, Apart, ChargedBefore, OrdersAgree,
         OffersAgree;
    var less := Under(c, fewer);
    assert less.Prices() == c.Prices() && (less.Bound() <==> c.Bound());
    t, before := DecidedBy(host, c, evaluatedAt);
    FewerJudged(c, fewer, t.verdicts);
    var verdicts' := Verdicts(less).value;
    VerdictsAre(c, t.verdicts);
    VerdictsAre(less, verdicts');
    FewerGates(c, fewer, before.adapterId);
    var still := Judge(less, before.adapterId).value;
    assert still in verdicts' && still.eligible;
    CampaignExact(host, less, verdicts', evaluatedAt);
    u, after := DecidedBy(host, less, evaluatedAt);
    SamePlace(u, still, before, after);
    if OffersAgree(host, c.Prices()) {
      CampaignAgrees(host, less, verdicts', evaluatedAt);
      NotDearer(u, still, after);
    }
  }

  lemma NotDearer(t: Trial, v: CandidateVerdict, w: CandidateVerdict)
    requires OrdersAgree(t) && v in t.verdicts && w in t.verdicts && !ChargedBefore(t, v, w)
    ensures w.priceCents <= v.priceCents
  {
    hide ChargedBefore;
    assert !Precedes(t.host, v, w);
  }
}
