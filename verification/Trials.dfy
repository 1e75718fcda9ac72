/** A proof campaign's input is well formed, and each verdict becomes one plan with known bounds. */
module Trials {
  import opened Outcomes
  import opened Ordering
  import opened GraphModels
  import opened Bridge

  function AdapterFold(host: Host): CandidateVerdict -> string {
    (v: CandidateVerdict) => host.fold(v.adapterId)
  }

  function OfferFold(host: Host): CandidateVerdict -> string {
    (v: CandidateVerdict) => host.fold(TrialOfferId(v))
  }

  lemma OfferFoldIs(host: Host, v: CandidateVerdict)
    ensures OfferFold(host)(v) == host.fold(OfferIdOf(v.adapterId))
  {
    assert OfferFold(host)(v) == host.fold(TrialOfferId(v));
  }

  predicate FoldsStably(host: Host, s: string) {
    host.fold(host.fold(s)) == host.fold(s)
  }

  function SuffixOf(v: CandidateVerdict): string { Suffix(v.adapterId) }

  /** One run of the bridge: the manifest's gates, the verdicts, and the instant of evaluation. */
  datatype Trial = Trial(host: Host, manifestGates: set<ProofGate>, verdicts: seq<CandidateVerdict>, evaluatedAt: int) {
    function Active(): seq<ProofGate> {
      ActiveGates(manifestGates)
    }

    function Context(): DecisionContext {
      TrialContext(Active(), verdicts, evaluatedAt)
    }

    function Input(): DecisionInput {
      BuildDecisionGraphInput(manifestGates, verdicts, evaluatedAt)
    }

    function Candidate(v: CandidateVerdict): RawCandidate {
      TrialCandidate(Active())(v)
    }

    /**
     * Folding adapter and offer identifiers is stable, adapters stay apart when folded and when hyphens
     * become underscores, and the canary is not a manifest gate.
     */
    ghost predicate Separated() {
      && (forall v :: v in verdicts ==> FoldsStably(host, v.adapterId) && FoldsStably(host, TrialOfferId(v)))
      && Distinct(Map(verdicts, AdapterFold(host)))
      && Distinct(Map(verdicts, SuffixOf))
      && FunctionalCanary !in manifestGates
    }

    /** The verdict whose offer v's record is charged by. */
    function Charger(v: CandidateVerdict): CandidateVerdict {
      ChargerOf(host, verdicts, v)
    }

    /** What v's plan costs, in cents. */
    function Charged(v: CandidateVerdict): nat {
      Charger(v).priceCents
    }
  }

  /** The last verdict whose folded offer identifier is v's. */
  function ChargerOf(host: Host, verdicts: seq<CandidateVerdict>, v: CandidateVerdict): (c: CandidateVerdict)
    ensures OfferFold(host)(c) == OfferFold(host)(v)
    ensures v in verdicts ==> c in verdicts
  {
    if verdicts == [] then v
    else
      var last := verdicts[|verdicts| - 1];
      if OfferFold(host)(last) == OfferFold(host)(v) then last else ChargerOf(host, verdicts[..|verdicts| - 1], v)
  }

  // ---- Identifiers ----

  lemma PrefixCancels(prefix: string, a: string, b: string)
    requires prefix + a == prefix + b
    ensures a == b
  {
    assert (prefix + a)[|prefix|..] == a && (prefix + b)[|prefix|..] == b;
  }

  lemma LowerNames(g: ProofGate, h: ProofGate)
    requires g.Lower() == h.Lower()
    ensures g == h
  {
    var a, b := g.Lower(), h.Lower();
    assert a[0] == b[0] && a[1] == b[1];
  }

  lemma GateNames(g: ProofGate, h: ProofGate)
    ensures g.SourceId() == h.SourceId() ==> g == h
    ensures g.Field() == h.Field() ==> g == h
    ensures g.RuleId() == h.RuleId() ==> g == h
  {
    hide ProofGate.Lower;
    if g.SourceId() == h.SourceId() { PrefixCancels("manifest_", g.Lower(), h.Lower()); LowerNames(g, h); }
    if g.Field() == h.Field() { PrefixCancels("proof.", g.Lower(), h.Lower()); LowerNames(g, h); }
    if g.RuleId() == h.RuleId() { PrefixCancels("proof_gate_", g.Lower(), h.Lower()); LowerNames(g, h); }
  }

  /** Gates are never mistaken for the price policy or the price field. */
  lemma PriceApart(g: ProofGate)
    ensures g.SourceId() != PRICE_POLICY
    ensures g.Field() != PRICE_FIELD
    ensures g.Field()[0] == 'p'
  {
    assert g.SourceId()[0] == 'm' && PRICE_POLICY[0] == 'p';
    assert g.Field()[6] == g.Lower()[0] && PRICE_FIELD[6] == 'd';
  }

  /** Distinct keys carry over to another key that is at least as fine. */
  lemma DistinctVia<S, T, U, V>(s: seq<S>, f: S -> U, t: seq<T>, g: T -> V)
    requires |s| == |t| && Distinct(Map(s, f))
    requires forall i, j :: 0 <= i < |s| && 0 <= j < |s| && g(t[i]) == g(t[j]) ==> f(s[i]) == f(s[j])
    ensures Distinct(Map(t, g))
  {
    forall i, j | 0 <= i < j < |t| ensures Map(t, g)[i] != Map(t, g)[j] {
      assert Map(s, f)[i] != Map(s, f)[j];
    }
  }

  function Itself<T>(x: T): T { x }

  lemma NamesAll(g: ProofGate)
    ensures g in GATES_BY_NAME
  {
    match g
    case ExecutionRegion => assert GATES_BY_NAME[0] == g;
    case FunctionalCanary => assert GATES_BY_NAME[1] == g;
    case RawPii => assert GATES_BY_NAME[2] == g;
    case RequiredSchema => assert GATES_BY_NAME[3] == g;
  }

  lemma ActiveDistinct(manifestGates: set<ProofGate>)
    requires FunctionalCanary !in manifestGates
    ensures Distinct(Map(ActiveGates(manifestGates), Itself))
    ensures forall g :: g in ActiveGates(manifestGates) <==> g == FunctionalCanary || g in manifestGates
  {
    var keep := (g: ProofGate) => g in manifestGates;
    var rest := Filter(GATES_BY_NAME, keep);
    assert Distinct(Map(GATES_BY_NAME, Itself));
    FilterKeepsDistinct(GATES_BY_NAME, keep, Itself);
    assert ActiveGates(manifestGates) == [FunctionalCanary] + rest;
    DistinctTail([FunctionalCanary] + rest, Itself);
    assert ([FunctionalCanary] + rest)[1..] == rest;
    forall g: ProofGate ensures g in GATES_BY_NAME { NamesAll(g); }
  }

  lemma FactIdsDistinct(active: seq<ProofGate>)
    requires Distinct(Map(active, Itself))
    ensures Distinct(Map(Map(active, GateFact) + [PRICE_FACT], FactId))
  {
    var facts := Map(active, GateFact) + [PRICE_FACT];
    forall i, j | 0 <= i < j < |facts| ensures Map(facts, FactId)[i] != Map(facts, FactId)[j] {
      assert facts[i] == GateFact(active[i]);
      PriceApart(active[i]);
      if j < |active| {
        assert facts[j] == GateFact(active[j]);
        GateNames(active[i], active[j]);
        assert Map(active, Itself)[i] != Map(active, Itself)[j];
      }
    }
  }

  lemma GateIdsDistinct(active: seq<ProofGate>)
    requires Distinct(Map(active, Itself))
    ensures Distinct(Map(Map(active, TrialGate), GateId))
  {
    forall i, j | 0 <= i < |active| && 0 <= j < |active|
        && GateId(Map(active, TrialGate)[i]) == GateId(Map(active, TrialGate)[j])
      ensures active[i] == active[j]
    {
      GateNames(active[i], active[j]);
    }
    DistinctVia(active, Itself, Map(active, TrialGate), GateId);
  }

  lemma SameSuffix(v: CandidateVerdict, w: CandidateVerdict)
    ensures TrialRecordId(v) == TrialRecordId(w) ==> SuffixOf(v) == SuffixOf(w)
    ensures TrialEvidenceId(v) == TrialEvidenceId(w) ==> SuffixOf(v) == SuffixOf(w)
    ensures TrialOfferId(v) == TrialOfferId(w) ==> SuffixOf(v) == SuffixOf(w)
  {
    var a, b := SuffixOf(v), SuffixOf(w);
    if TrialRecordId(v) == TrialRecordId(w) { PrefixCancels("proof_record_", a, b); }
    if TrialEvidenceId(v) == TrialEvidenceId(w) { PrefixCancels("proof_evidence_", a, b); }
    if TrialOfferId(v) == TrialOfferId(w) { PrefixCancels("proof_offer_", a, b); }
  }

  lemma SuffixesApart(t: Trial)
    requires Distinct(Map(t.verdicts, SuffixOf))
    ensures Distinct(Map(Map(t.verdicts, TrialCandidate(t.Active())), RecordId))
    ensures Distinct(Map(Map(t.verdicts, TrialOffer), OfferId))
    ensures Distinct(Map(Map(t.verdicts, TrialEvidence(t.evaluatedAt)), EvidenceId))
  {
    hide TrialRecordId, TrialEvidenceId, TrialOfferId, SuffixOf, ActiveGates, TrialFacts;
    var vs := t.verdicts;
    forall i, j | 0 <= i < |vs| && 0 <= j < |vs|
      ensures TrialRecordId(vs[i]) == TrialRecordId(vs[j]) ==> SuffixOf(vs[i]) == SuffixOf(vs[j])
      ensures TrialEvidenceId(vs[i]) == TrialEvidenceId(vs[j]) ==> SuffixOf(vs[i]) == SuffixOf(vs[j])
      ensures TrialOfferId(vs[i]) == TrialOfferId(vs[j]) ==> SuffixOf(vs[i]) == SuffixOf(vs[j])
    {
      SameSuffix(vs[i], vs[j]);
    }
    DistinctVia(vs, SuffixOf, Map(vs, TrialCandidate(t.Active())), RecordId);
    DistinctVia(vs, SuffixOf, Map(vs, TrialOffer), OfferId);
    DistinctVia(vs, SuffixOf, Map(vs, TrialEvidence(t.evaluatedAt)), EvidenceId);
  }

  lemma PolicyFieldsDistinct(active: seq<ProofGate>)
    ensures Distinct(Map(Map(SortedIds(PolicyFields(active)), TrialPolicy), PolicyField))
  {
    hide PolicyFields, SortedIds;
    var fields := SortedIds(PolicyFields(active));
    SortedIdsIncrease(PolicyFields(active));
    assert Map(Map(fields, TrialPolicy), PolicyField) == fields;
  }

  lemma SuffixesNeeded(t: Trial)
    requires Distinct(Map(Map(t.verdicts, TrialCandidate(t.Active())), RecordId))
    ensures Distinct(Map(t.verdicts, SuffixOf))
  {
    hide ActiveGates, TrialFacts;
    DistinctVia(Map(t.verdicts, TrialCandidate(t.Active())), RecordId, t.verdicts, SuffixOf);
  }

  lemma CanaryOnce(manifestGates: set<ProofGate>)
    requires FunctionalCanary in manifestGates
    ensures !Distinct(Map(Map(ActiveGates(manifestGates), GateFact) + [PRICE_FACT], FactId))
  {
    var active := ActiveGates(manifestGates);
    var facts := Map(active, GateFact) + [PRICE_FACT];
    var rest := Filter(GATES_BY_NAME, (g: ProofGate) => g in manifestGates);
    NamesAll(FunctionalCanary);
    var k :| 0 <= k < |rest| && rest[k] == FunctionalCanary;
    assert active[0] == FunctionalCanary && active[k + 1] == FunctionalCanary;
    assert Map(facts, FactId)[0] == Map(facts, FactId)[k + 1];
  }

  /**
   * The input passes the identifier checks of its construction exactly when no two adapters have the
   * same identifier but for hyphens and underscores, and the manifest does not repeat the canary.
   */
  lemma TrialIdentifiers(t: Trial)
    ensures t.Input().UniqueIdentifiers()
            <==> Distinct(Map(t.verdicts, SuffixOf)) && FunctionalCanary !in t.manifestGates
  {
    hide ActiveGates, TrialFacts, Suffix, Distinct, PolicyFields, SortedIds;
    if FunctionalCanary in t.manifestGates {
      CanaryOnce(t.manifestGates);
    } else if t.Input().UniqueIdentifiers() {
      SuffixesNeeded(t);
    } else if Distinct(Map(t.verdicts, SuffixOf)) {
      ActiveDistinct(t.manifestGates);
      FactIdsDistinct(t.Active());
      GateIdsDistinct(t.Active());
      SuffixesApart(t);
      PolicyFieldsDistinct(t.Active());
      OneEach(t);
    }
  }

  lemma OneEach(t: Trial)
    ensures Distinct(Map(t.Context().preferences, CriterionId)) && Distinct(Map(t.Context().riskRules, RuleId))
    ensures Distinct(Map(t.Context().currentActions, ActionId))
  {
  }
}
