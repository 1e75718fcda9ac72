/** What recall and evidence assessment make of a proof campaign's input. */
module TrialRecall {
  import opened Outcomes
  import opened Ordering
  import opened Domain
  import opened Bounds
  import opened GraphModels
  import opened Recall
  import opened PlainRecall
  import opened Evidence
  import opened Materials
  import opened Bridge
  import opened Trials

  // ---- Facts of one verdict ----

  /** The verdict states this value for this field. */
  ghost predicate States(active: seq<ProofGate>, v: CandidateVerdict, field: string, value: FactValue) {
    || (exists g :: g in active && field == g.Field() && value == Truth(Passed(v, g)))
    || (field == PRICE_FIELD && value == Whole(v.priceCents))
  }

  lemma StatesOnce(active: seq<ProofGate>, v: CandidateVerdict, field: string, x: FactValue, y: FactValue)
    requires States(active, v, field, x) && States(active, v, field, y)
    ensures x == y && field != LANDED_TOTAL && field in PolicyFields(active)
  {
    if g :| g in active && field == g.Field() && x == Truth(Passed(v, g)) {
      PriceApart(g);
      assert FieldOf(g) in PolicyFields(active);
      if h :| h in active && field == h.Field() && y == Truth(Passed(v, h)) { GateNames(g, h); }
    } else {
      forall h | h in active ensures field != h.Field() { PriceApart(h); }
    }
    assert field[0] == 'p' && LANDED_TOTAL[0] == 'o';
  }

  /** What a verdict states is exactly the facts of its candidate record, each backed by its evidence. */
  lemma CandidateFacts(active: seq<ProofGate>, v: CandidateVerdict)
    ensures forall f ::
            f in TrialFacts(active, v) ==> States(active, v, f.field, f.value) && f.evidenceIds == {TrialEvidenceId(v)}
    ensures forall field, value ::
            States(active, v, field, value) ==>
              ProductFact(field, value, {TrialEvidenceId(v)}, None) in TrialFacts(active, v)
  {
    var facts := TrialFacts(active, v);
    var gates := Map(active, TrialGateFact(v));
    assert facts == gates + [TrialPriceFact(v)];
    forall f | f in facts ensures States(active, v, f.field, f.value) && f.evidenceIds == {TrialEvidenceId(v)} {
      if f in gates {
        var i :| 0 <= i < |gates| && gates[i] == f;
        assert active[i] in active;
      }
    }
    forall field, value | States(active, v, field, value)
      ensures ProductFact(field, value, {TrialEvidenceId(v)}, None) in facts
    {
      if g :| g in active && field == g.Field() && value == Truth(Passed(v, g)) {
        var i :| 0 <= i < |active| && active[i] == g;
        assert gates[i] == ProductFact(field, value, {TrialEvidenceId(v)}, None);
      } else {
        assert TrialPriceFact(v) in facts;
      }
    }
  }

  /** The facts on the field all give this value on this evidence, and there is one. */
  ghost predicate Says(facts: seq<ProductFact>, field: string, value: FactValue, evidenceId: string) {
    && (exists f :: f in facts && f.field == field)
    && (forall f :: f in facts && f.field == field ==> f.value == value && f.evidenceIds == {evidenceId})
  }

  /** The record says what the verdict states, and nothing besides. */
  ghost predicate Speaks(facts: seq<ProductFact>, active: seq<ProofGate>, v: CandidateVerdict) {
    && (forall field, value :: States(active, v, field, value) ==> Says(facts, field, value, TrialEvidenceId(v)))
    && (forall f :: f in facts ==> States(active, v, f.field, f.value) && f.evidenceIds == {TrialEvidenceId(v)})
  }

  lemma MergedStates(host: Host, active: seq<ProofGate>, v: CandidateVerdict, product: string, g: ProductFact)
    requires g in MergeFacts(host, TrialFacts(active, v), product)
    ensures States(active, v, g.field, g.value) && g.evidenceIds == {TrialEvidenceId(v)}
  {
    var facts := TrialFacts(active, v);
    CandidateFacts(active, v);
    MergeAddsNothing(host, facts, product, g);
    var f :| f in facts && f.field == g.field && f.value == g.value;
    forall e ensures e in g.evidenceIds <==> e == TrialEvidenceId(v) {
      if e in g.evidenceIds {
        var x :| x in facts && x.field == g.field && x.value == g.value && e in x.evidenceIds;
      }
    }
  }

  lemma MergedSpeaks(host: Host, active: seq<ProofGate>, v: CandidateVerdict, product: string)
    ensures Speaks(MergeFacts(host, TrialFacts(active, v), product), active, v)
  {
    var facts := TrialFacts(active, v);
    var merged := MergeFacts(host, facts, product);
    forall g | g in merged ensures States(active, v, g.field, g.value) && g.evidenceIds == {TrialEvidenceId(v)} {
      MergedStates(host, active, v, product, g);
    }
    CandidateFacts(active, v);
    forall field, value | States(active, v, field, value) ensures Says(merged, field, value, TrialEvidenceId(v)) {
      MergeKeepsValues(host, facts, product, ProductFact(field, value, {TrialEvidenceId(v)}, None));
      forall g | g in merged && g.field == field
        ensures g.value == value { StatesOnce(active, v, field, g.value, value); }
    }
  }

  // ---- The record a verdict is represented by ----

  /** Everything later stages read of the record: it needs nothing, is available, and speaks for the verdict. */
  ghost predicate Represents(t: Trial, r: RawCandidate, v: CandidateVerdict) {
    && r.productId == t.host.fold(v.adapterId)
    && r.offerId == t.host.fold(TrialOfferId(v))
    && r.authority == SellerSealed && r.available
    && r.requiredProductIds == {} && r.sellerGateIds == {}
    && Speaks(r.facts, t.Active(), v)
  }

  function RecordOf(t: Trial, v: CandidateVerdict): RawCandidate {
    LoneRepresentative(t.host, t.Candidate(v))
  }

  lemma LoneRepresents(t: Trial, v: CandidateVerdict)
    ensures Represents(t, RecordOf(t, v), v)
  {
    var c := t.Candidate(v);
    assert AllFacts([c]) == c.facts == TrialFacts(t.Active(), v) by {
      assert FlatMap([c], FactsOf) == FactsOf(c) + FlatMap([c][1..], FactsOf);
    }
    MergedSpeaks(t.host, t.Active(), v, t.host.fold(v.adapterId));
  }

  lemma TrialIsPlain(t: Trial)
    requires Distinct(Map(t.verdicts, AdapterFold(t.host)))
    ensures Plain(t.host, t.Input())
  {
    hide TrialFacts, ActiveGates;
    var records := t.Input().candidates;
    DistinctVia(t.verdicts, AdapterFold(t.host), records, Folder(t.host));
    forall r | r in records ensures r.packStatus == Published {
      var i :| 0 <= i < |records| && records[i] == r;
    }
  }

  /** The representatives are one record for each verdict, and nothing else. */
  ghost predicate OnePerVerdict(t: Trial, representatives: seq<RawCandidate>) {
    && (forall r :: r in representatives ==> exists v :: v in t.verdicts && r == RecordOf(t, v))
    && (forall v :: v in t.verdicts ==> RecordOf(t, v) in representatives)
  }

  /** Where adapters stay apart when folded, recall neither drops nor merges any verdict. */
  lemma TrialRecalled(t: Trial)
    requires Distinct(Map(t.verdicts, AdapterFold(t.host)))
    ensures RecallAndDeduplicate(t.host, t.Input()).Ok?
    ensures OnePerVerdict(t, RecallAndDeduplicate(t.host, t.Input()).value.representatives)
  {
    TrialIsPlain(t);
    PlainRecallExact(t.host, t.Input());
    CandidatesRepresented(t, t.Input().candidates, RecallAndDeduplicate(t.host, t.Input()).value.representatives);
  }

  lemma CandidatesRepresented(t: Trial, records: seq<RawCandidate>, representatives: seq<RawCandidate>)
    requires records == Map(t.verdicts, TrialCandidate(t.Active()))
    requires forall r :: r in representatives <==> exists c :: c in records && r == LoneRepresentative(t.host, c)
    ensures OnePerVerdict(t, representatives)
  {
    hide LoneRepresentative, TrialFacts, ActiveGates, TrialRecordId, TrialOfferId;
    forall r | r in representatives ensures exists v :: v in t.verdicts && r == RecordOf(t, v) {
      var c :| c in records && r == LoneRepresentative(t.host, c);
      var i :| 0 <= i < |records| && records[i] == c;
      assert t.verdicts[i] in t.verdicts;
    }
    forall v | v in t.verdicts ensures RecordOf(t, v) in representatives {
      var i :| 0 <= i < |t.verdicts| && t.verdicts[i] == v;
      assert records[i] == t.Candidate(v) && records[i] in records;
    }
  }

  // ---- Evidence ----

  /** Acceptable evidence observed at the instant of evaluation. */
  function Now(evidenceId: string, field: string): EvidenceAssessment {
    EvidenceAssessment(evidenceId, field, Acceptable, false, Some(Interval(0.0, 0.0)))
  }

  /** What the assessment stage reads of the context. */
  ghost predicate Frozen(t: Trial, context: DecisionContext) {
    && context.evaluatedAt == t.evaluatedAt
    && context.evidencePolicies == Map(SortedIds(PolicyFields(t.Active())), TrialPolicy)
    && context.evidence == Map(t.verdicts, TrialEvidence(t.evaluatedAt))
    && context.currentActions == [] && context.outcomes == []
  }

  lemma PolicyFound(fields: seq<string>, field: string)
    requires field in fields
    ensures Find(Map(fields, TrialPolicy), (p: EvidencePolicy) => p.field == field) == Some(TrialPolicy(field))
  {
    var policies := Map(fields, TrialPolicy);
    var found := Find(policies, (p: EvidencePolicy) => p.field == field);
    var i :| 0 <= i < |fields| && fields[i] == field;
    assert policies[i].field == field;
    var k :| 0 <= k < |policies| && policies[k] == found.value;
  }

  lemma RecordFound(verdicts: seq<CandidateVerdict>, at: int, v: CandidateVerdict)
    requires Distinct(Map(Map(verdicts, TrialEvidence(at)), EvidenceId)) && v in verdicts
    ensures Find(Map(verdicts, TrialEvidence(at)), (r: EvidenceRecord) => r.evidenceId == TrialEvidenceId(v))
            == Some(TrialEvidence(at)(v))
  {
    var records := Map(verdicts, TrialEvidence(at));
    var found := Find(records, (r: EvidenceRecord) => r.evidenceId == TrialEvidenceId(v));
    var i :| 0 <= i < |verdicts| && verdicts[i] == v;
    assert records[i].evidenceId == TrialEvidenceId(v);
    var k :| 0 <= k < |records| && records[k] == found.value;
    var ids := Map(records, EvidenceId);
    assert ids[i] == ids[k];
  }

  lemma ZeroAge(at: int)
    ensures EvidenceAge(at, at, at, 3600) == Ok(Interval(0.0, 0.0))
  {
  }

  lemma CurrentNow(host: Host, at: int, v: CandidateVerdict, field: string)
    ensures Assess(host, at, TrialEvidence(at)(v), TrialPolicy(field)) == Ok(Now(TrialEvidenceId(v), field))
  {
    ZeroAge(at);
  }

  lemma AssessedNow(t: Trial, context: DecisionContext, v: CandidateVerdict, field: string)
    requires t.Separated() && Frozen(t, context) && v in t.verdicts && field in PolicyFields(t.Active())
    ensures AssessPair(t.host, context, TrialEvidenceId(v), field) == Ok(Now(TrialEvidenceId(v), field))
  {
    PolicyFound(SortedIds(PolicyFields(t.Active())), field);
    SuffixesApart(t);
    RecordFound(t.verdicts, t.evaluatedAt, v);
    CurrentNow(t.host, t.evaluatedAt, v, field);
  }

  /** The pair is some verdict's evidence with a field the policy covers. */
  ghost predicate Covered(t: Trial, p: seq<string>) {
    exists v, field :: v in t.verdicts && field in PolicyFields(t.Active()) && p == Pair(TrialEvidenceId(v), field)
  }

  lemma SpokenPair(active: seq<ProofGate>, facts: seq<ProductFact>, v: CandidateVerdict, p: seq<string>)
    requires Speaks(facts, active, v) && p in FactPairs(facts)
    ensures exists field :: field in PolicyFields(active) && p == Pair(TrialEvidenceId(v), field)
  {
    var f, e :| f in facts && e in f.evidenceIds && p == Pair(e, f.field);
    StatesOnce(active, v, f.field, f.value, f.value);
  }

  lemma MaterialFrom(context: DecisionContext, representatives: seq<RawCandidate>, p: seq<string>)
    requires context.currentActions == [] && context.outcomes == []
    ensures p in MaterialPairs(context, representatives)
            <==> exists r :: r in representatives && p in FactPairs(r.facts)
  {
    assert OutcomePairs(context) == {};
    assert (set a, q | a in context.currentActions && q in FactPairs(a.facts) :: q) == {};
  }

  lemma RepresentedPair(t: Trial, r: RawCandidate, v: CandidateVerdict, p: seq<string>)
    requires Represents(t, r, v) && v in t.verdicts && p in FactPairs(r.facts)
    ensures Covered(t, p)
  {
    SpokenPair(t.Active(), r.facts, v, p);
  }

  lemma MaterialPair(t: Trial, context: DecisionContext, representatives: seq<RawCandidate>, p: seq<string>)
    requires OnePerVerdict(t, representatives) && Frozen(t, context)
    requires p in MaterialPairs(context, representatives)
    ensures Covered(t, p)
  {
    hide RecordOf, MaterialPairs, Represents, FactPairs, PolicyFields;
    MaterialFrom(context, representatives, p);
    var r :| r in representatives && p in FactPairs(r.facts);
    var v :| v in t.verdicts && r == RecordOf(t, v);
    LoneRepresents(t, v);
    RepresentedPair(t, r, v, p);
  }

  lemma StatedPair(active: seq<ProofGate>, facts: seq<ProductFact>, v: CandidateVerdict, field: string,
      value: FactValue)
    requires Speaks(facts, active, v) && States(active, v, field, value)
    ensures Pair(TrialEvidenceId(v), field) in FactPairs(facts)
  {
    assert Says(facts, field, value, TrialEvidenceId(v));
    var f :| f in facts && f.field == field;
    assert TrialEvidenceId(v) in f.evidenceIds;
  }

  lemma PairIsMaterial(t: Trial, context: DecisionContext, representatives: seq<RawCandidate>, v: CandidateVerdict,
      field: string, value: FactValue)
    requires OnePerVerdict(t, representatives) && Frozen(t, context) && v in t.verdicts
             && States(t.Active(), v, field, value)
    ensures Pair(TrialEvidenceId(v), field) in MaterialPairs(context, representatives)
  {
    MaterialFrom(context, representatives, Pair(TrialEvidenceId(v), field));
    LoneRepresents(t, v);
    StatedPair(t.Active(), RecordOf(t, v).facts, v, field, value);
  }

  /** The assessment of evidence that is acceptable and current. */
  predicate IsCurrent(a: EvidenceAssessment) {
    a == Now(a.evidenceId, a.field)
  }

  /** All evidence is acceptable and current, and every stated field has its own. */
  ghost predicate AllCurrent(t: Trial, assessments: seq<EvidenceAssessment>) {
    && (forall a :: a in assessments ==> IsCurrent(a))
    && (forall v, field, value ::
         v in t.verdicts && States(t.Active(), v, field, value) ==>
           HasCurrent(IndexOf(assessments), TrialEvidenceId(v), field))
  }

  predicate HasCurrent(index: AssessmentIndex, evidenceId: string, field: string) {
    (evidenceId, field) in index && index[(evidenceId, field)] == Now(evidenceId, field)
  }

  lemma PairCurrent(t: Trial, context: DecisionContext, p: seq<string>)
    requires t.Separated() && Frozen(t, context) && Covered(t, p)
    ensures Assessor(t.host, context)(p).Ok? && IsCurrent(Assessor(t.host, context)(p).value)
  {
    var v, field :| v in t.verdicts && field in PolicyFields(t.Active()) && p == Pair(TrialEvidenceId(v), field);
    AssessedNow(t, context, v, field);
  }

  lemma TrialAssessable(t: Trial, context: DecisionContext, pairs: seq<seq<string>>)
    requires t.Separated() && Frozen(t, context)
    requires forall p :: p in pairs ==> Covered(t, p)
    ensures Traverse(pairs, Assessor(t.host, context)).Ok?
    ensures forall a :: a in Traverse(pairs, Assessor(t.host, context)).value ==> IsCurrent(a)
  {
    var assessor := Assessor(t.host, context);
    TraversePointwise(pairs, assessor);
    forall i | 0 <= i < |pairs| ensures assessor(pairs[i]).Ok? && IsCurrent(assessor(pairs[i]).value) {
      assert pairs[i] in pairs;
      PairCurrent(t, context, pairs[i]);
    }
    var assessments := Traverse(pairs, assessor).value;
    forall a | a in assessments ensures IsCurrent(a) {
      var i :| 0 <= i < |assessments| && assessments[i] == a;
      assert assessor(pairs[i]) == Ok(a);
    }
  }

  /** Every piece of evidence is found acceptable and current. */
  lemma TrialAssessed(t: Trial, context: DecisionContext, representatives: seq<RawCandidate>)
    requires t.Separated() && Frozen(t, context) && OnePerVerdict(t, representatives)
    ensures AssessEvidence(t.host, context, representatives).Ok?
    ensures AllCurrent(t, AssessEvidence(t.host, context, representatives).value)
  {
    var pairs := SortedTuples(MaterialPairs(context, representatives));
    forall p | p in pairs ensures Covered(t, p) { MaterialPair(t, context, representatives, p); }
    TrialAssessable(t, context, pairs);
    AssessedExactly(t.host, context, representatives);
    var assessments := AssessEvidence(t.host, context, representatives).value;
    forall v, field, value | v in t.verdicts && States(t.Active(), v, field, value)
      ensures HasCurrent(IndexOf(assessments), TrialEvidenceId(v), field)
    {
      PairIsMaterial(t, context, representatives, v, field, value);
      StatesOnce(t.Active(), v, field, value, value);
      AssessedNow(t, context, v, field);
    }
  }
}
