/** The plan each verdict of a proof campaign becomes. */
module TrialPlans {
  import opened Outcomes
  import opened Ordering
  import opened Domain
  import opened GraphModels
  import opened Gates
  import opened Closure
  import opened Materials
  import opened LonePlans
  import opened Bridge
  import opened Trials
  import opened TrialRecall

  // ---- Fields with one value ----

  lemma {:induction false} OneRepeated(values: seq<FactValue>, value: FactValue)
    requires values != [] && forall i :: 0 <= i < |values| ==> values[i] == value
    ensures Dedup(values) == [value]
  {
    if |values| > 1 { OneRepeated(values[..|values| - 1], value); }
  }

  lemma EvidenceOfOne(matching: seq<ProductFact>, e: string)
    requires matching != [] && forall f :: f in matching ==> f.evidenceIds == {e}
    ensures EvidenceIdsOf(matching) == {e}
  {
    assert matching[0] in matching && e in matching[0].evidenceIds;
  }

  lemma AssessmentOfOne(index: AssessmentIndex, e: string, field: string)
    requires HasCurrent(index, e, field)
    ensures AssessmentsOn({e}, field, index) == {Now(e, field)}
    ensures StatesOf({Now(e, field)}) == {Acceptable}
  {
    assert Now(e, field) in {Now(e, field)};
  }

  lemma ValuesOfOne(host: Host, matching: seq<ProductFact>, value: FactValue)
    requires matching != [] && forall f :: f in matching ==> f.value == value
    ensures ValuesOf(host, matching) == [value]
  {
    var values := Map(matching, FactValueOf);
    forall i | 0 <= i < |values| ensures values[i] == value { assert matching[i] in matching; }
    OneRepeated(values, value);
    SortOne(value, ByKey(ValueOrder(host)));
  }

  lemma MatchingField(facts: seq<ProductFact>, field: string, value: FactValue, e: string)
    requires Says(facts, field, value, e)
    ensures OnField(facts, field) != []
    ensures forall f :: f in OnField(facts, field) ==> f.value == value && f.evidenceIds == {e}
  {
    var some :| some in facts && some.field == field;
    assert some in OnField(facts, field);
  }

  /** A field with one value on current evidence has that value, acceptably. */
  lemma ConstantField(host: Host, facts: seq<ProductFact>, field: string, value: FactValue, e: string,
      index: AssessmentIndex)
    requires Says(facts, field, value, e) && HasCurrent(index, e, field)
    ensures FieldStateOf(host, facts, field, index) == FieldState([value], Acceptable, {e}, false)
  {
    MatchingField(facts, field, value, e);
    ConstantState(host, facts, field, OnField(facts, field), value, e, index);
  }

  lemma ConstantState(host: Host, facts: seq<ProductFact>, field: string, matching: seq<ProductFact>, value: FactValue,
      e: string, index: AssessmentIndex)
    requires matching == OnField(facts, field) && matching != []
    requires forall f :: f in matching ==> f.value == value && f.evidenceIds == {e}
    requires HasCurrent(index, e, field)
    ensures FieldStateOf(host, facts, field, index) == FieldState([value], Acceptable, {e}, false)
  {
    ValuesOfOne(host, matching, value);
    EvidenceOfOne(matching, e);
    AssessmentOfOne(index, e, field);
  }

  // ---- Materials ----

  /** The facts say everything the verdict states. */
  ghost predicate SaysAll(facts: seq<ProductFact>, active: seq<ProofGate>, v: CandidateVerdict) {
    forall field, value :: States(active, v, field, value) ==> Says(facts, field, value, TrialEvidenceId(v))
  }

  /** The material of a verdict v: one available component, sealed by its seller, at the offer of verdict c. */
  ghost predicate Stands(host: Host, active: seq<ProofGate>, m: PlanMaterial, v: CandidateVerdict, c: CandidateVerdict)
  {
    && m.action == Replace && m.componentIds == [host.fold(v.adapterId)]
    && m.available && m.authority == Some(SellerSealed) && m.dependencyIssues == []
    && m.cost == TrialOffer(c) && m.paymentComponentCount == 0
    && SaysAll(m.facts, active, v) && SaysAll(m.gateFacts, active, v)
  }

  lemma FoldedOffer(host: Host, v: CandidateVerdict)
    ensures CanonicalOffer(host, map[], TrialOffer(v).offerId) == OfferFold(host)(v)
  {
  }

  /** An offer identifier that some verdict has stands for the offer of the last such verdict. */
  lemma {:induction false} ChargedOffer(host: Host, verdicts: seq<CandidateVerdict>, v: CandidateVerdict)
    requires exists w :: w in verdicts && OfferFold(host)(w) == OfferFold(host)(v)
    ensures var offers := OfferMap(host, map[], Map(verdicts, TrialOffer));
            OfferFold(host)(v) in offers && offers[OfferFold(host)(v)] == TrialOffer(ChargerOf(host, verdicts, v))
  {
    hide TrialOffer, OfferFold;
    var before, last := verdicts[..|verdicts| - 1], verdicts[|verdicts| - 1];
    assert verdicts == before + [last];
    MapSnoc(before, last, TrialOffer);
    FoldedOffer(host, last);
    assert Map(verdicts, TrialOffer)[..|before|] == Map(before, TrialOffer);
    if OfferFold(host)(last) != OfferFold(host)(v) {
      ChargedOffer(host, before, v);
    }
  }

  /** Adding the landed total leaves what is said about other fields alone. */
  lemma StillSays(host: Host, facts: seq<ProductFact>, extra: seq<ProductFact>, active: seq<ProofGate>,
      v: CandidateVerdict)
    requires SaysAll(facts, active, v)
    requires forall f :: f in extra ==> f.field == LANDED_TOTAL
    ensures SaysAll(Filter(facts, NotLandedTotal) + extra, active, v)
  {
    var all := Filter(facts, NotLandedTotal) + extra;
    forall field, value | States(active, v, field, value) ensures Says(all, field, value, TrialEvidenceId(v)) {
      StatesOnce(active, v, field, value, value);
      assert Says(facts, field, value, TrialEvidenceId(v));
      var f :| f in facts && f.field == field;
      assert f in all;
    }
  }

  lemma OneCost(host: Host, r: RawCandidate, offers: map<string, OfferCost>, c: CandidateVerdict)
    requires r.offerId in offers && offers[r.offerId] == TrialOffer(c)
    ensures CombinedCost(host, [r], offers) == (TrialOffer(c), 0, {})
  {
    assert Present(offers, [r]) == [TrialOffer(c)] + Present(offers, [r][1..]);
    assert Filter([TrialOffer(c)], Pays) == [];
  }

  /** One record that needs nothing, with a known offer, makes a material on its own. */
  lemma LoneMaterial(t: Trial, context: DecisionContext, offers: map<string, OfferCost>, r: RawCandidate,
      v: CandidateVerdict, c: CandidateVerdict)
    requires Represents(t, r, v)
    requires r.offerId in offers && offers[r.offerId] == TrialOffer(c)
    ensures var m := MaterialFor(t.host, context, offers, r, [r], {});
            m.Ok? && Stands(t.host, t.Active(), m.value, v, c)
  {
    OneRecord(r);
    OneCost(t.host, r, offers, c);
    NoIds();
    var m := MaterialFor(t.host, context, offers, r, [r], {}).value;
    var extra := CostFacts(t.host, TrialOffer(c), CostEvidence(r.facts), [r]);
    StillSays(t.host, r.facts, extra, t.Active(), v);
    assert m.facts == Filter(r.facts, NotLandedTotal) + extra;
    assert m.dependencyIssues == [];
  }

  lemma RelabelledSame(t: Trial, v: CandidateVerdict)
    requires t.Separated() && v in t.verdicts
    ensures Relabel(t.host, map[])(RecordOf(t, v)) == RecordOf(t, v)
  {
  }

  /** What the material stage reads of the context. */
  ghost predicate Offered(t: Trial, context: DecisionContext) {
    context.aliases == map[] && context.offers == Map(t.verdicts, TrialOffer) && context.currentActions == []
  }

  function MaterialOf(t: Trial, context: DecisionContext, v: CandidateVerdict): Result<PlanMaterial, Error> {
    MaterialFor(t.host, context, OfferMap(t.host, context.aliases, context.offers), RecordOf(t, v), [RecordOf(t, v)],
      {})
  }

  lemma VerdictMaterial(t: Trial, context: DecisionContext, v: CandidateVerdict)
    requires t.Separated() && Offered(t, context) && v in t.verdicts
    ensures MaterialOf(t, context, v).Ok?
            && Stands(t.host, t.Active(), MaterialOf(t, context, v).value, v, t.Charger(v))
  {
    LoneRepresents(t, v);
    ChargedOffer(t.host, t.verdicts, v);
    LoneMaterial(t, context, OfferMap(t.host, context.aliases, context.offers), RecordOf(t, v), v, t.Charger(v));
  }

  lemma RootMaterial(t: Trial, context: DecisionContext, catalog: Catalog, v: CandidateVerdict)
    requires t.Separated() && Offered(t, context) && WellFiled(catalog)
    ensures PackMaterial(t.host, context, OfferMap(t.host, context.aliases, context.offers), catalog, RecordOf(t, v))
            == MaterialOf(t, context, v)
  {
    LoneRepresents(t, v);
    AloneClosure(catalog, RecordOf(t, v));
  }

  lemma {:induction false} SameRoots(t: Trial, representatives: seq<RawCandidate>)
    requires t.Separated() && forall r :: r in representatives ==> exists v :: v in t.verdicts && r == RecordOf(t, v)
    ensures Map(representatives, Relabel(t.host, map[])) == representatives
  {
    var roots := Map(representatives, Relabel(t.host, map[]));
    forall i | 0 <= i < |roots| ensures roots[i] == representatives[i] {
      assert representatives[i] in representatives;
      var v :| v in t.verdicts && representatives[i] == RecordOf(t, v);
      RelabelledSame(t, v);
    }
  }

  lemma RecordPacked(t: Trial, context: DecisionContext, catalog: Catalog, v: CandidateVerdict)
    requires t.Separated() && Offered(t, context) && WellFiled(catalog) && v in t.verdicts
    ensures var packer := Packer(t.host, context, OfferMap(t.host, context.aliases, context.offers), catalog);
            packer(RecordOf(t, v)).Ok? && packer(RecordOf(t, v)) == MaterialOf(t, context, v)
  {
    RootMaterial(t, context, catalog, v);
    VerdictMaterial(t, context, v);
  }

  function RecordsOf(t: Trial): CandidateVerdict -> Result<RawCandidate, Error> {
    (v: CandidateVerdict) => Ok(RecordOf(t, v))
  }

  function MaterialsOf(t: Trial, context: DecisionContext): CandidateVerdict -> Result<PlanMaterial, Error> {
    (v: CandidateVerdict) => MaterialOf(t, context, v)
  }

  lemma PacksAre(t: Trial, context: DecisionContext, roots: seq<RawCandidate>, catalog: Catalog)
    requires t.Separated() && Offered(t, context) && WellFiled(catalog) && OnePerVerdict(t, roots)
    ensures var packs :=
            Traverse(roots, Packer(t.host, context, OfferMap(t.host, context.aliases, context.offers), catalog));
            packs.Ok? && Lists(packs.value, t.verdicts, MaterialsOf(t, context))
  {
    var packer := Packer(t.host, context, OfferMap(t.host, context.aliases, context.offers), catalog);
    forall v | v in t.verdicts
      ensures MaterialsOf(t, context)(v).Ok? && packer(RecordOf(t, v)) == MaterialsOf(t, context)(v)
    {
      RecordPacked(t, context, catalog, v);
    }
    TraverseLists(roots, packer, t.verdicts, RecordsOf(t), MaterialsOf(t, context));
  }

  /** There is one material for each verdict, and no other. */
  lemma TrialMaterials(t: Trial, context: DecisionContext, representatives: seq<RawCandidate>)
    requires t.Separated() && Offered(t, context) && OnePerVerdict(t, representatives)
    ensures AllMaterials(t.host, context, representatives).Ok?
    ensures Lists(AllMaterials(t.host, context, representatives).value, t.verdicts, MaterialsOf(t, context))
  {
    SameRoots(t, representatives);
    PacksAre(t, context, representatives, CatalogOf(representatives));
    assert PackMaterials(t.host, context, representatives).Ok?;
    forall m
      ensures m in AllMaterials(t.host, context, representatives).value
              <==> m in PackMaterials(t.host, context, representatives).value
    {
      MaterialSources(t.host, context, representatives, m);
    }
  }
}
