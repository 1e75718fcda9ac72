/** What the plan of a record that needs nothing else is built from. */
module LonePlans {
  import opened Outcomes
  import opened Ordering
  import opened Domain
  import opened GraphModels
  import opened Recall
  import opened Duplicates
  import opened Gates
  import opened Closure
  import opened Materials
  import opened Engine
  import opened Guarantees

  /** No record needs another product, and nothing is current. */
  ghost predicate Independent(input: DecisionInput) {
    input.context.currentActions == [] && forall r :: r in input.candidates ==> r.requiredProductIds == {}
  }

  /** Both say the same on every field but the landed total. */
  ghost predicate SayTheSame(facts: seq<ProductFact>, others: seq<ProductFact>) {
    forall field :: field != LANDED_TOTAL ==> OnField(facts, field) == OnField(others, field)
  }

  /** Plan p was built from material m, which is that of the merged record f alone. */
  ghost predicate Rooted(host: Host, input: DecisionInput, e: Evaluation, p: EvaluatedPlan, f: Filed, m: PlanMaterial) {
    var facts := MergeFacts(host, AllFacts(f.Records()), f.key.product);
    && KeptUnder(host, input, f.key, f.Records())
    && (exists rep :: rep in e.recall.representatives && rep.facts == facts)
    && BuildPlan(host, input.context, e.assessments, m) == Ok(p)
    && m.action == Replace && m.componentIds == [f.key.product] && m.outcomeSubjectId == f.key.product
    && SayTheSame(m.facts, facts) && SayTheSame(m.gateFacts, facts)
  }

  // ---- Records alone ----

  lemma NoIds()
    ensures SortedIds({}) == []
  {
  }

  /** A record that needs nothing is its own closure. */
  lemma AloneClosure(catalog: Catalog, root: RawCandidate)
    requires WellFiled(catalog) && root.requiredProductIds == {}
    ensures ClosureOf(catalog, root) == ([root], {})
  {
    NoIds();
    var p := root.productId;
    assert VisitAll(catalog, Search([], {}, {p}, {}), SortedIds(root.requiredProductIds)) == Search([], {}, {p}, {});
    assert [] + [root] == [root];
  }

  lemma OneRecord(r: RawCandidate)
    ensures AllFacts([r]) == r.facts
    ensures Products([r]) == [r.productId]
    ensures AuthorityFloor([r]) == r.authority
  {
    assert FlatMap([r], FactsOf) == FactsOf(r) + FlatMap([r][1..], FactsOf);
  }

  // ---- Facts ----

  /** Replacing the facts on the landed total leaves those on other fields alone. */
  lemma OthersKept(facts: seq<ProductFact>, extra: seq<ProductFact>)
    requires forall f :: f in extra ==> f.field == LANDED_TOTAL
    ensures SayTheSame(Filter(facts, NotLandedTotal) + extra, facts)
  {
    forall field | field != LANDED_TOTAL
      ensures OnField(Filter(facts, NotLandedTotal) + extra, field) == OnField(facts, field)
    {
      var keep := (f: ProductFact) => f.field == field;
      FilterAppend(Filter(facts, NotLandedTotal), extra, keep);
      NoneKept(extra, keep);
      KeptTwice(facts, keep, NotLandedTotal);
    }
  }

  lemma OnLandedTotal(host: Host, cost: OfferCost, evidence: set<string>, records: seq<RawCandidate>)
    ensures forall f :: f in CostFacts(host, cost, evidence, records) ==> f.field == LANDED_TOTAL
  {
    var facts := CostFacts(host, cost, evidence, records);
    forall f | f in facts ensures f.field == LANDED_TOTAL {
      var i :| 0 <= i < |facts| && facts[i] == f;
    }
  }

  /** The material of a record that needs nothing says what the record says, except on the landed total. */
  lemma LoneFacts(host: Host, context: DecisionContext, offers: map<string, OfferCost>, r: RawCandidate)
    ensures var m := MaterialFor(host, context, offers, r, [r], {});
            && m.Ok? && m.value.action == Replace && m.value.componentIds == [r.productId]
            && m.value.outcomeSubjectId == r.productId
            && SayTheSame(m.value.facts, r.facts) && SayTheSame(m.value.gateFacts, r.facts)
  {
    hide SayTheSame, CombinedCost, CostFacts, CostEvidence;
    OneRecord(r);
    var cost := CombinedCost(host, [r], offers).0;
    OnLandedTotal(host, cost, CostEvidence(r.facts), [r]);
    OthersKept(r.facts, CostFacts(host, cost, CostEvidence(r.facts), [r]));
  }

  // ---- From the plan back to the record ----

  /** The representative a pack material comes from. */
  lemma PackedFrom(host: Host, context: DecisionContext, representatives: seq<RawCandidate>, m: PlanMaterial)
    returns (rep: RawCandidate)
    requires context.currentActions == []
    requires AllMaterials(host, context, representatives).Ok? && m in AllMaterials(host, context, representatives).value
    ensures rep in representatives
    ensures PackMaterial(host, context, OfferMap(host, context.aliases, context.offers),
              CatalogOf(Relabelled(host, context, representatives)), Relabel(host, context.aliases)(rep)) == Ok(m)
  {
    hide AllMaterials, PackMaterials, PackMaterial, OfferMap, CatalogOf;
    MaterialSources(host, context, representatives, m);
    PackMaterialsFrom(host, context, representatives);
    var packs := PackMaterials(host, context, representatives).value;
    assert Map(context.currentActions, CurrentMaterial) == [];
    var i :| 0 <= i < |packs| && packs[i] == m;
    rep := representatives[i];
  }

  lemma LonePacked(host: Host, context: DecisionContext, catalog: Catalog, offers: map<string, OfferCost>,
      rep: RawCandidate, m: PlanMaterial)
    requires WellFiled(catalog) && rep.requiredProductIds == {}
    requires PackMaterial(host, context, offers, catalog, Relabel(host, context.aliases)(rep)) == Ok(m)
    ensures m.action == Replace && m.componentIds == [rep.productId] && m.outcomeSubjectId == rep.productId
    ensures SayTheSame(m.facts, rep.facts) && SayTheSame(m.gateFacts, rep.facts)
  {
    hide MaterialFor, ClosureOf, CanonicalOffer, SayTheSame;
    var root := Relabel(host, context.aliases)(rep);
    AloneClosure(catalog, root);
    LoneFacts(host, context, offers, root);
  }

  lemma GroupNeedsNothing(host: Host, input: DecisionInput, f: Filed)
    requires Independent(input) && KeptUnder(host, input, f.key, f.Records())
    requires MergeGroup(host, input.context.aliases, f).Ok?
    ensures MergeGroup(host, input.context.aliases, f).value.representative.requiredProductIds == {}
  {
    hide MergeFacts, CanonicalSet, Classify;
    assert forall r :: r in f.Records() ==> r in input.candidates;
  }

  /** Where no record needs another, every plan is that of one merged record. */
  lemma PlanRoot(host: Host, input: DecisionInput, e: Evaluation, p: EvaluatedPlan) returns (f: Filed, m: PlanMaterial)
    requires Independent(input) && EvaluateOnce(host, input) == Ok(e) && p in e.plans
    ensures Rooted(host, input, e, p, f, m)
  {
    hide EvaluateOnce, AllMaterials, BuildPlan, RecallAndDeduplicate, KeptUnder, MergeGroup, MergeFacts, AllFacts,
         PackMaterial, Relabel, CatalogOf, OfferMap, SayTheSame, Relabelled;
    EvaluationStages(host, input, e);
    PlansHaveMaterials(host, input, e);
    m :| BuiltFrom(host, input.context, e, p, m);
    var rep := PackedFrom(host, input.context, e.recall.representatives, m);
    f := RepresentativeSource(host, input, rep);
    MergedFacts(host, input.context.aliases, f);
    GroupNeedsNothing(host, input, f);
    LonePacked(host, input.context, CatalogOf(Relabelled(host, input.context, e.recall.representatives)),
      OfferMap(host, input.context.aliases, input.context.offers), rep, m);
  }

  /** The merged facts are among the material's, except on the landed total. */
  lemma RootedFact(host: Host, input: DecisionInput, e: Evaluation, p: EvaluatedPlan, f: Filed, m: PlanMaterial)
    requires Rooted(host, input, e, p, f, m)
    ensures forall x :: x in MergeFacts(host, AllFacts(f.Records()), f.key.product) && x.field != LANDED_TOTAL ==>
                    x in m.facts && x in m.gateFacts
  {
    hide MergeFacts, AllFacts, BuildPlan, KeptUnder;
    var facts := MergeFacts(host, AllFacts(f.Records()), f.key.product);
    forall x | x in facts && x.field != LANDED_TOTAL ensures x in m.facts && x in m.gateFacts {
      assert x in OnField(facts, x.field);
      assert OnField(m.facts, x.field) == OnField(facts, x.field) == OnField(m.gateFacts, x.field);
    }
  }
}
