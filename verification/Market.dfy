/** A market with one product: every seller's plan has the same identifier. */
module Market {
  import opened Outcomes
  import opened Ordering
  import opened Domain
  import opened Bounds
  import opened GraphModels
  import opened Recall
  import opened PlainRecall
  import opened Evidence
  import opened Gates
  import opened Dimensions
  import opened Closure
  import opened Materials
  import opened Engine
  import opened LonePlans
  import opened RankGuarantees
  import opened Trials
  import opened TrialOutcome
  import opened TrialWinner
  import opened SharedIds

  /** Someone who sells the product, at a price for a number of days. */
  datatype Seller = Seller(id: string, cents: nat, days: nat)

  function SellerId(s: Seller): string { s.id }

  /** The seller's pack, of which nothing is known. */
  function PackOf(s: Seller): RawCandidate {
    RawCandidate(s.id, s.id, 1, s.id, "product", "standard", "eu", s.id, SellerSealed, true, [], {}, {}, {}, Published,
      {})
  }

  function OfferOf(s: Seller): OfferCost {
    var price := Some(Money(s.cents, "USD"));
    OfferCost(s.id, price, price, price, s.days, [], false)
  }

  /** What is not known about the product may be anything. */
  const TASTE := PreferenceCriterion(
    "taste", "taste", 1, 1, BooleanEquals, Truth(true), {}, {}, {0.0, 1.0}, [], Some(1.0), None, None, PrimaryComponent)

  function MarketContext(sellers: seq<Seller>): DecisionContext {
    DecisionContext(0, [], Map(sellers, OfferOf), [], [], [], [TASTE], [], true, [], map[], [], {}, None)
  }

  function MarketInput(sellers: seq<Seller>): DecisionInput {
    DecisionInput(Map(sellers, PackOf), MarketContext(sellers))
  }

  /** Sellers with different identifiers, written as folding leaves them. */
  ghost predicate Sells(host: Host, sellers: seq<Seller>) {
    Distinct(Map(sellers, SellerId)) && forall s :: s in sellers ==> host.fold(s.id) == s.id
  }

  // ---- Recall and evidence ----

  lemma MarketUnique(host: Host, sellers: seq<Seller>)
    requires Sells(host, sellers)
    ensures MarketInput(sellers).UniqueIdentifiers()
  {
    var packs, offers := Map(sellers, PackOf), Map(sellers, OfferOf);
    assert Map(packs, RecordId) == Map(sellers, SellerId);
    assert Map(offers, OfferId) == Map(sellers, SellerId);
  }

  lemma MarketPlain(host: Host, sellers: seq<Seller>)
    requires Sells(host, sellers)
    ensures Plain(host, MarketInput(sellers))
  {
    forall i, j | 0 <= i < |sellers| && 0 <= j < |sellers|
        && Folder(host)(Map(sellers, PackOf)[i]) == Folder(host)(Map(sellers, PackOf)[j])
      ensures SellerId(sellers[i]) == SellerId(sellers[j])
    {
      assert sellers[i] in sellers && sellers[j] in sellers;
    }
    DistinctVia(sellers, SellerId, Map(sellers, PackOf), Folder(host));
  }

  /** What the seller's pack is recalled as. */
  function RecalledAs(host: Host): Seller -> Result<RawCandidate, Error> {
    (s: Seller) => Ok(LoneRepresentative(host, PackOf(s)))
  }

  lemma RecalledPack(host: Host, s: Seller)
    requires host.fold(s.id) == s.id
    ensures var r := LoneRepresentative(host, PackOf(s));
            && r.offerId == s.id && r.facts == [] && r.productId == host.fold("product")
            && r.authority == SellerSealed && r.available && r.requiredProductIds == {}
            && Relabel(host, map[])(r) == r
  {
    OneRecord(PackOf(s));
    assert PackOf(s) in [PackOf(s)];
  }

  lemma MarketRecalled(host: Host, sellers: seq<Seller>)
    requires Sells(host, sellers)
    ensures RecallAndDeduplicate(host, MarketInput(sellers)).Ok?
    ensures Lists(RecallAndDeduplicate(host, MarketInput(sellers)).value.representatives, sellers, RecalledAs(host))
  {
    hide RecallAndDeduplicate, LoneRepresentative;
    MarketPlain(host, sellers);
    PlainRecallExact(host, MarketInput(sellers));
    var packs := Map(sellers, PackOf);
    assert MarketInput(sellers).candidates == packs;
    forall s | s in sellers ensures PackOf(s) in packs {
      var i :| 0 <= i < |sellers| && sellers[i] == s;
      assert packs[i] == PackOf(s);
    }
    forall r | r in RecallAndDeduplicate(host, MarketInput(sellers)).value.representatives
      ensures exists s :: s in sellers && RecalledAs(host)(s) == Ok(r)
    {
      var c :| c in packs && r == LoneRepresentative(host, c);
      var i :| 0 <= i < |packs| && packs[i] == c;
      assert sellers[i] in sellers && RecalledAs(host)(sellers[i]) == Ok(r);
    }
  }

  lemma MarketAssessed(host: Host, sellers: seq<Seller>, representatives: seq<RawCandidate>)
    requires Sells(host, sellers) && Lists(representatives, sellers, RecalledAs(host))
    ensures AssessEvidence(host, MarketContext(sellers), representatives) == Ok([])
  {
    hide LoneRepresentative;
    forall r | r in representatives ensures FactPairs(r.facts) == {} {
      var s :| s in sellers && RecalledAs(host)(s) == Ok(r);
      RecalledPack(host, s);
    }
    assert MaterialPairs(MarketContext(sellers), representatives) == {};
  }

  // ---- Materials ----

  lemma SameSeller(sellers: seq<Seller>, i: nat, j: nat)
    requires Distinct(Map(sellers, SellerId)) && i < |sellers| && j < |sellers| && sellers[i].id == sellers[j].id
    ensures i == j
  {
    assert Map(sellers, SellerId)[i] == Map(sellers, SellerId)[j];
  }

  lemma OfferLabel(host: Host, s: Seller)
    requires host.fold(s.id) == s.id
    ensures CanonicalOffer(host, map[], OfferOf(s).offerId) == s.id
  {
  }

  lemma SellersOffer(host: Host, sellers: seq<Seller>, s: Seller)
    requires Sells(host, sellers) && s in sellers
    ensures var offers := OfferMap(host, map[], MarketContext(sellers).offers);
            s.id in offers && offers[s.id] == OfferOf(s)
  {
    hide OfferMap, Distinct, CanonicalOffer;
    var offers := Map(sellers, OfferOf);
    forall k | 0 <= k < |sellers| ensures CanonicalOffer(host, map[], offers[k].offerId) == sellers[k].id {
      assert sellers[k] in sellers;
      OfferLabel(host, sellers[k]);
    }
    LastOfferWins(host, map[], offers, s.id);
    var i :| 0 <= i < |sellers| && sellers[i] == s;
    assert offers[i] in offers;
    var j :| 0 <= j < |offers| && offers[j] == OfferMap(host, map[], offers)[s.id]
             && CanonicalOffer(host, map[], offers[j].offerId) == s.id;
    SameSeller(sellers, i, j);
  }

  function SellersMaterial(host: Host, sellers: seq<Seller>): Seller -> Result<PlanMaterial, Error> {
    (s: Seller) =>
      var r := LoneRepresentative(host, PackOf(s));
      MaterialFor(host, MarketContext(sellers), OfferMap(host, map[], MarketContext(sellers).offers), r, [r], {})
  }

  /** An available component, sealed and offered by its seller; the only fact about it is what it costs. */
  ghost predicate OnSale(host: Host, m: PlanMaterial, s: Seller) {
    && m.action == Replace && m.componentIds == [host.fold("product")]
    && m.available && m.authority == Some(SellerSealed) && m.dependencyIssues == []
    && m.cost == OfferOf(s) && m.paymentComponentCount == 0
    && forall f :: f in m.facts ==> f.field == LANDED_TOTAL
  }

  lemma OnlyCost(host: Host, r: RawCandidate, offers: map<string, OfferCost>, s: Seller)
    requires r.offerId in offers && offers[r.offerId] == OfferOf(s)
    ensures CombinedCost(host, [r], offers) == (OfferOf(s), 0, {})
  {
    assert Present(offers, [r]) == [OfferOf(s)] + Present(offers, [r][1..]);
    assert Filter([OfferOf(s)], Pays) == [];
  }

  lemma MaterialOnSale(host: Host, sellers: seq<Seller>, s: Seller)
    requires Sells(host, sellers) && s in sellers
    ensures SellersMaterial(host, sellers)(s).Ok? && OnSale(host, SellersMaterial(host, sellers)(s).value, s)
  {
    hide OfferMap, LoneRepresentative, CombinedCost;
    var r := LoneRepresentative(host, PackOf(s));
    var offers := OfferMap(host, map[], MarketContext(sellers).offers);
    RecalledPack(host, s);
    SellersOffer(host, sellers, s);
    OneRecord(r);
    OnlyCost(host, r, offers, s);
    NoIds();
  }

  lemma SameLabels(host: Host, sellers: seq<Seller>, representatives: seq<RawCandidate>)
    requires Sells(host, sellers) && Lists(representatives, sellers, RecalledAs(host))
    ensures Relabelled(host, MarketContext(sellers), representatives) == representatives
  {
    hide LoneRepresentative;
    forall i | 0 <= i < |representatives| ensures Relabel(host, map[])(representatives[i]) == representatives[i] {
      assert representatives[i] in representatives;
      var s :| s in sellers && RecalledAs(host)(s) == Ok(representatives[i]);
      RecalledPack(host, s);
    }
  }

  function MarketPacker(host: Host, sellers: seq<Seller>, catalog: Catalog): RawCandidate -> Result<PlanMaterial, Error>
    requires WellFiled(catalog)
  {
    Packer(host, MarketContext(sellers), OfferMap(host, map[], MarketContext(sellers).offers), catalog)
  }

  lemma SellerPacked(host: Host, sellers: seq<Seller>, catalog: Catalog, s: Seller)
    requires Sells(host, sellers) && s in sellers && WellFiled(catalog)
    ensures SellersMaterial(host, sellers)(s).Ok?
    ensures MarketPacker(host, sellers, catalog)(RecalledAs(host)(s).value) == SellersMaterial(host, sellers)(s)
  {
    hide OfferMap, LoneRepresentative, MaterialFor, ClosureOf, MarketContext;
    MaterialOnSale(host, sellers, s);
    RecalledPack(host, s);
    AloneClosure(catalog, LoneRepresentative(host, PackOf(s)));
  }

  lemma {:induction false} ListsAlike<S(!new), T(!new)>(a: seq<T>, b: seq<T>, from: seq<S>, g: S -> Result<T, Error>)
    requires Lists(a, from, g) && forall x :: x in a <==> x in b
    ensures Lists(b, from, g)
  {
  }

  lemma MarketMaterials(host: Host, sellers: seq<Seller>, representatives: seq<RawCandidate>)
    requires Sells(host, sellers) && Lists(representatives, sellers, RecalledAs(host))
    ensures AllMaterials(host, MarketContext(sellers), representatives).Ok?
    ensures Lists(AllMaterials(host, MarketContext(sellers), representatives).value, sellers,
              SellersMaterial(host, sellers))
  {
    hide OfferMap, RecalledAs, SellersMaterial, Packer, CatalogOf, Sells, Lists, Relabelled, Traverse, AllMaterials;
    SameLabels(host, sellers, representatives);
    var packer := MarketPacker(host, sellers, CatalogOf(representatives));
    forall s | s in sellers && RecalledAs(host)(s).Ok?
      ensures SellersMaterial(host, sellers)(s).Ok?
      ensures packer(RecalledAs(host)(s).value) == SellersMaterial(host, sellers)(s)
    {
      SellerPacked(host, sellers, CatalogOf(representatives), s);
    }
    TraverseLists(representatives, packer, sellers, RecalledAs(host), SellersMaterial(host, sellers));
    assert PackMaterials(host, MarketContext(sellers), representatives) == Traverse(representatives, packer);
    PacksOnly(host, MarketContext(sellers), representatives);
    ListsAlike(PackMaterials(host, MarketContext(sellers), representatives).value,
      AllMaterials(host, MarketContext(sellers), representatives).value, sellers, SellersMaterial(host, sellers));
  }

  /** Where nothing is current, the materials are those of the packs. */
  lemma PacksOnly(host: Host, context: DecisionContext, representatives: seq<RawCandidate>)
    requires PackMaterials(host, context, representatives).Ok? && context.currentActions == []
    ensures AllMaterials(host, context, representatives).Ok?
    ensures forall m ::
            m in AllMaterials(host, context, representatives).value
            <==> m in PackMaterials(host, context, representatives).value
  {
    hide PackMaterials;
    forall m
      ensures m in AllMaterials(host, context, representatives).value
              <==> m in PackMaterials(host, context, representatives).value
    {
      MaterialSources(host, context, representatives, m);
    }
  }

  // ---- Plans ----

  function ProductId(host: Host): string {
    host.planId(Replace, [host.fold("product")])
  }

  /** Nothing is certain about the plan but what it costs. */
  function SaleDimensions(s: Seller): PlanDimensions {
    PlanDimensions(Some(Interval(0.0, 100.0)), Some(LOWEST), OfferOf(s), Interval(0.0, 0.0), Interval(0.0, 0.0), {})
  }

  ghost predicate IsSale(host: Host, p: EvaluatedPlan, s: Seller) {
    && p.planId == ProductId(host) && p.stableActionIds == ["replace", host.fold("product")]
    && p.status == Eligible && p.dimensions == SaleDimensions(s)
  }

  lemma SaleGates(host: Host, sellers: seq<Seller>, m: PlanMaterial, s: Seller, index: AssessmentIndex)
    requires OnSale(host, m, s)
    ensures EvaluateGates(host, MarketContext(sellers), m, index) == Ok([AvailabilityGate(m)])
    ensures PrimaryStatus([AvailabilityGate(m)]).0 == Eligible
  {
    assert ApplicableGates(MarketContext(sellers), m) == [];
    var gates := [AvailabilityGate(m)];
    assert gates + [] + [] + [] == gates && gates[1..] == [];
    assert ReasonsOf(gates[0]) == []
      && FlatMap(gates, ReasonsOf) == ReasonsOf(gates[0]) + FlatMap(gates[1..], ReasonsOf);
    assert AllReasons(gates) == [];
  }

  /** The score of a field nothing is known about. */
  const UNTASTED := Scored(ScoreComponent("taste", 1, Interval(0.0, 1.0), {}, EvidenceState.Unknown, false), {})

  lemma NothingOn(host: Host, facts: seq<ProductFact>, field: string, index: AssessmentIndex)
    requires forall f :: f in facts ==> f.field != field
    ensures FieldStateOf(host, facts, field, index) == FieldState([], EvidenceState.Unknown, {}, false)
  {
    NoneKept(facts, (f: ProductFact) => f.field == field);
  }

  lemma SaleCriteria(sellers: seq<Seller>, m: PlanMaterial)
    ensures ApplicableCriteria(MarketContext(sellers), m) == [TASTE]
  {
    SortOne(TASTE, ByKey(CriterionKey));
    assert [TASTE][1..] == [] && CriterionApplies(TASTE, m, ActiveSourceIds(MarketContext(sellers)));
  }

  lemma SaleScored(host: Host, sellers: seq<Seller>, m: PlanMaterial, s: Seller, index: AssessmentIndex)
    requires OnSale(host, m, s)
    ensures Scores(host, MarketContext(sellers), m, index) == Ok([UNTASTED])
  {
    hide ApplicableCriteria, MarketContext, FieldStateOf;
    var context := MarketContext(sellers);
    assert TASTE.field[0] != LANDED_TOTAL[0];
    NothingOn(host, m.facts, TASTE.field, index);
    var unknown: set<BoundReason> := {};
    assert unknown + TimeReason(false) == unknown;
    assert ScoreCriterion(host, context, m, index, TASTE) == Ok(UNTASTED);
    SaleCriteria(sellers, m);
    TraverseOne(TASTE, Scorer(host, context, m, index), UNTASTED);
  }

  lemma SalePreference()
    ensures PreferenceOf([UNTASTED]) == Ok(Some(Interval(0.0, 100.0)))
    ensures AggregateCoverage(CoverageCriteria([TASTE], [UNTASTED])) == Ok(Interval(0.0, 0.0))
  {
    var bounds := [PreferenceCriterionBound("taste", 1, Interval(0.0, 1.0))];
    assert [UNTASTED][1..] == [] && [TASTE][1..] == [] && Map([UNTASTED], PreferenceBound) == bounds;
    assert bounds[1..] == [];
    assert TotalWeight(bounds) == 1 && WeightedSum(bounds, false) == 0.0 && WeightedSum(bounds, true) == 1.0;
    QuotientIs(0.0, 1.0, 0.0);
    QuotientIs(100.0, 1.0, 100.0);
    var c := CoverageCriterion("taste", 1, false, false);
    assert CoverageCriteria([TASTE], [UNTASTED]) == [c] && [c][1..] == [];
    assert CoveredWeight([c], Counted) == 1 && CoveredWeight([c], CoveredNow) == 0
      && CoveredWeight([c], CoveredAtBest) == 0;
  }

  lemma SaleMeasured(host: Host, sellers: seq<Seller>, m: PlanMaterial, s: Seller)
    requires OnSale(host, m, s)
    ensures DimensionsOf(host, MarketContext(sellers), m, []) == Ok(SaleDimensions(s))
  {
    hide DimensionsOf, Scores, PreferenceOf, AggregateCoverage, CoverageCriteria, ApplicableCriteria;
    var context := MarketContext(sellers);
    SaleCriteria(sellers, m);
    SaleScored(host, sellers, m, s, IndexOf([]));
    SalePreference();
    assert RiskSteps(host, context, m, IndexOf([])) == Ok([]);
    assert ConcludeRisk([], true) == (Some(LOWEST), {});
    assert ValidCost(OfferOf(s), 0) == Ok(None);
    assert MaterialAssessments(m, [UNTASTED], []) == [];
    assert ScoreReasons([UNTASTED]) == {};
    Assembled(host, context, m, [], [UNTASTED], [], SaleDimensions(s));
  }

  lemma SaleBuilt(host: Host, sellers: seq<Seller>, m: PlanMaterial, s: Seller)
    requires OnSale(host, m, s)
    ensures var built := BuildPlan(host, MarketContext(sellers), [], m); built.Ok? && IsSale(host, built.value, s)
  {
    hide BuildPlan, EvaluateGates, DimensionsOf, PrimaryStatus, MarketContext;
    SaleGates(host, sellers, m, s, IndexOf([]));
    SaleMeasured(host, sellers, m, s);
    BuiltPlan(host, MarketContext(sellers), [], m, [AvailabilityGate(m)], SaleDimensions(s));
  }

  function SellersPlan(host: Host, sellers: seq<Seller>): Seller -> Result<EvaluatedPlan, Error> {
    (s: Seller) =>
      match SellersMaterial(host, sellers)(s)
      case Raise(e) => Raise(e)
      case Ok(m) => BuildPlan(host, MarketContext(sellers), [], m)
  }

  /** The plans are those of the sellers. */
  ghost predicate Sales(host: Host, sellers: seq<Seller>, plans: seq<EvaluatedPlan>) {
    && (forall p :: p in plans ==> exists s :: s in sellers && IsSale(host, p, s))
    && (forall s :: s in sellers ==> exists p :: p in plans && IsSale(host, p, s))
  }

  lemma SellerBuilt(host: Host, sellers: seq<Seller>, s: Seller)
    requires Sells(host, sellers) && s in sellers
    ensures var m := SellersMaterial(host, sellers)(s);
            && m.Ok? && PlanBuilder(host, MarketContext(sellers), [])(m.value) == SellersPlan(host, sellers)(s)
    ensures SellersPlan(host, sellers)(s).Ok? && IsSale(host, SellersPlan(host, sellers)(s).value, s)
  {
    hide BuildPlan, MaterialFor, MarketContext, IsSale, OnSale, Sells;
    MaterialOnSale(host, sellers, s);
    SaleBuilt(host, sellers, SellersMaterial(host, sellers)(s).value, s);
  }

  lemma MarketBuilt(host: Host, sellers: seq<Seller>, materials: seq<PlanMaterial>)
    requires Sells(host, sellers) && Lists(materials, sellers, SellersMaterial(host, sellers))
    ensures Traverse(materials, PlanBuilder(host, MarketContext(sellers), [])).Ok?
    ensures Sales(host, sellers, Traverse(materials, PlanBuilder(host, MarketContext(sellers), [])).value)
  {
    hide PlanBuilder, SellersMaterial, SellersPlan, MarketContext, IsSale, Sells, Traverse;
    forall s | s in sellers
      ensures SellersPlan(host, sellers)(s).Ok? && IsSale(host, SellersPlan(host, sellers)(s).value, s)
      ensures SellersMaterial(host, sellers)(s).Ok?
              && PlanBuilder(host, MarketContext(sellers), [])(SellersMaterial(host, sellers)(s).value)
                 == SellersPlan(host, sellers)(s)
    {
      SellerBuilt(host, sellers, s);
    }
    TraverseLists(materials, PlanBuilder(host, MarketContext(sellers), []), sellers, SellersMaterial(host, sellers),
      SellersPlan(host, sellers));
  }

  // ---- Ranking ----

  lemma SaleBounds(host: Host, p: EvaluatedPlan, s: Seller)
    requires IsSale(host, p, s)
    ensures Rankable(p) && WellFormed(p.dimensions) && p.stableActionIds != [] && p.planId == ProductId(host)
    ensures p.dimensions.OrderingBounds().value.cost.base.currency == "USD"
  {
  }

  lemma OneSignature(host: Host, plans: seq<EvaluatedPlan>, p: EvaluatedPlan, s: Seller, q: EvaluatedPlan, r: Seller)
    requires p in plans && q in plans && IsSale(host, p, s) && IsSale(host, q, r)
    ensures Rankable(p) && Rankable(q) && SignatureOf(plans, p) == SignatureOf(plans, q)
  {
    hide HorizonByPlan, IsSale, ProductId;
    SaleBounds(host, p, s);
    SaleBounds(host, q, r);
  }

  lemma NoneMismatched(host: Host, sellers: seq<Seller>, plans: seq<EvaluatedPlan>)
    requires Sales(host, sellers, plans)
    ensures !Mismatched(plans)
  {
    hide IsSale, Rankable, SignatureOf, HorizonByPlan, PlanDimensions.OrderingBounds, ProductId;
    forall p, q | p in plans && q in plans && Rankable(p) && Rankable(q)
      ensures SignatureOf(plans, p) == SignatureOf(plans, q)
    {
      var s :| s in sellers && IsSale(host, p, s);
      var r :| r in sellers && IsSale(host, q, r);
      OneSignature(host, plans, p, s, q, r);
    }
  }

  lemma MarketRanks(host: Host, sellers: seq<Seller>, plans: seq<EvaluatedPlan>)
    requires Sales(host, sellers, plans)
    ensures AllWellFormed(plans) && Rank(plans).Ok?
    ensures forall p :: p in plans ==> Rankable(p) && p.planId == ProductId(host)
  {
    hide IsSale, Rankable, Rank, WellFormed, CostSignatures, ProductId, Mismatched, PlanDimensions.OrderingBounds;
    forall p | p in plans
      ensures Rankable(p) && WellFormed(p.dimensions) && p.stableActionIds != [] && p.planId == ProductId(host)
    {
      var s :| s in sellers && IsSale(host, p, s);
      SaleBounds(host, p, s);
    }
    NoneMismatched(host, sellers, plans);
    IncomparableExact(plans);
    RankTotal(plans);
  }

  // ---- Whole markets ----

  /** A market can always be evaluated and ranked; its plans are those of the sellers, under one identifier. */
  lemma MarketEvaluated(host: Host, sellers: seq<Seller>) returns (e: Evaluation)
    requires Sells(host, sellers)
    ensures EvaluateOnce(host, MarketInput(sellers)) == Ok(e)
    ensures Sales(host, sellers, e.plans) && Rank(e.plans) == Ok(e.ranking) && AllWellFormed(e.plans)
    ensures forall p :: p in e.plans ==> Rankable(p) && p.planId == ProductId(host)
  {
    hide RecallAndDeduplicate, AssessEvidence, AllMaterials, PlanBuilder, Rank, EvaluateOnce, MarketContext, Sells,
         Lists, Traverse, Sales, AllWellFormed, Rankable, ProductId;
    assert MarketInput(sellers).context == MarketContext(sellers);
    MarketUnique(host, sellers);
    MarketRecalled(host, sellers);
    var recall := RecallAndDeduplicate(host, MarketInput(sellers)).value;
    MarketAssessed(host, sellers, recall.representatives);
    MarketMaterials(host, sellers, recall.representatives);
    var materials := AllMaterials(host, MarketContext(sellers), recall.representatives).value;
    MarketBuilt(host, sellers, materials);
    var plans := Traverse(materials, PlanBuilder(host, MarketContext(sellers), [])).value;
    MarketRanks(host, sellers, plans);
    e := Evaluation(recall, [], plans, Rank(plans).value);
    Evaluated(host, MarketInput(sellers), recall, [], materials, plans, Rank(plans).value);
  }

  lemma SaleThreatens(host: Host, p: EvaluatedPlan, s: Seller, q: EvaluatedPlan, r: Seller)
    requires IsSale(host, p, s) && IsSale(host, q, r)
    ensures MayComeBefore(p, q)
  {
    assert Challenges(p, q);
    ChallengeMeansMayCome(p, q);
  }

  lemma AllThreaten(host: Host, sellers: seq<Seller>, plans: seq<EvaluatedPlan>)
    requires Sales(host, sellers, plans)
    ensures forall p, q :: p in plans && q in plans ==> MayComeBefore(p, q)
  {
    hide IsSale, MayComeBefore;
    forall p, q | p in plans && q in plans ensures MayComeBefore(p, q) {
      var s :| s in sellers && IsSale(host, p, s);
      var r :| r in sellers && IsSale(host, q, r);
      SaleThreatens(host, p, s, q, r);
    }
  }

  lemma Selects(plans: seq<EvaluatedPlan>) returns (i: nat)
    requires plans != [] && AllWellFormed(plans) && Rank(plans).Ok? && forall p :: p in plans ==> Rankable(p)
    ensures SelectedAt(plans, i)
  {
    hide Rank, PlanDimensions.OrderingBounds, WellFormed, RanksBefore;
    SelectionExact(plans);
    assert plans[0] in plans;
    var p :| p in plans && Rankable(p) && Rank(plans).value.selected.value == AsBounded(p, false);
    i :| 0 <= i < |plans| && plans[i] == p;
  }

  /**
   * However many sell the product, one of their plans is selected and called STABLE, although nothing is
   * known about any of them and every plan may come before it.
   */
  lemma MarketStable(host: Host, sellers: seq<Seller>) returns (e: Evaluation, i: nat)
    requires Sells(host, sellers) && sellers != []
    ensures EvaluateOnce(host, MarketInput(sellers)) == Ok(e)
    ensures SelectedAt(e.plans, i) && e.ranking.stability == Stable
    ensures forall p :: p in e.plans ==> MayComeBefore(p, e.plans[i])
  {
    hide EvaluateOnce, MarketInput, Sells, Rank, IsSale, MayComeBefore, Rankable, AllWellFormed, ProductId, SelectedAt;
    e := MarketEvaluated(host, sellers);
    assert sellers[0] in sellers;
    i := Selects(e.plans);
    AllThreaten(host, sellers, e.plans);
    StableAlone(e.plans, i);
  }

  /** Under one identifier, whatever is selected is called STABLE. */
  lemma StableAlone(plans: seq<EvaluatedPlan>, i: nat)
    requires SelectedAt(plans, i)
    requires forall p, q :: p in plans && q in plans ==> p.planId == q.planId
    ensures i < |plans| && Rank(plans).value.stability == Stable
  {
    hide Rank, MayComeBefore;
    StableOverOthers(plans, i);
    assert forall j :: 0 <= j < |plans| ==> plans[j] in plans;
  }

  // ---- Two sellers ----

  const CHEAP := Seller("one", 100, 30)
  const DEAR := Seller("two", 200, 365)

  lemma TwoSellers(host: Host)
    requires host.fold("one") == "one" && host.fold("two") == "two"
    ensures Sells(host, [CHEAP, DEAR])
  {
    assert "one"[0] != "two"[0];
  }

  lemma SalesDiffer(host: Host, p: EvaluatedPlan, s: Seller, q: EvaluatedPlan, r: Seller)
    requires IsSale(host, p, s) && IsSale(host, q, r) && s.days != r.days
    ensures p != q && p.dimensions.totalCost.horizonDays == s.days && q.dimensions.totalCost.horizonDays == r.days
  {
  }

  /**
   * Two sellers of one product: the selected plan is called STABLE although the other seller's plan may
   * precede it.
   */
  lemma TwinOverlooked(host: Host) returns (e: Evaluation, i: nat, j: nat)
    requires host.fold("one") == "one" && host.fold("two") == "two"
    ensures EvaluateOnce(host, MarketInput([CHEAP, DEAR])) == Ok(e)
    ensures SelectedAt(e.plans, i) && e.ranking.stability == Stable
    ensures j < |e.plans| && j != i && MayComeBefore(e.plans[j], e.plans[i])
  {
    hide EvaluateOnce, MarketInput, Rank, IsSale, MayComeBefore, SelectedAt, Sells;
    TwoSellers(host);
    e, i := MarketStable(host, [CHEAP, DEAR]);
    var p, q := BothOnSale(host, e);
    var k :| 0 <= k < |e.plans| && e.plans[k] == p;
    var l :| 0 <= l < |e.plans| && e.plans[l] == q;
    j := if k != i then k else l;
  }

  /** Sellers with different horizons have different plans, both ranked. */
  lemma BothSold(host: Host, sellers: seq<Seller>, plans: seq<EvaluatedPlan>, s: Seller, r: Seller)
    returns (p: EvaluatedPlan, q: EvaluatedPlan)
    requires Sales(host, sellers, plans) && s in sellers && r in sellers && s.days != r.days
    ensures p in plans && q in plans && p != q && Rankable(p) && Rankable(q)
    ensures p.dimensions.totalCost.horizonDays == s.days && q.dimensions.totalCost.horizonDays == r.days
  {
    hide IsSale, Rankable;
    p :| p in plans && IsSale(host, p, s);
    q :| q in plans && IsSale(host, q, r);
    SaleBounds(host, p, s);
    SaleBounds(host, q, r);
    SalesDiffer(host, p, s, q, r);
  }

  lemma BothOnSale(host: Host, e: Evaluation) returns (p: EvaluatedPlan, q: EvaluatedPlan)
    requires host.fold("one") == "one" && host.fold("two") == "two"
    requires EvaluateOnce(host, MarketInput([CHEAP, DEAR])) == Ok(e)
    ensures p in e.plans && q in e.plans && p != q && Rankable(p) && Rankable(q)
    ensures p.dimensions.totalCost.horizonDays == 30 && q.dimensions.totalCost.horizonDays == 365
  {
    hide EvaluateOnce, MarketInput, Rank, Sales, Rankable, Sells;
    TwoSellers(host);
    var sellers := [CHEAP, DEAR];
    var f := MarketEvaluated(host, sellers);
    assert sellers[0] == CHEAP && sellers[1] == DEAR;
    p, q := BothSold(host, sellers, e.plans, CHEAP, DEAR);
  }

  /** Their costs, over thirty days and over a year, are ranked against each other. */
  lemma HorizonsMixed(host: Host) returns (e: Evaluation, p: EvaluatedPlan, q: EvaluatedPlan)
    requires host.fold("one") == "one" && host.fold("two") == "two"
    ensures EvaluateOnce(host, MarketInput([CHEAP, DEAR])) == Ok(e)
    ensures p in e.plans && q in e.plans && Rankable(p) && Rankable(q)
    ensures p.dimensions.totalCost.horizonDays != q.dimensions.totalCost.horizonDays
  {
    hide EvaluateOnce, MarketInput, Rank, Rankable, Sells, Sales;
    TwoSellers(host);
    e := MarketEvaluated(host, [CHEAP, DEAR]);
    p, q := BothOnSale(host, e);
  }
}
