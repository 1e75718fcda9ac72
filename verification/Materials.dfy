/** Turning recalled records and current-stack actions into plan materials. */
module Materials {
  import opened Outcomes
  import opened Ordering
  import opened Domain
  import opened GraphModels
  import opened Aliases
  import opened Recall
  import opened Gates
  import opened Dimensions
  import opened Closure

  const LANDED_TOTAL := "offer.landed_total"

  // ---- Bundled cost ----

  function Present(offers: map<string, OfferCost>, records: seq<RawCandidate>): seq<OfferCost> {
    if records == [] then []
    else (if records[0].offerId in offers then [offers[records[0].offerId]] else []) + Present(offers, records[1..])
  }

  function LowOf(c: OfferCost): Option<Money> { c.low }

  function BaseOf(c: OfferCost): Option<Money> { c.base }

  function HighOf(c: OfferCost): Option<Money> { c.high }

  function Amounts(costs: seq<OfferCost>, part: OfferCost -> Option<Money>): nat {
    if costs == [] then 0
    else (if part(costs[0]).Some? then part(costs[0]).value.amount else 0) + Amounts(costs[1..], part)
  }

  function Total(costs: seq<OfferCost>, expected: nat, part: OfferCost -> Option<Money>, currency: string)
    : Option<Money>
  {
    if |costs| != expected || exists c :: c in costs && part(c).None? then None
    else Some(Money(Amounts(costs, part), currency))
  }

  function Stated(c: OfferCost): seq<Money> {
    (if c.low.Some? then [c.low.value] else [])
    + (if c.base.Some? then [c.base.value] else [])
    + (if c.high.Some? then [c.high.value] else [])
  }

  function CurrencyOf(m: Money): string { m.currency }

  function Currencies(costs: seq<OfferCost>): seq<string> {
    Map(FlatMap(costs, Stated), CurrencyOf)
  }

  function ItemsOf(c: OfferCost): seq<CostLineItem> { c.lineItems }

  function Pays(c: OfferCost): bool { c.paymentRequired }

  function OwnOfferId(c: OfferCost): string { c.offerId }

  function Incomparable(costs: seq<OfferCost>): bool {
    |set c | c in costs :: c.horizonDays| > 1 || |set x | x in Currencies(costs) :: x| > 1
  }

  function Payments(costs: seq<OfferCost>): nat {
    |Filter(costs, Pays)|
  }

  /** The first currency stated, US dollars when none is. */
  function BundleCurrency(costs: seq<OfferCost>): string {
    if Currencies(costs) == [] then "USD" else Currencies(costs)[0]
  }

  function BundleHorizon(costs: seq<OfferCost>): nat {
    if costs == [] then 1 else costs[0].horizonDays
  }

  function Bundle(host: Host, costs: seq<OfferCost>, expected: nat): OfferCost {
    OfferCost(
      host.bundleId(Map(costs, OwnOfferId)),
      Total(costs, expected, LowOf, BundleCurrency(costs)),
      Total(costs, expected, BaseOf, BundleCurrency(costs)),
      Total(costs, expected, HighOf, BundleCurrency(costs)),
      BundleHorizon(costs),
      FlatMap(costs, ItemsOf),
      Payments(costs) > 0)
  }

  function CostIssues(costs: seq<OfferCost>, expected: nat): set<string> {
    (if |costs| != expected then {"MISSING_REQUIRED_DEPENDENCY_OFFER"} else {})
    + (if Incomparable(costs) then {"INCOMPARABLE_DEPENDENCY_COST"} else {})
  }

  /** The cost of all components together, how many of them need payment, and what is wrong with it. */
  function CombinedCost(host: Host, records: seq<RawCandidate>, offers: map<string, OfferCost>)
    : (OfferCost, nat, set<string>)
  {
    var costs := Present(offers, records);
    if |records| == 1 && |costs| == 1 then (costs[0], Payments(costs), {})
    else (Bundle(host, costs, |records|), Payments(costs), CostIssues(costs, |records|))
  }

  // ---- Facts of a bundle ----

  function FactsOnField(records: seq<RawCandidate>, field: string): seq<seq<ProductFact>> {
    Map(records, (r: RawCandidate) => OnField(r.facts, field))
  }

  function IsNumeric(v: FactValue): bool { v.Whole? || v.Text? }

  function SumOf(values: seq<real>): real {
    if values == [] then 0.0 else values[0] + SumOf(values[1..])
  }

  function NumberFact(host: Host, n: real): FactValue {
    if n == n.Floor as real then Whole(n.Floor) else Text(host.numberText(n))
  }

  function NumberOf(host: Host): FactValue -> Result<real, Error> {
    (v: FactValue) => Numeric(host, v)
  }

  /** One value for the bundle, or none when the components' values cannot be combined that way. */
  function CombineValues(host: Host, how: Aggregation, values: seq<FactValue>): Result<Option<FactValue>, Error>
    requires values != []
  {
    match how
    case PrimaryComponent => Ok(None)
    case Sum =>
      if exists v :: v in values && !IsNumeric(v) then Ok(None)
      else
        var numbers :- Traverse(values, NumberOf(host));
        Ok(Some(NumberFact(host, SumOf(numbers))))
    case Min =>
      if exists v :: v in values && !IsNumeric(v) then Ok(None)
      else
        var numbers :- Traverse(values, NumberOf(host));
        TraversePointwise(values, NumberOf(host));
        Ok(Some(NumberFact(host, Least(numbers))))
    case Max =>
      if exists v :: v in values && !IsNumeric(v) then Ok(None)
      else
        var numbers :- Traverse(values, NumberOf(host));
        TraversePointwise(values, NumberOf(host));
        Ok(Some(NumberFact(host, Greatest(numbers))))
    case Union =>
      Ok(if exists v :: v in values && !v.Names? then None
         else Some(Names(SortedIds(set v, s | v in values && v.Names? && s in v.items :: s))))
    case All => Ok(if exists v :: v in values && !v.Truth? then None else Some(Truth(Truth(false) !in values)))
    case Any => Ok(if exists v :: v in values && !v.Truth? then None else Some(Truth(Truth(true) in values)))
  }

  function OwnFacts(facts: seq<ProductFact>): seq<ProductFact> { facts }

  /** The facts of a bundle on one preference field. */
  function BundleField(host: Host, c: PreferenceCriterion, records: seq<RawCandidate>): Result<seq<ProductFact>, Error>
    requires records != []
  {
    var perComponent := FactsOnField(records, c.field);
    if c.aggregation == PrimaryComponent then Ok(perComponent[|records| - 1])
    else if exists facts :: facts in perComponent && |facts| != 1 then Ok(FlatMap(perComponent, OwnFacts))
    else
      var facts := FlatMap(perComponent, OwnFacts);
      assert perComponent[0] in perComponent && facts != [];
      var combined :- CombineValues(host, c.aggregation, Map(facts, FactValueOf));
      Ok(if combined.None? then facts
         else [ProductFact(c.field, combined.value, EvidenceIdsOf(facts), Some(records[|records| - 1].productId))])
  }

  /** The criterion that governs a field: the last one declared on it. */
  function CriterionOn(preferences: seq<PreferenceCriterion>, field: string): (r: Option<PreferenceCriterion>)
    ensures r.Some? ==> r.value in preferences && r.value.field == field
  {
    var matching := Filter(preferences, (c: PreferenceCriterion) => c.field == field);
    if matching == [] then None
    else
      assert matching[|matching| - 1] in matching;
      Some(matching[|matching| - 1])
  }

  function BundleFields(host: Host, context: DecisionContext, records: seq<RawCandidate>)
    : string -> Result<seq<ProductFact>, Error>
    requires records != []
  {
    (field: string) =>
      match CriterionOn(context.preferences, field)
      case None => Ok([])
      case Some(c) => BundleField(host, c, records)
  }

  function OffFields(fields: set<string>): ProductFact -> bool {
    (f: ProductFact) => f.field !in fields
  }

  function AggregateFacts(host: Host, context: DecisionContext, records: seq<RawCandidate>)
    : Result<seq<ProductFact>, Error>
    requires records != []
  {
    var raw := AllFacts(records);
    if |records| == 1 then Ok(raw)
    else
      var fields := set c | c in context.preferences :: c.field;
      var perField :- Traverse(SortedIds(fields), BundleFields(host, context, records));
      Ok(Filter(raw, OffFields(fields)) + FlatMap(perField, OwnFacts))
  }

  lemma {:induction false} Within(parts: seq<seq<ProductFact>>, f: ProductFact)
    ensures f in FlatMap(parts, OwnFacts) <==> exists part :: part in parts && f in part
  {
    FlatMapMembers(parts, OwnFacts, f);
    if part :| part in parts && f in part {
      var i :| 0 <= i < |parts| && parts[i] == part;
      assert f in OwnFacts(parts[i]);
    }
  }

  lemma BundleFieldOn(host: Host, c: PreferenceCriterion, records: seq<RawCandidate>, f: ProductFact)
    requires records != [] && BundleField(host, c, records).Ok? && f in BundleField(host, c, records).value
    ensures f.field == c.field
  {
    hide CombineValues, EvidenceIdsOf, FlatMap, Map;
    var perComponent := FactsOnField(records, c.field);
    Within(perComponent, f);
    if part :| part in perComponent && f in part {
      var i :| 0 <= i < |perComponent| && perComponent[i] == part;
    }
  }

  lemma PerFieldOn(host: Host, context: DecisionContext, records: seq<RawCandidate>, field: string, f: ProductFact)
    requires records != [] && BundleFields(host, context, records)(field).Ok?
             && f in BundleFields(host, context, records)(field).value
    ensures exists c :: c in context.preferences && c.field == f.field
  {
    var c := CriterionOn(context.preferences, field).value;
    BundleFieldOn(host, c, records, f);
    assert c in context.preferences;
  }

  /** Aggregating preference fields leaves the facts on all other fields exactly as the components state them. */
  lemma AggregateKeepsOthers(host: Host, context: DecisionContext, records: seq<RawCandidate>, f: ProductFact)
    requires records != [] && AggregateFacts(host, context, records).Ok?
    requires forall c :: c in context.preferences ==> c.field != f.field
    ensures f in AggregateFacts(host, context, records).value <==> f in AllFacts(records)
  {
    hide BundleField, CriterionOn, CombineValues, FlatMap, BundleFields;
    if |records| > 1 {
      var fields := SortedIds(set c | c in context.preferences :: c.field);
      var bundle := BundleFields(host, context, records);
      TraversePointwise(fields, bundle);
      var perField := Traverse(fields, bundle).value;
      Within(perField, f);
      if part :| part in perField && f in part {
        var i :| 0 <= i < |perField| && perField[i] == part;
        PerFieldOn(host, context, records, fields[i], f);
      }
    }
  }

  // ---- Pack materials ----

  /** Like alias resolution, but a cycle stops quietly where it closes. */
  function FollowQuietly(aliases: map<string, string>, current: string, visited: set<string>): string
    requires visited <= aliases.Keys
    decreases |aliases.Keys - visited|
  {
    if current !in aliases || current in visited then current
    else
      SmallerSet(aliases.Keys - (visited + {current}), aliases.Keys - visited);
      FollowQuietly(aliases, aliases[current], visited + {current})
  }

  function CanonicalOffer(host: Host, aliases: map<string, string>, value: string): string {
    FollowQuietly(aliases, host.fold(value), {})
  }

  /** Offers by canonical identifier; a later offer replaces an earlier one. */
  function OfferMap(host: Host, aliases: map<string, string>, offers: seq<OfferCost>): map<string, OfferCost> {
    if offers == [] then map[]
    else
      var last := offers[|offers| - 1];
      OfferMap(host, aliases, offers[..|offers| - 1])[CanonicalOffer(host, aliases, last.offerId) := last]
  }

  /** Some offer of the list has the canonical identifier. */
  predicate Offers(host: Host, aliases: map<string, string>, offers: seq<OfferCost>, key: string) {
    exists o :: o in offers && CanonicalOffer(host, aliases, o.offerId) == key
  }

  /** An identifier is offered exactly when some offer has it, and then at the last such offer. */
  lemma {:induction false} LastOfferWins(host: Host, aliases: map<string, string>, offers: seq<OfferCost>, key: string)
    ensures key in OfferMap(host, aliases, offers) <==> Offers(host, aliases, offers, key)
    ensures key in OfferMap(host, aliases, offers) ==>
              exists i :: 0 <= i < |offers| && offers[i] == OfferMap(host, aliases, offers)[key]
                && CanonicalOffer(host, aliases, offers[i].offerId) == key
                && forall j :: i < j < |offers| ==> CanonicalOffer(host, aliases, offers[j].offerId) != key
  {
    hide FollowQuietly;
    if offers != [] {
      var before, last := offers[..|offers| - 1], offers[|offers| - 1];
      assert offers == before + [last];
      LastOfferWins(host, aliases, before, key);
      if CanonicalOffer(host, aliases, last.offerId) == key {
        assert offers[|before|] == last;
      } else if key in OfferMap(host, aliases, before) {
        var i :| 0 <= i < |before| && before[i] == OfferMap(host, aliases, before)[key]
                 && CanonicalOffer(host, aliases, before[i].offerId) == key
                 && forall j :: i < j < |before| ==> CanonicalOffer(host, aliases, before[j].offerId) != key;
        assert offers[i] == before[i];
        forall j | i < j < |offers| ensures CanonicalOffer(host, aliases, offers[j].offerId) != key {
          if j < |before| { assert offers[j] == before[j]; }
        }
      }
    }
  }

  function Relabel(host: Host, aliases: map<string, string>): RawCandidate -> RawCandidate {
    (r: RawCandidate) => r.(offerId := CanonicalOffer(host, aliases, r.offerId))
  }

  function CatalogOf(records: seq<RawCandidate>): (c: Catalog)
    ensures WellFiled(c)
    ensures forall r :: r in records <==> r.productId in c && r in c[r.productId]
  {
    if records == [] then map[]
    else
      var last := records[|records| - 1];
      var before := CatalogOf(records[..|records| - 1]);
      assert forall r :: r in records <==> r in records[..|records| - 1] || r == last by {
        assert records == records[..|records| - 1] + [last];
      }
      before[last.productId := (if last.productId in before then before[last.productId] else []) + [last]]
  }

  predicate NotLandedTotal(f: ProductFact) {
    f.field != LANDED_TOTAL
  }

  function CostEvidence(facts: seq<ProductFact>): set<string> {
    set f, e | f in facts && f.field == LANDED_TOTAL && e in f.evidenceIds :: e
  }

  function CostFact(host: Host, base: Money, evidence: set<string>, productId: string): ProductFact {
    ProductFact(LANDED_TOTAL, Text(host.decimalText(base.amount)), evidence, Some(productId))
  }

  function CostFacts(host: Host, cost: OfferCost, evidence: set<string>, records: seq<RawCandidate>): seq<ProductFact> {
    if cost.base.None? then []
    else Map(records, (r: RawCandidate) => CostFact(host, cost.base.value, evidence, r.productId))
  }

  function MaterialFor(
    host: Host, context: DecisionContext, offers: map<string, OfferCost>, root: RawCandidate,
    records: seq<RawCandidate>, dependencyIssues: set<string>)
    : Result<PlanMaterial, Error>
    requires records != []
  {
    var (cost, payments, costIssues) := CombinedCost(host, records, offers);
    var raw := AllFacts(records);
    var evidence := CostEvidence(raw);
    var facts :- AggregateFacts(host, context, records);
    Ok(PlanMaterial(
         root.recordId, Replace, root.productId, Products(records),
         Filter(facts, NotLandedTotal) + CostFacts(host, cost, evidence, [root]),
         Filter(raw, NotLandedTotal) + CostFacts(host, cost, evidence, records),
         cost, payments,
         forall r :: r in records ==> r.available,
         Some(AuthorityFloor(records)),
         set r, g | r in records && g in r.sellerGateIds :: g,
         None, root.productId,
         SortedIds(dependencyIssues + costIssues)))
  }

  function PackMaterial(host: Host, context: DecisionContext, offers: map<string, OfferCost>, catalog: Catalog,
      root: RawCandidate)
    : Result<PlanMaterial, Error>
    requires WellFiled(catalog)
  {
    var (records, issues) := ClosureOf(catalog, root);
    MaterialFor(host, context, offers, root, records, issues)
  }

  function Packer(host: Host, context: DecisionContext, offers: map<string, OfferCost>, catalog: Catalog)
    : RawCandidate -> Result<PlanMaterial, Error>
    requires WellFiled(catalog)
  {
    (root: RawCandidate) => PackMaterial(host, context, offers, catalog, root)
  }

  function Relabelled(host: Host, context: DecisionContext, representatives: seq<RawCandidate>): seq<RawCandidate> {
    Map(representatives, Relabel(host, context.aliases))
  }

  function PackMaterials(host: Host, context: DecisionContext, representatives: seq<RawCandidate>)
    : Result<seq<PlanMaterial>, Error>
  {
    var roots := Relabelled(host, context, representatives);
    Traverse(roots, Packer(host, context, OfferMap(host, context.aliases, context.offers), CatalogOf(roots)))
  }

  // ---- Current-stack actions ----

  function CurrentMaterial(a: CurrentAction): PlanMaterial {
    PlanMaterial(
      a.actionId, a.action, a.instanceId, [a.instanceId], a.facts, a.facts, a.cost, 0, a.available, None, {},
      a.permittedResolution,
      if a.action == Cancel then "cancelled_" + a.instanceId else a.instanceId,
      [])
  }

  function MaterialKey(m: PlanMaterial): seq<string> {
    [m.action.Name(), m.componentId, m.sourceId]
  }

  /** Every plan material, in the order plans are built. */
  function AllMaterials(host: Host, context: DecisionContext, representatives: seq<RawCandidate>)
    : Result<seq<PlanMaterial>, Error>
  {
    var packs :- PackMaterials(host, context, representatives);
    Ok(SortBy(packs + Map(context.currentActions, CurrentMaterial), MaterialKey))
  }

  lemma PackMaterialCost(host: Host, context: DecisionContext, offers: map<string, OfferCost>, catalog: Catalog,
      root: RawCandidate)
    requires WellFiled(catalog)
    requires PackMaterial(host, context, offers, catalog, root).Ok?
    ensures PackMaterial(host, context, offers, catalog, root).value.cost
            == CombinedCost(host, ClosureOf(catalog, root).0, offers).0
  {
  }

  /** Each pack material is built from one of the relabelled representatives. */
  lemma PackMaterialsFrom(host: Host, context: DecisionContext, representatives: seq<RawCandidate>)
    requires PackMaterials(host, context, representatives).Ok?
    ensures var roots := Relabelled(host, context, representatives);
            var packs := PackMaterials(host, context, representatives).value;
            && |packs| == |roots|
            && forall i :: 0 <= i < |roots| ==>
                 PackMaterial(host, context, OfferMap(host, context.aliases, context.offers), CatalogOf(roots),
                   roots[i]) == Ok(packs[i])
  {
    var roots := Relabelled(host, context, representatives);
    TraversePointwise(roots, Packer(host, context, OfferMap(host, context.aliases, context.offers), CatalogOf(roots)));
  }

  lemma MaterialSources(host: Host, context: DecisionContext, representatives: seq<RawCandidate>, m: PlanMaterial)
    requires AllMaterials(host, context, representatives).Ok?
    ensures PackMaterials(host, context, representatives).Ok?
    ensures m in AllMaterials(host, context, representatives).value
            <==> m in PackMaterials(host, context, representatives).value
                 || m in Map(context.currentActions, CurrentMaterial)
  {
    SortPermutes(PackMaterials(host, context, representatives).value + Map(context.currentActions, CurrentMaterial),
      ByKey(MaterialKey));
  }
}
