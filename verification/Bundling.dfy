/** What bundling the offers of several components does to cost. */
module Bundling {
  import opened Outcomes
  import opened Domain
  import opened Bounds
  import opened GraphModels
  import opened Dimensions
  import opened Materials

  /** The offer passes the cost check on its own. */
  predicate Usable(c: OfferCost) {
    ValidCost(c, if c.paymentRequired then 1 else 0) == Ok(None)
  }

  predicate AllUsable(costs: seq<OfferCost>) {
    forall c :: c in costs ==> Usable(c)
  }

  /** A stated total together with the part of a line item it must equal the sum of. */
  datatype Side = LowSide | BaseSide | HighSide {
    function Of(): OfferCost -> Option<Money> {
      match this
      case LowSide => LowOf
      case BaseSide => BaseOf
      case HighSide => HighOf
    }

    function Part(): CostLineItem -> Money {
      match this
      case LowSide => LowPart
      case BaseSide => BasePart
      case HighSide => HighPart
    }
  }

  /** Sum of the totals of the offers that itemize nothing. */
  function Unitemized(costs: seq<OfferCost>, side: Side): nat {
    if costs == [] then 0
    else
      var total := side.Of()(costs[0]);
      (if costs[0].lineItems == [] && total.Some? then total.value.amount else 0) + Unitemized(costs[1..], side)
  }

  lemma {:induction false} ItemTotalAppend(a: seq<CostLineItem>, b: seq<CostLineItem>, part: CostLineItem -> Money)
    ensures ItemTotal(a + b, part) == ItemTotal(a, part) + ItemTotal(b, part)
  {
    if a == [] {
      assert a + b == b;
    } else {
      assert (a + b)[1..] == a[1..] + b;
      ItemTotalAppend(a[1..], b, part);
    }
  }

  lemma UsableOffer(c: OfferCost, side: Side)
    requires Usable(c)
    ensures c.low.Some? && c.base.Some? && c.high.Some?
    ensures CostBounds(c.low.value, c.base.value, c.high.value).Valid()
    ensures side.Of()(c).Some?
    ensures c.lineItems != [] ==> ItemTotal(c.lineItems, side.Part()) == side.Of()(c).value.amount
    ensures |Filter(c.lineItems, IsFee)| == if c.paymentRequired then 1 else 0
  {
  }

  /** Totals are the bundled line items plus what was never itemized. */
  lemma {:induction false} TotalsSplit(costs: seq<OfferCost>, side: Side)
    requires AllUsable(costs)
    ensures Amounts(costs, side.Of()) == ItemTotal(FlatMap(costs, ItemsOf), side.Part()) + Unitemized(costs, side)
  {
    if costs != [] {
      assert costs[0] in costs && forall c :: c in costs[1..] ==> c in costs;
      UsableOffer(costs[0], side);
      ItemTotalAppend(ItemsOf(costs[0]), FlatMap(costs[1..], ItemsOf), side.Part());
      TotalsSplit(costs[1..], side);
    }
  }

  /** Exactly one fee item for each paying component. */
  lemma {:induction false} FeesPerPayment(costs: seq<OfferCost>)
    requires AllUsable(costs)
    ensures |Filter(FlatMap(costs, ItemsOf), IsFee)| == Payments(costs)
  {
    if costs != [] {
      assert costs[0] in costs && forall c :: c in costs[1..] ==> c in costs;
      UsableOffer(costs[0], LowSide);
      FilterAppend(ItemsOf(costs[0]), FlatMap(costs[1..], ItemsOf), IsFee);
      FeesPerPayment(costs[1..]);
    }
  }

  lemma {:induction false} TotalsOrdered(costs: seq<OfferCost>)
    requires AllUsable(costs)
    ensures Amounts(costs, LowOf) <= Amounts(costs, BaseOf) <= Amounts(costs, HighOf)
  {
    if costs != [] {
      assert costs[0] in costs && forall c :: c in costs[1..] ==> c in costs;
      UsableOffer(costs[0], LowSide);
      TotalsOrdered(costs[1..]);
    }
  }

  lemma {:induction false} UnitemizedZero(costs: seq<OfferCost>, side: Side)
    requires AllUsable(costs)
    ensures Unitemized(costs, side) == 0
            <==> forall c :: c in costs && c.lineItems == [] ==> side.Of()(c).Some? && side.Of()(c).value.amount == 0
  {
    if costs != [] {
      assert costs[0] in costs && forall c :: c in costs ==> c == costs[0] || c in costs[1..];
      assert forall c :: c in costs[1..] ==> c in costs;
      UsableOffer(costs[0], side);
      UnitemizedZero(costs[1..], side);
    }
  }

  lemma {:induction false} NoItems(costs: seq<OfferCost>)
    ensures FlatMap(costs, ItemsOf) == [] <==> forall c :: c in costs ==> c.lineItems == []
  {
    if costs != [] {
      assert costs[0] in costs && forall c :: c in costs ==> c == costs[0] || c in costs[1..];
      assert forall c :: c in costs[1..] ==> c in costs;
      NoItems(costs[1..]);
    }
  }

  /** An offer that itemizes nothing costs nothing. */
  predicate Costless(c: OfferCost) {
    forall side :: side in {LowSide, BaseSide, HighSide} ==> side.Of()(c).Some? && side.Of()(c).value.amount == 0
  }

  /** Nobody itemizes, or whoever does not itemize costs nothing. */
  predicate ItemizedAlike(costs: seq<OfferCost>) {
    (forall c :: c in costs ==> c.lineItems == []) || (forall c :: c in costs && c.lineItems == [] ==> Costless(c))
  }

  lemma BundleTotals(host: Host, costs: seq<OfferCost>)
    requires AllUsable(costs)
    ensures var b := Bundle(host, costs, |costs|);
            && b.low == Some(Money(Amounts(costs, LowOf), BundleCurrency(costs)))
            && b.base == Some(Money(Amounts(costs, BaseOf), BundleCurrency(costs)))
            && b.high == Some(Money(Amounts(costs, HighOf), BundleCurrency(costs)))
            && CostBounds(b.low.value, b.base.value, b.high.value).Valid()
  {
    forall c | c in costs ensures c.low.Some? && c.base.Some? && c.high.Some? { UsableOffer(c, LowSide); }
    TotalsOrdered(costs);
  }

  /** A stated total is the sum of the line items and of what the offers without any cost. */
  predicate SumsUp(c: OfferCost, costs: seq<OfferCost>, side: Side) {
    side.Of()(c).Some? && side.Of()(c).value.amount == ItemTotal(c.lineItems, side.Part()) + Unitemized(costs, side)
  }

  /** Every total is that sum, totals are ordered, there is one fee for each paying component. */
  ghost predicate Conserves(c: OfferCost, payments: nat, costs: seq<OfferCost>) {
    && c.lineItems == FlatMap(costs, ItemsOf)
    && SumsUp(c, costs, LowSide) && SumsUp(c, costs, BaseSide) && SumsUp(c, costs, HighSide)
    && c.low.value.amount <= c.base.value.amount <= c.high.value.amount
    && payments == |Filter(c.lineItems, IsFee)|
  }

  lemma BundleConserves(host: Host, costs: seq<OfferCost>)
    requires AllUsable(costs)
    ensures Conserves(Bundle(host, costs, |costs|), Payments(costs), costs)
    ensures ValidCost(Bundle(host, costs, |costs|), Payments(costs)) == Ok(None) <==> ItemizedAlike(costs)
  {
    hide ValidCost, ItemizedAlike;
    BundleTotals(host, costs);
    TotalsOrdered(costs);
    FeesPerPayment(costs);
    TotalsSplit(costs, LowSide);
    TotalsSplit(costs, BaseSide);
    TotalsSplit(costs, HighSide);
    AcceptsExactly(host, costs);
  }

  /** Offers without line items add nothing to any total. */
  predicate AllItemized(costs: seq<OfferCost>) {
    Unitemized(costs, LowSide) == 0 && Unitemized(costs, BaseSide) == 0 && Unitemized(costs, HighSide) == 0
  }

  lemma ItemizedExact(costs: seq<OfferCost>)
    requires AllUsable(costs)
    ensures ItemizedAlike(costs) <==> FlatMap(costs, ItemsOf) == [] || AllItemized(costs)
  {
    hide AllUsable, Unitemized, FlatMap;
    NoItems(costs);
    UnitemizedZero(costs, LowSide);
    UnitemizedZero(costs, BaseSide);
    UnitemizedZero(costs, HighSide);
  }

  lemma TotalsAgreeExact(host: Host, costs: seq<OfferCost>)
    requires AllUsable(costs)
    ensures var b := Bundle(host, costs, |costs|);
            && b.low.Some? && b.base.Some? && b.high.Some?
            && (TotalsAgree(b) <==> FlatMap(costs, ItemsOf) == [] || AllItemized(costs))
  {
    hide AllUsable, Unitemized, FlatMap, ItemTotal, Amounts, Currencies, BundleCurrency, Payments;
    BundleTotals(host, costs);
    TotalsSplit(costs, LowSide);
    TotalsSplit(costs, BaseSide);
    TotalsSplit(costs, HighSide);
  }

  lemma FeesRight(host: Host, costs: seq<OfferCost>)
    requires AllUsable(costs)
    ensures FeesAgree(Bundle(host, costs, |costs|), Payments(costs))
  {
    hide AllUsable, FlatMap, Total, BundleCurrency, Payments, Filter;
    FeesPerPayment(costs);
  }

  lemma AcceptsExactly(host: Host, costs: seq<OfferCost>)
    requires AllUsable(costs)
    ensures ValidCost(Bundle(host, costs, |costs|), Payments(costs)) == Ok(None) <==> ItemizedAlike(costs)
  {
    hide AllUsable, Bundle, Payments, ItemizedAlike, AllItemized, ValidCost, FeesAgree, TotalsAgree;
    BundleTotals(host, costs);
    FeesRight(host, costs);
    TotalsAgreeExact(host, costs);
    ItemizedExact(costs);
    CostExact(Bundle(host, costs, |costs|), Payments(costs));
  }

  // ---- The cost of a plan's components ----

  lemma {:induction false} PresentCount(offers: map<string, OfferCost>, records: seq<RawCandidate>)
    ensures |Present(offers, records)| <= |records|
    ensures |Present(offers, records)| == |records| <==> forall r :: r in records ==> r.offerId in offers
    ensures forall c ::
            c in Present(offers, records) ==> exists r :: r in records && r.offerId in offers && c == offers[r.offerId]
  {
    if records != [] {
      PresentCount(offers, records[1..]);
      assert records[0] in records && forall r :: r in records ==> r == records[0] || r in records[1..];
      assert forall r :: r in records[1..] ==> r in records;
    }
  }

  lemma SingleConserves(c: OfferCost)
    requires Usable(c)
    ensures Conserves(c, Payments([c]), [c]) && ItemizedAlike([c])
    ensures ValidCost(c, Payments([c])) == Ok(None) && !Incomparable([c])
  {
    hide ItemTotal;
    UsableOffer(c, LowSide);
    UsableOffer(c, BaseSide);
    UsableOffer(c, HighSide);
    assert [c][1..] == [] && c.lineItems + [] == c.lineItems;
    assert FlatMap([c], ItemsOf) == ItemsOf(c) + FlatMap([c][1..], ItemsOf);
    assert Payments([c]) == if c.paymentRequired then 1 else 0;
    NothingItemized(c);
    OneCurrency(c);
  }

  lemma NothingItemized(c: OfferCost)
    requires Usable(c)
    ensures forall side: Side :: side.Of()(c).Some?
    ensures forall side: Side :: Unitemized([c], side) == if c.lineItems == [] then side.Of()(c).value.amount else 0
    ensures c.lineItems == [] ==> forall side: Side :: ItemTotal(c.lineItems, side.Part()) == 0
  {
    forall side: Side
      ensures side.Of()(c).Some? && Unitemized([c], side) == if c.lineItems == [] then side.Of()(c).value.amount else 0
    {
      UsableOffer(c, side);
      assert [c][1..] == [] && Unitemized([], side) == 0;
    }
  }

  lemma OneCurrency(c: OfferCost)
    requires Usable(c)
    ensures !Incomparable([c])
  {
    UsableOffer(c, LowSide);
    assert (set x | x in [c] :: x.horizonDays) == {c.horizonDays};
    var currency := c.low.value.currency;
    assert [c][1..] == [] && FlatMap([c], Stated) == Stated(c) + FlatMap([c][1..], Stated);
    assert Stated(c) == [c.low.value, c.base.value, c.high.value];
    forall x | x in Currencies([c]) ensures x == currency {
      var i :| 0 <= i < |Currencies([c])| && Currencies([c])[i] == x;
      assert Stated(c)[i] in Stated(c);
    }
    var all := set x | x in Currencies([c]) :: x;
    if all != {} { assert all == {currency}; }
  }

  /**
   * What the components of a plan cost together, when each has a usable offer: every total is the sum of
   * all line items and of what the offers without items cost, there is one fee for each paying component,
   * the only possible issue is offers that cannot be compared, and the cost check passes exactly when
   * nobody itemizes or whoever does not costs nothing.
   */
  lemma CombinedConserves(host: Host, records: seq<RawCandidate>, offers: map<string, OfferCost>)
    requires records != [] && forall r :: r in records ==> r.offerId in offers && Usable(offers[r.offerId])
    ensures var (cost, payments, issues) := CombinedCost(host, records, offers);
            var costs := Present(offers, records);
            && |costs| == |records| && Conserves(cost, payments, costs)
            && issues == (if Incomparable(costs) then {"INCOMPARABLE_DEPENDENCY_COST"} else {})
            && (ValidCost(cost, payments) == Ok(None) <==> ItemizedAlike(costs))
  {
    hide Usable, Conserves, ItemizedAlike, ValidCost, Bundle, Incomparable, Payments, Present;
    var costs := Present(offers, records);
    PresentCount(offers, records);
    forall c | c in costs ensures Usable(c) {
      var r :| r in records && r.offerId in offers && c == offers[r.offerId];
    }
    if |costs| == 1 {
      assert costs == [costs[0]] && costs[0] in costs;
      SingleConserves(costs[0]);
    } else {
      BundleConserves(host, costs);
    }
  }

  /** A component without a known offer is an issue, and leaves every total unknown. */
  lemma MissingOffer(host: Host, records: seq<RawCandidate>, offers: map<string, OfferCost>)
    requires records != []
    ensures var (cost, payments, issues) := CombinedCost(host, records, offers);
            && ("MISSING_REQUIRED_DEPENDENCY_OFFER" in issues <==> exists r :: r in records && r.offerId !in offers)
            && ("MISSING_REQUIRED_DEPENDENCY_OFFER" in issues ==> cost.low.None? && cost.base.None? && cost.high.None?)
  {
    hide Incomparable, Payments, Present;
    PresentCount(offers, records);
    assert "MISSING_REQUIRED_DEPENDENCY_OFFER"[0] != "INCOMPARABLE_DEPENDENCY_COST"[0];
  }

  /** The offers state no currency but this. */
  ghost predicate AllIn(costs: seq<OfferCost>, currency: string) {
    forall c :: c in costs ==>
      && (c.low.Some? ==> c.low.value.currency == currency) && (c.base.Some? ==> c.base.value.currency == currency)
      && (c.high.Some? ==> c.high.value.currency == currency)
  }

  lemma StatedIn(costs: seq<OfferCost>, currency: string)
    requires AllIn(costs, currency)
    ensures forall x :: x in Currencies(costs) ==> x == currency
  {
    var stated := FlatMap(costs, Stated);
    forall x | x in Currencies(costs) ensures x == currency {
      var i :| 0 <= i < |stated| && Currencies(costs)[i] == x;
      FlatMapMembers(costs, Stated, stated[i]);
      var j :| 0 <= j < |costs| && stated[i] in Stated(costs[j]);
      assert costs[j] in costs;
    }
  }

  lemma SomeStated(costs: seq<OfferCost>, c: OfferCost)
    requires c in costs && c.base.Some?
    ensures Currencies(costs) != []
  {
    var i :| 0 <= i < |costs| && costs[i] == c;
    assert c.base.value in Stated(costs[i]);
    FlatMapMembers(costs, Stated, c.base.value);
  }

  /** Several offers over one horizon and in one currency make a bundle over that horizon and in that currency. */
  lemma BundleComparable(host: Host, costs: seq<OfferCost>, days: nat, currency: string)
    requires costs != [] && AllIn(costs, currency) && forall c :: c in costs ==> c.horizonDays == days
    ensures var b := Bundle(host, costs, |costs|);
            && b.horizonDays == days
            && (b.low.Some? && b.base.Some? && b.high.Some? ==>
                  b.low.value.currency == b.base.value.currency == b.high.value.currency == currency)
  {
    assert costs[0] in costs;
    StatedIn(costs, currency);
    if costs[0].base.Some? {
      SomeStated(costs, costs[0]);
      assert Currencies(costs)[0] in Currencies(costs);
    } else {
      assert BaseOf(costs[0]).None?;
    }
  }
}
