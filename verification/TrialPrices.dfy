/** When the winner of a proof campaign is the cheapest adapter, and which campaigns are refused. */
module TrialPrices {
  import opened Outcomes
  import opened Ordering
  import opened Domain
  import opened GraphModels
  import opened Bridge
  import opened Trials
  import opened TrialOutcome
  import opened TrialWinner

  /** Cheaper as declared, or equally dear and earlier in identifier order. */
  predicate Precedes(host: Host, v: CandidateVerdict, w: CandidateVerdict) {
    v.priceCents < w.priceCents
      || (v.priceCents == w.priceCents && StrLess(host.fold(v.adapterId), host.fold(w.adapterId)))
  }

  /** v passed every active gate, and no verdict that did precedes it. */
  ghost predicate Cheapest(t: Trial, v: CandidateVerdict) {
    v in t.verdicts && Clear(t.Active(), v) && forall w ::
      w in t.verdicts && Clear(t.Active(), w) ==> !Precedes(t.host, w, v)
  }

  /** The run names a cheapest verdict, or none passed. */
  ghost predicate NamesCheapest(t: Trial) {
    AnyClear(t) ==> exists v :: Cheapest(t, v) && WonBy(t, v)
  }

  /** What the plans are charged puts the verdicts in the order of their declared prices. */
  ghost predicate OrdersAgree(t: Trial) {
    forall v, w :: v in t.verdicts && w in t.verdicts && Precedes(t.host, v, w) ==> ChargedBefore(t, v, w)
  }

  /** Where both orders agree, the winner is the cheapest verdict that passed every active gate. */
  lemma CheapestWins(t: Trial)
    requires t.Separated() && PlanIdsSeparate(t) && OrdersAgree(t)
    ensures NamesCheapest(t)
    ensures !AnyClear(t) ==> Outcome(t) == Raise(NoStableWinner)
  {
    hide EvaluateWithDecisionGraph, ChargedBefore, Clear, Precedes, ActiveGates;
    WinnerExact(t);
    if AnyClear(t) {
      var v :| First(t, v) && WonBy(t, v);
      assert Cheapest(t, v);
    }
  }

  // ---- Exactly when the cheapest wins ----

  /** The same campaign with other gate outcomes. */
  function Failing(t: Trial, failed: seq<set<Failure>>): Trial
    requires |failed| == |t.verdicts|
  {
    t.(verdicts := seq(|t.verdicts|, i requires 0 <= i < |t.verdicts| => t.verdicts[i].(failed := failed[i])))
  }

  /** Adapters and prices agree, place by place. */
  predicate SameAdapters(vs: seq<CandidateVerdict>, ws: seq<CandidateVerdict>) {
    |vs| == |ws| && forall i ::
      0 <= i < |vs| ==> vs[i].adapterId == ws[i].adapterId && vs[i].priceCents == ws[i].priceCents
  }

  /** What a plan is charged does not depend on the gates. */
  lemma {:induction false} SameCharge(host: Host, vs: seq<CandidateVerdict>, ws: seq<CandidateVerdict>,
      v: CandidateVerdict, w: CandidateVerdict)
    requires SameAdapters(vs, ws) && v.adapterId == w.adapterId && v.priceCents == w.priceCents
    ensures ChargerOf(host, vs, v).priceCents == ChargerOf(host, ws, w).priceCents
  {
    OfferFoldIs(host, v);
    OfferFoldIs(host, w);
    if vs != [] {
      OfferFoldIs(host, vs[|vs| - 1]);
      OfferFoldIs(host, ws[|ws| - 1]);
      SameCharge(host, vs[..|vs| - 1], ws[..|ws| - 1], v, w);
    }
  }

  /** Every verdict has a counterpart with its adapter. */
  lemma SameIds(t: Trial, u: Trial)
    requires t.host == u.host && SameAdapters(t.verdicts, u.verdicts)
    ensures forall w :: w in u.verdicts ==> exists v :: v in t.verdicts && v.adapterId == w.adapterId
    ensures Map(t.verdicts, AdapterFold(t.host)) == Map(u.verdicts, AdapterFold(t.host))
    ensures Map(t.verdicts, SuffixOf) == Map(u.verdicts, SuffixOf)
    ensures PlanIdsSeparate(t) ==> PlanIdsSeparate(u)
  {
    forall w | w in u.verdicts ensures exists v :: v in t.verdicts && v.adapterId == w.adapterId {
      var i :| 0 <= i < |u.verdicts| && u.verdicts[i] == w;
      assert t.verdicts[i] in t.verdicts;
    }
  }

  lemma SameSeparated(t: Trial, u: Trial)
    requires t.host == u.host && t.manifestGates == u.manifestGates && SameAdapters(t.verdicts, u.verdicts)
    requires t.Separated() && PlanIdsSeparate(t)
    ensures u.Separated() && PlanIdsSeparate(u)
  {
    hide Map, Suffix;
    SameIds(t, u);
  }

  lemma SameOrders(t: Trial, u: Trial, i: nat, j: nat)
    requires t.host == u.host && SameAdapters(t.verdicts, u.verdicts) && i < |t.verdicts| && j < |t.verdicts|
    ensures Precedes(t.host, t.verdicts[i], t.verdicts[j]) <==> Precedes(u.host, u.verdicts[i], u.verdicts[j])
    ensures ChargedBefore(t, t.verdicts[i], t.verdicts[j]) <==> ChargedBefore(u, u.verdicts[i], u.verdicts[j])
  {
    SameCharge(t.host, t.verdicts, u.verdicts, t.verdicts[i], u.verdicts[i]);
    SameCharge(t.host, t.verdicts, u.verdicts, t.verdicts[j], u.verdicts[j]);
  }

  lemma AgreeAlike(t: Trial, u: Trial)
    requires t.host == u.host && SameAdapters(t.verdicts, u.verdicts) && OrdersAgree(t)
    ensures OrdersAgree(u)
  {
    hide Precedes, ChargedBefore;
    forall v, w | v in u.verdicts && w in u.verdicts && Precedes(u.host, v, w) ensures ChargedBefore(u, v, w) {
      var i :| 0 <= i < |u.verdicts| && u.verdicts[i] == v;
      var j :| 0 <= j < |u.verdicts| && u.verdicts[j] == w;
      SameOrders(t, u, i, j);
      assert t.verdicts[i] in t.verdicts && t.verdicts[j] in t.verdicts;
    }
  }

  /** Everyone but the two at i and j fails the canary. */
  function OnlyTwo(n: nat, i: nat, j: nat): (failed: seq<set<Failure>>)
    ensures |failed| == n
  {
    seq(n, k => if k == i || k == j then {} else {GateFailed(FunctionalCanary)})
  }

  /** Of all verdicts only those at i and j passed every active gate. */
  ghost predicate OnlyClear(t: Trial, i: nat, j: nat) {
    forall k :: 0 <= k < |t.verdicts| ==> (Clear(t.Active(), t.verdicts[k]) <==> k == i || k == j)
  }

  lemma OnlyTwoClear(t: Trial, i: nat, j: nat)
    requires i < |t.verdicts| && j < |t.verdicts|
    ensures OnlyClear(Failing(t, OnlyTwo(|t.verdicts|, i, j)), i, j)
  {
    var u := Failing(t, OnlyTwo(|t.verdicts|, i, j));
    assert u.Active()[0] == FunctionalCanary;
    forall k | 0 <= k < |u.verdicts| ensures Clear(u.Active(), u.verdicts[k]) <==> k == i || k == j {
      if k != i && k != j { assert !Passed(u.verdicts[k], FunctionalCanary); }
    }
  }

  /** With only two verdicts clear, neither before the other as charged, the winner is the second. */
  lemma SecondWins(u: Trial, i: nat, j: nat)
    requires i < |u.verdicts| && j < |u.verdicts| && u.verdicts[i] != u.verdicts[j]
    requires OnlyClear(u, i, j) && !ChargedBefore(u, u.verdicts[i], u.verdicts[j])
    requires u.Separated() && PlanIdsSeparate(u)
    ensures AnyClear(u) && WonBy(u, u.verdicts[j])
  {
    hide EvaluateWithDecisionGraph, ActiveGates, Clear, ChargedBefore;
    var v, w := u.verdicts[i], u.verdicts[j];
    assert v in u.verdicts && Clear(u.Active(), v);
    ChargedTotal(u, v, w);
    WinnerExact(u);
    var x :| First(u, x) && WonBy(u, x);
    var k :| 0 <= k < |u.verdicts| && u.verdicts[k] == x;
  }

  /** Two verdicts whose orders disagree, with everyone else out: the dearer one wins. */
  lemma Undercut(t: Trial, i: nat, j: nat)
    requires i < |t.verdicts| && j < |t.verdicts|
    requires Precedes(t.host, t.verdicts[i], t.verdicts[j]) && !ChargedBefore(t, t.verdicts[i], t.verdicts[j])
    requires t.Separated() && PlanIdsSeparate(t)
    ensures !NamesCheapest(Failing(t, OnlyTwo(|t.verdicts|, i, j)))
  {
    hide ActiveGates, Clear, ChargedBefore, Precedes, OnlyTwo, NamesCheapest;
    var u := Failing(t, OnlyTwo(|t.verdicts|, i, j));
    SameSeparated(t, u);
    OnlyTwoClear(t, i, j);
    SameOrders(t, u, i, j);
    DearerWins(u, i, j);
  }

  lemma DearerWins(u: Trial, i: nat, j: nat)
    requires i < |u.verdicts| && j < |u.verdicts|
    requires Precedes(u.host, u.verdicts[i], u.verdicts[j]) && !ChargedBefore(u, u.verdicts[i], u.verdicts[j])
    requires OnlyClear(u, i, j)
    requires u.Separated() && PlanIdsSeparate(u)
    ensures !NamesCheapest(u)
  {
    hide EvaluateWithDecisionGraph, ActiveGates, Clear, ChargedBefore, Precedes;
    Irreflexive(u, u.verdicts[i]);
    SecondWins(u, i, j);
    if c :| Cheapest(u, c) && WonBy(u, c) {
      SameFold(u, c, u.verdicts[j]);
    }
  }

  lemma Irreflexive(t: Trial, v: CandidateVerdict)
    ensures !Precedes(t.host, v, v)
  {
    StrOrder();
  }

  lemma AgreeingNames(t: Trial, failed: seq<set<Failure>>)
    requires |failed| == |t.verdicts|
    requires t.Separated() && PlanIdsSeparate(t) && OrdersAgree(t)
    ensures NamesCheapest(Failing(t, failed))
  {
    hide NamesCheapest, Precedes, ChargedBefore;
    SameSeparated(t, Failing(t, failed));
    AgreeAlike(t, Failing(t, failed));
    CheapestWins(Failing(t, failed));
  }

  lemma SomeUndercut(t: Trial)
    requires t.Separated() && PlanIdsSeparate(t) && !OrdersAgree(t)
    ensures exists failed: seq<set<Failure>> :: |failed| == |t.verdicts| && !NamesCheapest(Failing(t, failed))
  {
    hide NamesCheapest, Precedes, ChargedBefore, Failing, OnlyTwo;
    var v, w :| v in t.verdicts && w in t.verdicts && Precedes(t.host, v, w) && !ChargedBefore(t, v, w);
    var i :| 0 <= i < |t.verdicts| && t.verdicts[i] == v;
    var j :| 0 <= j < |t.verdicts| && t.verdicts[j] == w;
    Undercut(t, i, j);
    assert |OnlyTwo(|t.verdicts|, i, j)| == |t.verdicts|;
  }

  /**
   * Whatever the gates say, the winner is the cheapest verdict that passed them, exactly when charging
   * puts the verdicts in the order of their declared prices.
   */
  lemma CheapestExact(t: Trial)
    requires t.Separated() && PlanIdsSeparate(t)
    ensures OrdersAgree(t)
            <==> forall failed: seq<set<Failure>> :: |failed| == |t.verdicts| ==> NamesCheapest(Failing(t, failed))
  {
    hide NamesCheapest, Precedes, ChargedBefore, Failing, OrdersAgree;
    if OrdersAgree(t) {
      forall failed: seq<set<Failure>> | |failed| == |t.verdicts| ensures NamesCheapest(Failing(t, failed)) {
        AgreeingNames(t, failed);
      }
    } else {
      SomeUndercut(t);
    }
  }

  // ---- Shared offers ----

  /** Verdicts that share a folded offer identifier share a price. */
  ghost predicate SharedPrices(t: Trial) {
    forall v, w ::
        v in t.verdicts && w in t.verdicts && OfferFold(t.host)(v) == OfferFold(t.host)(w) ==>
          v.priceCents == w.priceCents
  }

  lemma {:induction false} SameCharger(host: Host, verdicts: seq<CandidateVerdict>, v: CandidateVerdict,
      w: CandidateVerdict)
    requires v in verdicts && OfferFold(host)(v) == OfferFold(host)(w)
    ensures ChargerOf(host, verdicts, v) == ChargerOf(host, verdicts, w)
  {
    var before, last := verdicts[..|verdicts| - 1], verdicts[|verdicts| - 1];
    assert verdicts == before + [last];
    if OfferFold(host)(last) != OfferFold(host)(v) { SameCharger(host, before, v, w); }
  }

  /** Every verdict is charged its declared price exactly when verdicts sharing an offer share a price. */
  lemma DeclaredIsCharged(t: Trial)
    ensures SharedPrices(t) <==> forall v :: v in t.verdicts ==> t.Charged(v) == v.priceCents
  {
    hide OfferFold;
    if forall v :: v in t.verdicts ==> t.Charged(v) == v.priceCents {
      forall v, w | v in t.verdicts && w in t.verdicts && OfferFold(t.host)(v) == OfferFold(t.host)(w)
        ensures v.priceCents == w.priceCents
      {
        SameCharger(t.host, t.verdicts, v, w);
        assert t.Charged(v) == t.Charged(w);
      }
    }
    if SharedPrices(t) {
      forall v | v in t.verdicts ensures t.Charged(v) == v.priceCents {
        assert t.Charger(v) in t.verdicts;
      }
    }
  }

  /** The orders agree where shared offers share a price, so then the cheapest wins. */
  lemma SharedPricesAgree(t: Trial)
    requires SharedPrices(t)
    ensures OrdersAgree(t)
  {
    hide ChargerOf;
    DeclaredIsCharged(t);
  }
}
