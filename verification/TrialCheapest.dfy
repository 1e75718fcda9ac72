/** Exactly when every run of a campaign names the cheapest adapter that passed every gate. */
module TrialCheapest {
  import opened Outcomes
  import opened Ordering
  import opened Bridge
  import opened Trials
  import opened TrialOutcome
  import opened TrialWinner
  import opened TrialPrices
  import opened TrialCollisions

  /** Folding adapter and offer identifiers a second time changes nothing. */
  ghost predicate StableFolds(t: Trial) {
    forall v :: v in t.verdicts ==> FoldsStably(t.host, v.adapterId) && FoldsStably(t.host, TrialOfferId(v))
  }

  /** The identifiers of the campaign keep its adapters apart. */
  ghost predicate KeptApart(t: Trial) {
    Distinct(Map(t.verdicts, SuffixOf)) && FunctionalCanary !in t.manifestGates
    && Distinct(Map(t.verdicts, AdapterFold(t.host)))
  }

  /** Whatever the gates say, the run names the cheapest verdict that passed them. */
  ghost predicate AlwaysCheapest(t: Trial) {
    forall failed: seq<set<Failure>> :: |failed| == |t.verdicts| ==> NamesCheapest(Failing(t, failed))
  }

  lemma ByIdAlone(t: Trial, v: CandidateVerdict, u: Trial, w: CandidateVerdict)
    requires t.host == u.host && v.adapterId == w.adapterId
    ensures KeyOf(t, v) == KeyOf(u, w)
  {
  }

  lemma SameDecide(t: Trial, failed: seq<set<Failure>>)
    requires |failed| == |t.verdicts| && FoldsDecide(t)
    ensures FoldsDecide(Failing(t, failed))
  {
    hide KeyOf;
    var u := Failing(t, failed);
    SameIds(t, u);
    forall v, w | v in u.verdicts && w in u.verdicts && u.host.fold(v.adapterId) == u.host.fold(w.adapterId)
      ensures KeyOf(u, v) == KeyOf(u, w)
    {
      var x :| x in t.verdicts && x.adapterId == v.adapterId;
      var y :| y in t.verdicts && y.adapterId == w.adapterId;
      ByIdAlone(t, x, u, v);
      ByIdAlone(t, y, u, w);
    }
  }

  // ---- Refused ----

  /** Nobody fails. */
  function NoFailures(n: nat): (failed: seq<set<Failure>>)
    ensures |failed| == n
  {
    seq(n, k => {})
  }

  lemma AllClear(t: Trial)
    requires t.verdicts != []
    ensures AnyClear(Failing(t, NoFailures(|t.verdicts|)))
  {
    hide ActiveGates;
    var u := Failing(t, NoFailures(|t.verdicts|));
    assert u.verdicts[0] in u.verdicts && Clear(u.Active(), u.verdicts[0]);
  }

  lemma RaisedMisses(u: Trial)
    requires AnyClear(u) && Outcome(u).Raise?
    ensures !NamesCheapest(u)
  {
    hide EvaluateWithDecisionGraph, AnyClear, Cheapest;
  }

  /** A run that is refused names nobody, although everyone passed. */
  lemma RefusedMisses(t: Trial)
    requires t.verdicts != []
    requires !Distinct(Map(t.verdicts, SuffixOf)) || FunctionalCanary in t.manifestGates
    ensures !NamesCheapest(Failing(t, NoFailures(|t.verdicts|)))
  {
    hide EvaluateWithDecisionGraph, ActiveGates, Distinct, Map, AnyClear, NamesCheapest, SuffixOf;
    var u := Failing(t, NoFailures(|t.verdicts|));
    SameIds(t, u);
    RefusedExact(u);
    AllClear(t);
    RaisedMisses(u);
  }

  // ---- Merged ----

  /** Where i folds like j and alone passes, it is never named. */
  lemma MergedMisses(t: Trial, i: nat, j: nat)
    requires i < |t.verdicts| && j < |t.verdicts| && i != j
    requires t.host.fold(t.verdicts[i].adapterId) == t.host.fold(t.verdicts[j].adapterId)
    requires FoldsDecide(t) && PlanIdsSeparate(t)
    ensures !NamesCheapest(Failing(t, OnlyTwo(|t.verdicts|, i, i)))
  {
    hide NamesCheapest, FoldsDecide, PlanIdsSeparate, OnlyTwo, Map, OnlyClear;
    var u := Failing(t, OnlyTwo(|t.verdicts|, i, i));
    SameIds(t, u);
    SameDecide(t, OnlyTwo(|t.verdicts|, i, i));
    OnlyTwoClear(t, i, i);
    LoneMisses(u, i, j);
  }

  lemma LoneMisses(u: Trial, i: nat, j: nat)
    requires i < |u.verdicts| && j < |u.verdicts| && i != j && OnlyClear(u, i, i)
    requires u.host.fold(u.verdicts[i].adapterId) == u.host.fold(u.verdicts[j].adapterId)
    requires FoldsDecide(u) && PlanIdsSeparate(u)
    ensures !NamesCheapest(u)
  {
    hide EvaluateWithDecisionGraph, ActiveGates, FoldsDecide, PlanIdsSeparate, Clear, Differ, Precedes;
    var v, w := u.verdicts[i], u.verdicts[j];
    assert v in u.verdicts && w in u.verdicts && Clear(u.Active(), v) && !Clear(u.Active(), w);
    OneCleared(u, v, w);
    MergedNeverNamed(u, v, w);
    forall c | Cheapest(u, c) ensures !WonBy(u, c) {
      var k :| 0 <= k < |u.verdicts| && u.verdicts[k] == c;
      assert c == v;
    }
  }

  /** Who passed every active gate differs from who did not. */
  lemma OneCleared(t: Trial, v: CandidateVerdict, w: CandidateVerdict)
    requires Clear(t.Active(), v) && !Clear(t.Active(), w)
    ensures Differ(t, v, w)
  {
    hide ActiveGates;
  }

  lemma NotApart(t: Trial)
    requires t.verdicts != [] && !KeptApart(t) && FoldsDecide(t) && PlanIdsSeparate(t)
    ensures !AlwaysCheapest(t)
  {
    hide NamesCheapest, FoldsDecide, PlanIdsSeparate, Failing, OnlyTwo, NoFailures;
    if !Distinct(Map(t.verdicts, SuffixOf)) || FunctionalCanary in t.manifestGates {
      RefusedMisses(t);
      assert |NoFailures(|t.verdicts|)| == |t.verdicts|;
    } else {
      var folds := Map(t.verdicts, AdapterFold(t.host));
      var i, j :| 0 <= i < j < |folds| && folds[i] == folds[j];
      MergedMisses(t, i, j);
      assert |OnlyTwo(|t.verdicts|, i, i)| == |t.verdicts|;
    }
  }

  lemma ApartSeparated(t: Trial)
    requires StableFolds(t) && KeptApart(t)
    ensures t.Separated()
  {
    hide Map, Suffix, TrialOfferId;
  }

  /**
   * Whatever the gates say, the run names the cheapest adapter that passed them, exactly when there are
   * no adapters, or identifiers keep them apart and charging keeps the order of their declared prices.
   */
  lemma AlwaysCheapestExact(t: Trial)
    requires StableFolds(t) && FoldsDecide(t) && PlanIdsSeparate(t)
    ensures AlwaysCheapest(t) <==> t.verdicts == [] || (KeptApart(t) && OrdersAgree(t))
  {
    hide NamesCheapest, FoldsDecide, PlanIdsSeparate, Failing, OrdersAgree, KeptApart, StableFolds;
    if t.verdicts == [] {
      NobodyClear(t);
    } else if KeptApart(t) {
      ApartSeparated(t);
      CheapestExact(t);
    } else {
      NotApart(t);
    }
  }

  lemma NobodyClear(t: Trial)
    requires t.verdicts == []
    ensures AlwaysCheapest(t)
  {
    hide EvaluateWithDecisionGraph;
  }
}
