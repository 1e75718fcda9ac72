/** Which gates a counterfactual answer reports as changed. */
module GateChanges {
  import opened Outcomes
  import opened Domain
  import opened GraphModels
  import opened Engine
  import opened Counterfactual

  /** Gate j is the last one of the plan with the identifier, and came out t. */
  ghost predicate LastGate(gates: seq<GateResult>, gateId: string, j: int, t: TruthValue) {
    && 0 <= j < |gates| && gates[j].gateId == gateId && gates[j].truth == t
    && forall l :: j < l < |gates| ==> gates[l].gateId != gateId
  }

  ghost predicate HasGate(p: EvaluatedPlan, actions: seq<string>, gateId: string) {
    p.stableActionIds == actions && exists g :: g in p.gateResults && g.gateId == gateId
  }

  /** Plan i is the last one with these actions and a gate of that identifier, and there it came out t. */
  ghost predicate LastWord(plans: seq<EvaluatedPlan>, actions: seq<string>, gateId: string, i: int, t: TruthValue) {
    && 0 <= i < |plans| && plans[i].stableActionIds == actions
    && (exists j :: LastGate(plans[i].gateResults, gateId, j, t))
    && forall k :: i < k < |plans| ==> !HasGate(plans[k], actions, gateId)
  }

  /** What an evaluation says last about a gate of a plan with these actions. */
  ghost predicate SaysOfGate(plans: seq<EvaluatedPlan>, actions: seq<string>, gateId: string, t: TruthValue) {
    exists i :: LastWord(plans, actions, gateId, i, t)
  }

  function EntryOf(p: EvaluatedPlan): GateResult -> ((seq<string>, string), TruthValue) {
    (g: GateResult) => ((p.stableActionIds, g.gateId), g.truth)
  }

  lemma TruthsAre(p: EvaluatedPlan)
    ensures TruthsOf(p) == Map(p.gateResults, EntryOf(p))
  {
  }

  lemma {:induction false} GateEntries(p: EvaluatedPlan, gates: seq<GateResult>, k: (seq<string>, string),
      t: TruthValue)
    ensures var m := Latest(Map(gates, EntryOf(p)));
            && (k in m && m[k] == t <==> p.stableActionIds == k.0 && exists j :: LastGate(gates, k.1, j, t))
            && (k in m <==> p.stableActionIds == k.0 && exists g :: g in gates && g.gateId == k.1)
  {
    if gates != [] {
      var before, last := gates[..|gates| - 1], gates[|gates| - 1];
      assert gates == before + [last];
      MapSnoc(before, last, EntryOf(p));
      var entries := Map(gates, EntryOf(p));
      assert entries[..|before|] == Map(before, EntryOf(p)) && entries[|before|] == EntryOf(p)(last);
      GateEntries(p, before, k, t);
      LastGateOn(before, last, k.1, t);
    }
  }

  lemma LastGateOn(before: seq<GateResult>, last: GateResult, gateId: string, t: TruthValue)
    ensures (exists j :: LastGate(before + [last], gateId, j, t))
            <==> if last.gateId == gateId then last.truth == t else exists j :: LastGate(before, gateId, j, t)
  {
    var gates := before + [last];
    if last.gateId == gateId && last.truth == t { assert LastGate(gates, gateId, |before|, t); }
    if j :| LastGate(before, gateId, j, t) {
      if last.gateId != gateId {
        assert forall l :: j < l < |before| ==> gates[l] == before[l];
        assert LastGate(gates, gateId, j, t);
      }
    }
    if j :| LastGate(gates, gateId, j, t) {
      if last.gateId != gateId {
        assert forall l :: j < l < |before| ==> gates[l] == before[l];
        assert LastGate(before, gateId, j, t);
      } else {
        assert gates[|before|] == last && j == |before|;
      }
    }
  }

  lemma {:induction false} LatestOverrides(a: seq<((seq<string>, string), TruthValue)>,
      b: seq<((seq<string>, string), TruthValue)>, k: (seq<string>, string))
    ensures k in Latest(a + b) <==> k in Latest(a) || k in Latest(b)
    ensures k in Latest(b) ==> Latest(a + b)[k] == Latest(b)[k]
    ensures k !in Latest(b) && k in Latest(a) ==> Latest(a + b)[k] == Latest(a)[k]
  {
    if b == [] {
      assert a + b == a;
    } else {
      assert (a + b)[..|a + b| - 1] == a + b[..|b| - 1];
      LatestOverrides(a, b[..|b| - 1], k);
    }
  }

  lemma FlatMapSnoc<T, U>(s: seq<T>, x: T, f: T -> seq<U>)
    ensures FlatMap(s + [x], f) == FlatMap(s, f) + f(x)
  {
    FlatMapAppend(s, [x], f);
    assert [x][1..] == [] && FlatMap([x], f) == f(x) + FlatMap([x][1..], f);
  }

  lemma LastWordOn(before: seq<EvaluatedPlan>, last: EvaluatedPlan, actions: seq<string>, gateId: string, t: TruthValue)
    ensures SaysOfGate(before + [last], actions, gateId, t)
            <==> if HasGate(last, actions, gateId) then exists j :: LastGate(last.gateResults, gateId, j, t)
                 else SaysOfGate(before, actions, gateId, t)
  {
    hide LastGate;
    var plans := before + [last];
    if HasGate(last, actions, gateId) && exists j :: LastGate(last.gateResults, gateId, j, t) {
      assert LastWord(plans, actions, gateId, |before|, t);
    }
    if i :| LastWord(before, actions, gateId, i, t) {
      if !HasGate(last, actions, gateId) {
        assert forall k :: i < k < |before| ==> plans[k] == before[k];
        assert LastWord(plans, actions, gateId, i, t);
      }
    }
    if i :| LastWord(plans, actions, gateId, i, t) {
      assert plans[|before|] == last;
      if HasGate(last, actions, gateId) {
        assert i == |before|;
      } else {
        GateThere(plans[i].gateResults, gateId, t);
        assert i < |before| && forall k :: i < k < |before| ==> plans[k] == before[k];
        assert LastWord(before, actions, gateId, i, t);
      }
    }
  }

  lemma GateThere(gates: seq<GateResult>, gateId: string, t: TruthValue)
    requires exists j :: LastGate(gates, gateId, j, t)
    ensures exists g :: g in gates && g.gateId == gateId
  {
  }

  lemma {:induction false} TruthsExact(plans: seq<EvaluatedPlan>, k: (seq<string>, string), t: TruthValue)
    ensures var m := Latest(FlatMap(plans, TruthsOf)); k in m && m[k] == t <==> SaysOfGate(plans, k.0, k.1, t)
  {
    hide LastGate;
    if plans != [] {
      var before, last := plans[..|plans| - 1], plans[|plans| - 1];
      assert plans == before + [last];
      FlatMapSnoc(before, last, TruthsOf);
      LatestOverrides(FlatMap(before, TruthsOf), TruthsOf(last), k);
      TruthsAre(last);
      GateEntries(last, last.gateResults, k, t);
      TruthsExact(before, k, t);
      LastWordOn(before, last, k.0, k.1, t);
    }
  }

  /**
   * The two evaluations end up saying different things about the gate of a plan with some
   * actions, or one says nothing.
   */
  ghost predicate Differs(before: Evaluation, after: Evaluation, actions: seq<string>, gateId: string) {
    exists t: TruthValue ::
      SaysOfGate(before.plans, actions, gateId, t) != SaysOfGate(after.plans, actions, gateId, t)
  }

  /**
   * A gate is reported as changed exactly when, for a plan with some actions, the evaluations
   * say different things of it.
   */
  lemma ChangedGatesExact(before: Evaluation, after: Evaluation, gateId: string)
    ensures gateId in ChangedGates(before, after) <==> exists actions :: Differs(before, after, actions, gateId)
  {
    hide Latest, SaysOfGate;
    var a, b := TruthMap(before), TruthMap(after);
    forall k: (seq<string>, string), t: TruthValue
      ensures k in a && a[k] == t <==> SaysOfGate(before.plans, k.0, k.1, t)
      ensures k in b && b[k] == t <==> SaysOfGate(after.plans, k.0, k.1, t)
    {
      TruthsExact(before.plans, k, t);
      TruthsExact(after.plans, k, t);
    }
    if k :| k in a.Keys + b.Keys && !(k in a && k in b && a[k] == b[k]) && k.1 == gateId {
      var t := if k in a then a[k] else b[k];
      assert SaysOfGate(before.plans, k.0, k.1, t) != SaysOfGate(after.plans, k.0, k.1, t);
      assert Differs(before, after, k.0, gateId);
    }
    if actions :| Differs(before, after, actions, gateId) {
      var t: TruthValue :|
        SaysOfGate(before.plans, actions, gateId, t) != SaysOfGate(after.plans, actions, gateId, t);
      var k := (actions, gateId);
      assert SaysOfGate(before.plans, k.0, k.1, t) != SaysOfGate(after.plans, k.0, k.1, t);
      assert k in a.Keys + b.Keys && !(k in a && k in b && a[k] == b[k]);
    }
  }
}
