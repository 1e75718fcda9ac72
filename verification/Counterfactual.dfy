/** Searching for the smallest sets of private facts whose removal changes the selected plan. */
module Counterfactual {
  import opened Outcomes
  import opened Ordering
  import opened Domain
  import opened GraphModels
  import opened Engine
  import opened GraphLoops

  // ---- Combinations ----

  ghost predicate Increasing(s: seq<string>) {
    forall i, j :: 0 <= i < j < |s| ==> StrLess(s[i], s[j])
  }

  function Led(head: string): seq<string> -> seq<string> {
    (rest: seq<string>) => [head] + rest
  }

  /** All ways to pick count of the identifiers, keeping their order. */
  function Combinations(ids: seq<string>, count: nat): seq<seq<string>> {
    if count == 0 then [[]]
    else if ids == [] then []
    else Map(Combinations(ids[1..], count - 1), Led(ids[0])) + Combinations(ids[1..], count)
  }

  /** An increasing choice of count identifiers. */
  ghost predicate Chosen(ids: seq<string>, count: nat, t: seq<string>) {
    |t| == count && Increasing(t) && forall x :: x in t ==> x in ids
  }

  lemma IncreasingTail(s: seq<string>)
    requires Increasing(s) && s != []
    ensures Increasing(s[1..]) && forall x :: x in s[1..] ==> StrLess(s[0], x)
  {
    forall x | x in s[1..] ensures StrLess(s[0], x) {
      var i :| 0 <= i < |s[1..]| && s[1..][i] == x;
      assert s[i + 1] == x;
    }
    forall i, j | 0 <= i < j < |s[1..]| ensures StrLess(s[1..][i], s[1..][j]) {
      assert s[1..][i] == s[i + 1] && s[1..][j] == s[j + 1];
    }
  }

  lemma IncreasingCons(head: string, rest: seq<string>)
    requires Increasing(rest) && forall x :: x in rest ==> StrLess(head, x)
    ensures Increasing([head] + rest)
  {
    var s := [head] + rest;
    forall i, j | 0 <= i < j < |s| ensures StrLess(s[i], s[j]) {
      if i > 0 { assert s[i] == rest[i - 1]; }
      assert s[j] == rest[j - 1];
    }
  }

  /** A choice either starts with the first identifier or leaves it out. */
  lemma ChosenSplits(ids: seq<string>, count: nat, t: seq<string>)
    requires Increasing(ids) && ids != [] && count > 0
    ensures Chosen(ids, count, t)
            <==> (t != [] && t[0] == ids[0] && Chosen(ids[1..], count - 1, t[1..])) || Chosen(ids[1..], count, t)
  {
    StrOrder();
    IncreasingTail(ids);
    assert forall x :: x in ids <==> x == ids[0] || x in ids[1..];
    if Chosen(ids, count, t) {
      IncreasingTail(t);
      if t[0] == ids[0] {
        forall x | x in t[1..] ensures x in ids[1..] { assert x in t && StrLess(t[0], x); }
      } else {
        forall x | x in t ensures x in ids[1..] {
          assert t[0] in t && StrLess(ids[0], t[0]);
          assert x == t[0] || StrLess(t[0], x);
          assert StrLess(ids[0], x);
        }
      }
    }
    if t != [] && t[0] == ids[0] && Chosen(ids[1..], count - 1, t[1..]) {
      IncreasingCons(t[0], t[1..]);
      assert t == [t[0]] + t[1..];
    }
  }

  lemma LedIn(s: seq<seq<string>>, head: string, t: seq<string>)
    ensures t in Map(s, Led(head)) <==> t != [] && t[0] == head && t[1..] in s
  {
    var led := Map(s, Led(head));
    if t in led {
      var i :| 0 <= i < |led| && led[i] == t;
      assert t[1..] == s[i];
    }
    if t != [] && t[0] == head && t[1..] in s {
      var i :| 0 <= i < |s| && s[i] == t[1..];
      assert t == [head] + t[1..] && led[i] == t;
    }
  }

  lemma CombinationsSplit(ids: seq<string>, count: nat, t: seq<string>)
    requires ids != [] && count > 0
    ensures t in Combinations(ids, count)
            <==> (t != [] && t[0] == ids[0] && t[1..] in Combinations(ids[1..], count - 1))
                 || t in Combinations(ids[1..], count)
  {
    LedIn(Combinations(ids[1..], count - 1), ids[0], t);
  }

  lemma CombinationsBase(ids: seq<string>, count: nat, t: seq<string>)
    requires count == 0 || ids == []
    ensures t in Combinations(ids, count) <==> Chosen(ids, count, t)
  {
    if count > 0 && t != [] { assert t[0] in t; }
  }

  /** The combinations are exactly the increasing choices. */
  lemma {:induction false} CombinationsExact(ids: seq<string>, count: nat, t: seq<string>)
    requires Increasing(ids)
    ensures t in Combinations(ids, count) <==> Chosen(ids, count, t)
  {
    hide Combinations, Chosen, Increasing;
    if count == 0 || ids == [] {
      CombinationsBase(ids, count, t);
    } else {
      IncreasingTail(ids);
      CombinationsSplit(ids, count, t);
      CombinationsExact(ids[1..], count, t);
      if t != [] { CombinationsExact(ids[1..], count - 1, t[1..]); }
      ChosenSplits(ids, count, t);
    }
  }

  ghost predicate TuplesIncrease(s: seq<seq<string>>) {
    forall i, j :: 0 <= i < j < |s| ==> IdsLess(s[i], s[j])
  }

  /** They are produced in lexicographic order. */
  lemma {:induction false} CombinationsIncrease(ids: seq<string>, count: nat)
    requires Increasing(ids)
    ensures TuplesIncrease(Combinations(ids, count))
  {
    if count > 0 && ids != [] {
      IncreasingTail(ids);
      var with, without := Combinations(ids[1..], count - 1), Combinations(ids[1..], count);
      CombinationsIncrease(ids[1..], count - 1);
      CombinationsIncrease(ids[1..], count);
      var led := Map(with, Led(ids[0]));
      forall i, j | 0 <= i < j < |led| ensures IdsLess(led[i], led[j]) {
        assert led[i][1..] == with[i] && led[j][1..] == with[j];
      }
      forall i, j | 0 <= i < |led| && 0 <= j < |without| ensures IdsLess(led[i], without[j]) {
        assert without[j] in without;
        CombinationsExact(ids[1..], count, without[j]);
        assert without[j][0] in without[j];
        StrOrder();
      }
      var s := led + without;
      forall i, j | 0 <= i < j < |s| ensures IdsLess(s[i], s[j]) {}
    }
  }

  function Members(t: seq<string>): set<string> {
    set x | x in t
  }

  lemma {:induction false} IncreasingSize(t: seq<string>)
    requires Increasing(t)
    ensures |Members(t)| == |t|
  {
    if t != [] {
      IncreasingTail(t);
      IncreasingSize(t[1..]);
      StrOrder();
      assert Members(t) == {t[0]} + Members(t[1..]) && t[0] !in Members(t[1..]);
    }
  }

  /** Every set is the members of one increasing tuple. */
  lemma TupleOf(items: set<string>)
    ensures Increasing(SortedIds(items)) && Members(SortedIds(items)) == items && |SortedIds(items)| == |items|
  {
    SortedIdsIncrease(items);
  }

  // ---- Reruns ----

  /** The input with more private facts removed. */
  function Without(input: DecisionInput, removed: set<string>): DecisionInput {
    input.(context := input.context.(removedFactIds := input.context.removedFactIds + removed))
  }

  type Rerun = set<string> -> Result<Evaluation, Error>

  function Rerunner(host: Host, input: DecisionInput): Rerun {
    (removed: set<string>) => EvaluateOnce(host, Without(input, removed))
  }

  /** The private facts that are still in place. */
  function Removable(context: DecisionContext): set<string> {
    set f | f in context.buyerFacts && f.private && f.factId !in context.removedFactIds :: f.factId
  }

  /** The rerun without these facts selects a different plan, or none where one was selected. */
  predicate Flips(rerun: Rerun, base: Evaluation, removed: set<string>) {
    rerun(removed).Ok? && rerun(removed).value.SelectedPlanId() != base.SelectedPlanId()
  }

  datatype Flip = Flip(removed: seq<string>, evaluation: Evaluation)

  /** The combinations tried so far, all without an exception, gave exactly these flips, in order. */
  ghost predicate Tried(rerun: Rerun, base: Evaluation, combinations: seq<seq<string>>, flips: seq<Flip>) {
    && (forall c :: c in combinations ==> rerun(Members(c)).Ok?)
    && (forall f ::
         f in flips ==>
           f.removed in combinations && Flips(rerun, base, Members(f.removed))
             && rerun(Members(f.removed)) == Ok(f.evaluation))
    && (forall c :: c in combinations && Flips(rerun, base, Members(c)) ==> exists f :: f in flips && f.removed == c)
  }

  function RemovedOf(f: Flip): seq<string> { f.removed }

  ghost predicate Ordered(flips: seq<Flip>) {
    forall i, j :: 0 <= i < j < |flips| ==> IdsLess(flips[i].removed, flips[j].removed)
  }

  /** Tries the combinations in order and keeps the ones that change the selection. */
  method TryAll(rerun: Rerun, base: Evaluation, combinations: seq<seq<string>>) returns (r: Result<seq<Flip>, Error>)
    requires TuplesIncrease(combinations)
    ensures r.Ok? ==> Tried(rerun, base, combinations, r.value) && Ordered(r.value)
    ensures r.Raise? ==> exists c :: c in combinations && rerun(Members(c)) == Raise(r.error)
  {
    var flips: seq<Flip> := [];
    for i := 0 to |combinations|
      invariant Tried(rerun, base, combinations[..i], flips) && Ordered(flips)
    {
      var c := combinations[i];
      assert c in combinations && combinations[..i + 1] == combinations[..i] + [c];
      var alternate := rerun(Members(c));
      if alternate.Raise? {
        return Raise(alternate.error);
      }
      if alternate.value.SelectedPlanId() != base.SelectedPlanId() {
        FlipAdded(rerun, base, combinations, i, flips, alternate.value);
        flips := flips + [Flip(c, alternate.value)];
      } else {
        FlipSkipped(rerun, base, combinations, i, flips);
      }
    }
    assert combinations[..|combinations|] == combinations;
    r := Ok(flips);
  }

  lemma FlipAdded(rerun: Rerun, base: Evaluation, combinations: seq<seq<string>>, i: nat, flips: seq<Flip>,
      alternate: Evaluation)
    requires i < |combinations| && TuplesIncrease(combinations)
    requires Tried(rerun, base, combinations[..i], flips) && Ordered(flips)
    requires rerun(Members(combinations[i])) == Ok(alternate) && alternate.SelectedPlanId() != base.SelectedPlanId()
    ensures var more := flips + [Flip(combinations[i], alternate)];
            Tried(rerun, base, combinations[..i + 1], more) && Ordered(more)
  {
    var c, before := combinations[i], combinations[..i];
    assert combinations[..i + 1] == before + [c];
    var more := flips + [Flip(c, alternate)];
    forall d | d in before + [c] && Flips(rerun, base, Members(d)) ensures exists f :: f in more && f.removed == d {
      if d in before {
        var f :| f in flips && f.removed == d;
        assert f in more;
      } else {
        assert more[|flips|] in more;
      }
    }
    forall k | 0 <= k < |flips| ensures IdsLess(flips[k].removed, c) {
      assert flips[k] in flips;
      var m :| 0 <= m < |before| && before[m] == flips[k].removed;
      assert combinations[m] == before[m];
    }
  }

  lemma FlipSkipped(rerun: Rerun, base: Evaluation, combinations: seq<seq<string>>, i: nat, flips: seq<Flip>)
    requires i < |combinations| && Tried(rerun, base, combinations[..i], flips)
    requires rerun(Members(combinations[i])).Ok? && !Flips(rerun, base, Members(combinations[i]))
    ensures Tried(rerun, base, combinations[..i + 1], flips)
  {
    assert combinations[..i + 1] == combinations[..i] + [combinations[i]];
  }

  // ---- What changed ----

  function TruthsOf(p: EvaluatedPlan): seq<((seq<string>, string), TruthValue)> {
    Map(p.gateResults, (g: GateResult) => ((p.stableActionIds, g.gateId), g.truth))
  }

  /** Truth values by plan actions and gate; a later entry replaces an earlier one. */
  function Latest(entries: seq<((seq<string>, string), TruthValue)>): map<(seq<string>, string), TruthValue> {
    if entries == [] then map[]
    else Latest(entries[..|entries| - 1])[entries[|entries| - 1].0 := entries[|entries| - 1].1]
  }

  function TruthMap(e: Evaluation): map<(seq<string>, string), TruthValue> {
    Latest(FlatMap(e.plans, TruthsOf))
  }

  /** Gates whose truth differs for some plan, counting a gate present on one side only. */
  function ChangedGates(before: Evaluation, after: Evaluation): set<string> {
    var a, b := TruthMap(before), TruthMap(after);
    set k | k in a.Keys + b.Keys && !(k in a && k in b && a[k] == b[k]) :: k.1
  }

  // ---- The search ----

  datatype Record = Record(changed: bool, removed: seq<string>, alternatives: seq<seq<string>>, after: Option<string>,
      changedGates: set<string>)

  /** No set of one to count removable facts changes the selection; all of them could be tried. */
  ghost predicate NoneUpTo(rerun: Rerun, base: Evaluation, removable: set<string>, count: int) {
    forall s :: s <= removable && 1 <= |s| <= count ==> rerun(s).Ok? && !Flips(rerun, base, s)
  }

  /** An increasing tuple of removable facts of the given size that changes the selection. */
  ghost predicate FlipsAt(rerun: Rerun, base: Evaluation, removable: set<string>, count: nat, t: seq<string>) {
    |t| == count && Increasing(t) && Members(t) <= removable && Flips(rerun, base, Members(t))
  }

  /**
   * The record names the lexicographically first of the smallest sets that change the selection and
   * lists all the others of that size, or there is no such set within the limit.
   */
  ghost predicate Answers(rerun: Rerun, base: Evaluation, removable: set<string>, limit: int, r: Record) {
    var listed := [r.removed] + r.alternatives;
    if r.changed then
      && 1 <= |r.removed| <= limit
      && NoneUpTo(rerun, base, removable, |r.removed| - 1)
      && (forall t :: t in listed <==> FlipsAt(rerun, base, removable, |r.removed|, t))
      && (forall s :: s <= removable && |s| == |r.removed| ==> rerun(s).Ok?)
      && TuplesIncrease(listed)
      && rerun(Members(r.removed)).Ok?
      && r.after == rerun(Members(r.removed)).value.SelectedPlanId()
      && r.changedGates == ChangedGates(base, rerun(Members(r.removed)).value)
    else
      NoneUpTo(rerun, base, removable, limit) && r == Record(false, [], [], None, {})
  }

  /** Some removal within the limit raises the error, and all smaller ones were tried in vain. */
  ghost predicate Stops(rerun: Rerun, base: Evaluation, removable: set<string>, limit: int, error: Error) {
    exists s ::
           s <= removable && 1 <= |s| <= limit && NoneUpTo(rerun, base, removable, |s| - 1) && rerun(s) == Raise(error)
  }

  /** A search that has an answer does not stop on an error. */
  lemma AnswerOrStop(rerun: Rerun, base: Evaluation, removable: set<string>, limit: int, r: Record, error: Error)
    requires Answers(rerun, base, removable, limit, r)
    ensures !Stops(rerun, base, removable, limit, error)
  {
    if r.changed {
      var listed := [r.removed] + r.alternatives;
      assert listed[0] in listed;
      IncreasingSize(r.removed);
      assert Members(r.removed) <= removable && Flips(rerun, base, Members(r.removed));
    }
  }

  lemma SubsetSize(a: set<string>, b: set<string>)
    requires a <= b
    ensures |a| <= |b|
  {
    assert b == a + (b - a);
  }

  /** The combinations of one size stand for all sets of that size. */
  lemma SetTried(removable: set<string>, count: nat, s: set<string>)
    requires s <= removable && |s| == count
    ensures SortedIds(s) in Combinations(SortedIds(removable), count) && Members(SortedIds(s)) == s
  {
    TupleOf(removable);
    TupleOf(s);
    forall x | x in SortedIds(s) ensures x in SortedIds(removable) { assert x in s; }
    CombinationsExact(SortedIds(removable), count, SortedIds(s));
  }

  lemma NothingFound(rerun: Rerun, base: Evaluation, removable: set<string>, count: nat)
    requires count >= 1 && NoneUpTo(rerun, base, removable, count - 1)
    requires Tried(rerun, base, Combinations(SortedIds(removable), count), [])
    ensures NoneUpTo(rerun, base, removable, count)
  {
    forall s | s <= removable && 1 <= |s| <= count ensures rerun(s).Ok? && !Flips(rerun, base, s) {
      if |s| == count { SetTried(removable, count, s); }
    }
  }

  lemma FoundExactly(rerun: Rerun, base: Evaluation, removable: set<string>, count: nat, flips: seq<Flip>,
      t: seq<string>)
    requires Tried(rerun, base, Combinations(SortedIds(removable), count), flips)
    ensures t in Map(flips, RemovedOf) <==> FlipsAt(rerun, base, removable, count, t)
  {
    var ids := SortedIds(removable);
    TupleOf(removable);
    CombinationsExact(ids, count, t);
    var listed := Map(flips, RemovedOf);
    if t in listed {
      var i :| 0 <= i < |listed| && listed[i] == t;
      assert flips[i] in flips;
      forall x | x in Members(t) ensures x in removable { assert x in ids; }
    }
    if FlipsAt(rerun, base, removable, count, t) {
      forall x | x in t ensures x in ids { assert x in Members(t); }
      var f :| f in flips && f.removed == t;
      var i :| 0 <= i < |flips| && flips[i] == f;
      assert listed[i] == t;
    }
  }

  lemma {:induction false} SortedStays<T>(s: seq<T>, less: (T, T) -> bool)
    requires Sorted(s, less)
    ensures Sort(s, less) == s
  {
    if s != [] {
      forall i, j | 0 <= i < j < |s[1..]| ensures !less(s[1..][j], s[1..][i]) {
        assert s[1..][i] == s[i + 1] && s[1..][j] == s[j + 1];
      }
      SortedStays(s[1..], less);
      assert |s| > 1 ==> s[1..][0] == s[1];
    }
  }

  lemma AlreadySorted(flips: seq<Flip>)
    requires Ordered(flips)
    ensures SortBy(flips, RemovedOf) == flips
  {
    IdsOrder();
    forall i, j | 0 <= i < j < |flips| ensures !ByKey(RemovedOf)(flips[j], flips[i]) {
      var a, b := flips[i].removed, flips[j].removed;
      assert IdsLess(a, b);
      assert IdsLess(b, a) ==> IdsLess(a, a);
      assert ByKey(RemovedOf)(flips[j], flips[i]) == IdsLess(RemovedOf(flips[j]), RemovedOf(flips[i]));
    }
    SortedStays(flips, ByKey(RemovedOf));
  }

  function RecordOf(base: Evaluation, flips: seq<Flip>): Record {
    if flips == [] then Record(false, [], [], None, {})
    else
      Record(true, flips[0].removed, Map(flips[1..], RemovedOf), flips[0].evaluation.SelectedPlanId(),
        ChangedGates(base, flips[0].evaluation))
  }

  lemma RecordAnswers(rerun: Rerun, base: Evaluation, removable: set<string>, limit: int, count: nat, flips: seq<Flip>)
    requires 1 <= count <= limit && flips != []
    requires NoneUpTo(rerun, base, removable, count - 1)
    requires Tried(rerun, base, Combinations(SortedIds(removable), count), flips) && Ordered(flips)
    ensures Answers(rerun, base, removable, limit, RecordOf(base, flips))
  {
    var r := RecordOf(base, flips);
    var listed := [r.removed] + r.alternatives;
    assert listed == Map(flips, RemovedOf);
    assert flips[0] in flips && r.removed in listed;
    assert |r.removed| == count by { FoundExactly(rerun, base, removable, count, flips, r.removed); }
    forall s | s <= removable && |s| == count ensures rerun(s).Ok? { SetTried(removable, count, s); }
    forall t ensures t in listed <==> FlipsAt(rerun, base, removable, count, t) {
      FoundExactly(rerun, base, removable, count, flips, t);
    }
    forall i, j | 0 <= i < j < |listed| ensures IdsLess(listed[i], listed[j]) {
      assert listed[i] == flips[i].removed && listed[j] == flips[j].removed;
    }
  }

  function Least(a: int, b: int): int {
    if a < b then a else b
  }

  /** What is known once every size up to count has been tried: nothing works, or count is the first size that does. */
  ghost predicate Explored(rerun: Rerun, base: Evaluation, removable: set<string>, count: nat, flips: seq<Flip>) {
    if flips == [] then NoneUpTo(rerun, base, removable, count)
    else
      && 1 <= count && NoneUpTo(rerun, base, removable, count - 1)
      && Tried(rerun, base, Combinations(SortedIds(removable), count), flips) && Ordered(flips)
  }

  /** Trying one more size. */
  method TrySize(rerun: Rerun, base: Evaluation, removable: set<string>, count: nat)
    returns (r: Result<seq<Flip>, Error>)
    requires count >= 1 && NoneUpTo(rerun, base, removable, count - 1)
    ensures r.Ok? ==> Explored(rerun, base, removable, count, r.value)
    ensures r.Raise? ==> exists s :: s <= removable && |s| == count && rerun(s) == Raise(r.error)
  {
    var ids := SortedIds(removable);
    TupleOf(removable);
    CombinationsIncrease(ids, count);
    r := TryAll(rerun, base, Combinations(ids, count));
    if r.Raise? {
      var c :| c in Combinations(ids, count) && rerun(Members(c)) == Raise(r.error);
      CombinationsExact(ids, count, c);
      IncreasingSize(c);
      forall x | x in Members(c) ensures x in removable { assert x in ids; }
    } else if r.value == [] {
      NothingFound(rerun, base, removable, count);
    }
  }

  lemma NothingLarger(rerun: Rerun, base: Evaluation, removable: set<string>, limit: nat)
    requires NoneUpTo(rerun, base, removable, Least(limit, |removable|))
    ensures NoneUpTo(rerun, base, removable, limit)
  {
    forall s | s <= removable && 1 <= |s| <= limit ensures rerun(s).Ok? && !Flips(rerun, base, s) {
      SubsetSize(s, removable);
    }
  }

  /** Tries removals by size, smallest first, and stops at the first size where one works. */
  method SearchCounterfactuals(rerun: Rerun, base: Evaluation, removable: set<string>, limit: int)
    returns (r: Result<Record, Error>)
    ensures !(1 <= limit <= 3) ==> r == Raise(InvalidCounterfactualLimit)
    ensures 1 <= limit <= 3 && r.Ok? ==> Answers(rerun, base, removable, limit, r.value)
    ensures 1 <= limit <= 3 && r.Raise? ==> Stops(rerun, base, removable, limit, r.error)
  {
    if !(1 <= limit <= 3) {
      return Raise(InvalidCounterfactualLimit);
    }
    var top := Least(limit, |SortedIds(removable)|);
    var flips: seq<Flip> := [];
    var tested := 0;
    while tested < top && flips == []
      invariant 0 <= tested <= top && Explored(rerun, base, removable, tested, flips)
    {
      var tried := TrySize(rerun, base, removable, tested + 1);
      if tried.Raise? {
        return Raise(tried.error);
      }
      flips := tried.value;
      tested := tested + 1;
    }
    if flips == [] {
      NothingLarger(rerun, base, removable, limit);
    } else {
      AlreadySorted(flips);
      RecordAnswers(rerun, base, removable, limit, tested, flips);
      flips := SortBy(flips, RemovedOf);
    }
    r := Ok(RecordOf(base, flips));
  }

  // ---- The whole decision ----

  function AllPrivate(context: DecisionContext): set<string> {
    set f | f in context.buyerFacts && f.private :: f.factId
  }

  datatype Decision = Decision(base: Evaluation, generic: Evaluation, counterfactual: Record)

  /** The evaluation, the one a buyer without private facts would get, and the counterfactual search. */
  ghost predicate Decided(host: Host, input: DecisionInput, limit: int, d: Decision) {
    && EvaluateOnce(host, input) == Ok(d.base)
    && EvaluateOnce(host, Without(input, AllPrivate(input.context))) == Ok(d.generic)
    && Answers(Rerunner(host, input), d.base, Removable(input.context), limit, d.counterfactual)
  }

  /**
   * The first of the three stages that raises: the evaluation, the one without private facts, or the
   * search, which raises on a bad limit or with the error of some removal it got to.
   */
  ghost predicate Undecided(host: Host, input: DecisionInput, limit: int, error: Error) {
    var base, generic := EvaluateOnce(host, input), EvaluateOnce(host, Without(input, AllPrivate(input.context)));
    if base.Raise? then error == base.error
    else if generic.Raise? then error == generic.error
    else if !(1 <= limit <= 3) then error == InvalidCounterfactualLimit
    else Stops(Rerunner(host, input), base.value, Removable(input.context), limit, error)
  }

  /** The two cannot both be. */
  lemma DecidedOrNot(host: Host, input: DecisionInput, limit: int, d: Decision, error: Error)
    requires 1 <= limit <= 3 && Decided(host, input, limit, d)
    ensures !Undecided(host, input, limit, error)
  {
    hide EvaluateOnce, Answers, Stops;
    AnswerOrStop(Rerunner(host, input), d.base, Removable(input.context), limit, d.counterfactual, error);
  }

  method EvaluateDecisionGraph(host: Host, input: DecisionInput, limit: int) returns (r: Result<Decision, Error>)
    ensures r.Ok? ==> 1 <= limit <= 3 && Decided(host, input, limit, r.value)
    ensures r.Raise? ==> Undecided(host, input, limit, r.error)
  {
    hide EvaluateOnce, Answers, Stops;
    var base := RunEvaluation(host, input);
    if base.Raise? {
      return Raise(base.error);
    }
    var generic := RunEvaluation(host, Without(input, AllPrivate(input.context)));
    if generic.Raise? {
      return Raise(generic.error);
    }
    var counterfactual := SearchCounterfactuals(Rerunner(host, input), base.value, Removable(input.context), limit);
    if counterfactual.Raise? {
      return Raise(counterfactual.error);
    }
    r := Ok(Decision(base.value, generic.value, counterfactual.value));
  }

  lemma PrivateLeft(input: DecisionInput)
    ensures Without(input, AllPrivate(input.context)) == Without(input, Removable(input.context))
    ensures Removable(input.context) == {} ==> Without(input, Removable(input.context)) == input
  {
    var gone := input.context.removedFactIds;
    assert gone + AllPrivate(input.context) == gone + Removable(input.context);
    assert gone + {} == gone;
  }

  lemma QuietRerun(rerun: Rerun, base: Evaluation, removable: set<string>, limit: int, r: Record)
    requires Answers(rerun, base, removable, limit, r) && !r.changed
    requires removable != {} && |removable| <= limit
    ensures rerun(removable).Ok? && rerun(removable).value.SelectedPlanId() == base.SelectedPlanId()
  {
    assert !Flips(rerun, base, removable);
  }

  /**
   * When the search covers every private fact and finds nothing, a buyer without any private facts
   * is offered the same plan.
   */
  lemma UnchangedMeansGeneric(host: Host, input: DecisionInput, limit: int, d: Decision)
    requires Decided(host, input, limit, d) && !d.counterfactual.changed
    requires |Removable(input.context)| <= limit
    ensures d.generic.SelectedPlanId() == d.base.SelectedPlanId()
  {
    hide EvaluateOnce, Answers, Removable;
    PrivateLeft(input);
    var rerun, removable := Rerunner(host, input), Removable(input.context);
    if removable != {} {
      QuietRerun(rerun, d.base, removable, limit, d.counterfactual);
      assert rerun(removable) == EvaluateOnce(host, Without(input, removable));
    }
  }
}
