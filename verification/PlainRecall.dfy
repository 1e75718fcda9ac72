/** Recall when no record shares an identity with another and nothing is aliased or excluded. */
module PlainRecall {
  import opened Outcomes
  import opened Ordering
  import opened GraphModels
  import opened Recall

  function FoldKey(host: Host, r: RawCandidate): IdentityKey {
    IdentityKey(host.fold(r.sellerId), host.fold(r.productId), host.fold(r.edition), host.fold(r.region))
  }

  /** Published records, no aliases, no recall policy, and no two records with the same four keys. */
  ghost predicate Plain(host: Host, input: DecisionInput) {
    && input.context.aliases == map[]
    && input.context.recallPolicy.None?
    && (forall r :: r in input.candidates ==> r.packStatus == Published)
    && Distinct(Map(input.candidates, Folder(host)))
  }

  function Folder(host: Host): RawCandidate -> IdentityKey {
    (r: RawCandidate) => FoldKey(host, r)
  }

  function Lone(host: Host, r: RawCandidate): Classified {
    Kept(r, FoldKey(host, r))
  }

  lemma PlainClassify(host: Host, context: DecisionContext, r: RawCandidate)
    requires context.aliases == map[] && context.recallPolicy.None? && r.packStatus == Published
    ensures Classify(host, context, r) == Ok(Lone(host, r))
  {
  }

  lemma {:induction false} FileNew(groups: seq<Filed>, key: IdentityKey, r: RawCandidate)
    requires key !in Keys(groups)
    ensures FileRecord(groups, key, r) == groups + [Filed(key, r, [])]
  {
    if groups != [] {
      assert Keys(groups)[0] == groups[0].key;
      forall k | k in Keys(groups[1..]) ensures k != key {
        var i :| 0 <= i < |groups[1..]| && Keys(groups[1..])[i] == k;
        assert Keys(groups)[i + 1] == k;
      }
      FileNew(groups[1..], key, r);
    }
  }

  function Alone(host: Host): RawCandidate -> Filed {
    (r: RawCandidate) => Filed(FoldKey(host, r), r, [])
  }

  function LoneRecords(host: Host): RawCandidate -> Classified {
    (r: RawCandidate) => Lone(host, r)
  }

  lemma FiledAloneStep(host: Host, before: seq<RawCandidate>, last: RawCandidate)
    requires GroupsOf(Map(before, LoneRecords(host))) == Map(before, Alone(host))
    requires ExclusionsOf(Map(before, LoneRecords(host))) == []
    requires forall r :: r in before ==> FoldKey(host, r) != FoldKey(host, last)
    ensures GroupsOf(Map(before + [last], LoneRecords(host))) == Map(before + [last], Alone(host))
    ensures ExclusionsOf(Map(before + [last], LoneRecords(host))) == []
  {
    MapSnoc(before, last, LoneRecords(host));
    MapSnoc(before, last, Alone(host));
    var cs := Map(before, LoneRecords(host));
    assert (cs + [Lone(host, last)])[..|cs|] == cs;
    var groups := Map(before, Alone(host));
    forall k | k in Keys(groups) ensures k != FoldKey(host, last) {
      var i :| 0 <= i < |groups| && Keys(groups)[i] == k;
      assert before[i] in before;
    }
    FileNew(groups, FoldKey(host, last), last);
  }

  /** Records with distinct keys are each filed alone, in order. */
  lemma {:induction false} FiledAlone(host: Host, records: seq<RawCandidate>)
    requires Distinct(Map(records, Folder(host)))
    ensures GroupsOf(Map(records, LoneRecords(host))) == Map(records, Alone(host))
    ensures ExclusionsOf(Map(records, LoneRecords(host))) == []
  {
    if records != [] {
      var before, last := records[..|records| - 1], records[|records| - 1];
      assert records == before + [last];
      MapSnoc(before, last, Folder(host));
      var keys := Map(records, Folder(host));
      assert Map(before, Folder(host)) == keys[..|before|];
      FiledAlone(host, before);
      forall r | r in before ensures FoldKey(host, r) != FoldKey(host, last) {
        var i :| 0 <= i < |before| && before[i] == r;
        assert keys[i] != keys[|before|];
      }
      FiledAloneStep(host, before, last);
    }
  }

  /** The representative of a record that stands alone. */
  function LoneRepresentative(host: Host, r: RawCandidate): RawCandidate {
    Representative(host, FoldKey(host, r), [r], host.fold(r.offerId))
  }

  lemma LoneMerge(host: Host, r: RawCandidate)
    ensures MergeGroup(host, map[], Alone(host)(r)).Ok?
    ensures MergeGroup(host, map[], Alone(host)(r)).value.representative == LoneRepresentative(host, r)
  {
    assert Alone(host)(r).Records() == [r];
  }

  lemma PlainClassified(host: Host, context: DecisionContext, records: seq<RawCandidate>)
    requires context.aliases == map[] && context.recallPolicy.None?
    requires forall r :: r in records ==> r.packStatus == Published
    ensures Traverse(records, Classifier(host, context)) == Ok(Map(records, LoneRecords(host)))
  {
    TraversePointwise(records, Classifier(host, context));
    forall i | 0 <= i < |records| ensures Classifier(host, context)(records[i]) == Ok(LoneRecords(host)(records[i])) {
      assert records[i] in records;
      PlainClassify(host, context, records[i]);
    }
  }

  lemma PlainOrdered(host: Host, input: DecisionInput)
    requires Plain(host, input)
    ensures var ordered := InIdOrder(input.candidates);
            && Distinct(Map(ordered, Folder(host)))
            && forall r :: r in ordered <==> r in input.candidates
  {
    SortPermutes(input.candidates, ByKey(RecordKey));
    SortKeepsDistinct(input.candidates, ByKey(RecordKey), Folder(host));
  }

  /** Representatives in any order: one for each group, as a function of the group. */
  lemma {:induction false} RepresentativesAre(filed: seq<Filed>, merged: seq<MergedGroup>,
      represent: Filed -> RawCandidate)
    requires |filed| == |merged|
    requires forall i :: 0 <= i < |filed| ==> merged[i].representative == represent(filed[i])
    ensures forall x ::
            x in SortBy(Map(merged, RepresentativeOf), RecordKey) <==> exists f :: f in filed && x == represent(f)
  {
    var representatives := Map(merged, RepresentativeOf);
    SortPermutes(representatives, ByKey(RecordKey));
    forall x | x in representatives ensures exists f :: f in filed && x == represent(f) {
      var i :| 0 <= i < |merged| && representatives[i] == x;
      assert filed[i] in filed;
    }
    forall f | f in filed ensures represent(f) in representatives {
      var i :| 0 <= i < |filed| && filed[i] == f;
      assert representatives[i] == represent(f);
    }
  }

  function Represent(host: Host): Filed -> RawCandidate {
    (f: Filed) => LoneRepresentative(host, f.first)
  }

  lemma PlainMerged(host: Host, context: DecisionContext, filed: seq<Filed>)
    requires context.aliases == map[]
    requires forall f :: f in filed ==> f.rest == [] && f.key == FoldKey(host, f.first)
    ensures Traverse(filed, Merger(host, context)).Ok?
    ensures var merged := Traverse(filed, Merger(host, context)).value;
            && |merged| == |filed|
            && (forall i :: 0 <= i < |filed| ==> merged[i].representative == Represent(host)(filed[i]))
            && FlatMap(merged, MergesOf) == []
  {
    var merger := Merger(host, context);
    TraversePointwise(filed, merger);
    forall i | 0 <= i < |filed|
      ensures merger(filed[i]).Ok? && merger(filed[i]).value.representative == Represent(host)(filed[i])
              && merger(filed[i]).value.merges == []
    {
      assert filed[i] in filed && filed[i] == Alone(host)(filed[i].first);
      LoneMerge(host, filed[i].first);
    }
    NoMerges(Traverse(filed, merger).value);
  }

  lemma {:induction false} NoMerges(merged: seq<MergedGroup>)
    requires forall i :: 0 <= i < |merged| ==> merged[i].merges == []
    ensures FlatMap(merged, MergesOf) == []
  {
    if merged != [] {
      assert merged[0].merges == [];
      forall i | 0 <= i < |merged[1..]| ensures merged[1..][i].merges == [] { assert merged[1..][i] == merged[i + 1]; }
      NoMerges(merged[1..]);
    }
  }

  lemma AloneGroups(host: Host, records: seq<RawCandidate>, f: Filed)
    ensures f in SortBy(Map(records, Alone(host)), KeyParts) <==> f == Alone(host)(f.first) && f.first in records
  {
    var groups := Map(records, Alone(host));
    SortPermutes(groups, ByKey(KeyParts));
    if f in groups {
      var i :| 0 <= i < |groups| && groups[i] == f;
      assert records[i] in records;
    }
    if f == Alone(host)(f.first) && f.first in records {
      var i :| 0 <= i < |records| && records[i] == f.first;
      assert groups[i] == f;
    }
  }

  /** Every record is represented by itself, and nothing else is. */
  lemma PlainRecallExact(host: Host, input: DecisionInput)
    requires Plain(host, input)
    ensures RecallAndDeduplicate(host, input).Ok?
    ensures var r := RecallAndDeduplicate(host, input).value;
            && (forall x ::
                 x in r.representatives <==> exists c :: c in input.candidates && x == LoneRepresentative(host, c))
            && r.exclusions == [] && r.merges == []
  {
    var ordered := InIdOrder(input.candidates);
    PlainOrdered(host, input);
    PlainClassified(host, input.context, ordered);
    FiledAlone(host, ordered);
    var filed := SortBy(Map(ordered, Alone(host)), KeyParts);
    forall f
      ensures f in filed
              <==> f == Alone(host)(f.first) && f.first in input.candidates { AloneGroups(host, ordered, f); }
    PlainMerged(host, input.context, filed);
    var merged := Traverse(filed, Merger(host, input.context)).value;
    RepresentativesAre(filed, merged, Represent(host));
    forall c | c in input.candidates
      ensures Alone(host)(c) in filed && Represent(host)(Alone(host)(c)) == LoneRepresentative(host, c) {}
    assert RecallAndDeduplicate(host, input) == Ok(Assemble(merged, [], |input.candidates|));
  }
}
