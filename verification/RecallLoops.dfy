/** Recall and evidence assessment as the program runs them: loops that accumulate in place. */
module RecallLoops {
  import opened Outcomes
  import opened Ordering
  import opened Domain
  import opened GraphModels
  import opened Aliases
  import opened Recall
  import opened Evidence

  // ---- Merging facts ----

  /** The dictionaries after some facts: keys in order of first appearance, and pooled evidence. */
  ghost predicate Pooled(facts: seq<ProductFact>, keys: seq<FactKey>, unique: map<FactKey, set<string>>) {
    && keys == Dedup(Map(facts, FactKeyOf))
    && (forall k :: k in unique <==> k in keys)
    && forall k :: k in unique ==> unique[k] == EvidenceFor(facts, k)
  }

  lemma DedupMore<T>(s: seq<T>, x: T)
    ensures Dedup(s + [x]) == if x in Dedup(s) then Dedup(s) else Dedup(s) + [x]
  {
    assert (s + [x])[..|s|] == s;
  }

  lemma NothingPooled(facts: seq<ProductFact>, key: FactKey)
    requires key !in Dedup(Map(facts, FactKeyOf))
    ensures EvidenceFor(facts, key) == {}
  {
    var all := Map(facts, FactKeyOf);
    DedupKeeps(all, key);
    forall g | g in facts ensures FactKeyOf(g) != key {
      var i :| 0 <= i < |facts| && facts[i] == g;
      assert all[i] in all;
    }
  }

  lemma PooledMore(facts: seq<ProductFact>, keys: seq<FactKey>, unique: map<FactKey, set<string>>, f: ProductFact)
    requires Pooled(facts, keys, unique)
    ensures var key := FactKeyOf(f);
            Pooled(facts + [f], if key in unique then keys else keys + [key],
                   unique[key := (if key in unique then unique[key] else {}) + f.evidenceIds])
  {
    hide EvidenceFor, Dedup;
    var key := FactKeyOf(f);
    MapSnoc(facts, f, FactKeyOf);
    DedupMore(Map(facts, FactKeyOf), key);
    if key !in unique { NothingPooled(facts, key); }
    forall k ensures EvidenceFor(facts + [f], k) == EvidenceFor(facts, k) + if k == key then f.evidenceIds else {} {
      PooledEvidence(facts, f, k);
    }
  }

  lemma PooledEvidence(facts: seq<ProductFact>, f: ProductFact, k: FactKey)
    ensures EvidenceFor(facts + [f], k) == EvidenceFor(facts, k) + if k == FactKeyOf(f) then f.evidenceIds else {}
  {
    var more := facts + [f];
    assert forall g :: g in more <==> g in facts || g == f;
  }

  /** Pools the facts of one record into the dictionaries. */
  method PoolRecord(ghost done: seq<ProductFact>, facts: seq<ProductFact>, keys: seq<FactKey>,
      unique: map<FactKey, set<string>>)
    returns (keys': seq<FactKey>, unique': map<FactKey, set<string>>)
    requires Pooled(done, keys, unique)
    ensures Pooled(done + facts, keys', unique')
  {
    hide Pooled;
    keys', unique' := keys, unique;
    assert done + facts[..0] == done;
    for i := 0 to |facts|
      invariant Pooled(done + facts[..i], keys', unique')
    {
      PooledMore(done + facts[..i], keys', unique', facts[i]);
      assert done + facts[..i] + [facts[i]] == done + facts[..i + 1];
      var key := FactKeyOf(facts[i]);
      keys', unique' := if key in unique' then keys' else keys' + [key],
                        unique'[key := (if key in unique' then unique'[key] else {}) + facts[i].evidenceIds];
    }
    assert facts[..|facts|] == facts;
  }

  lemma AllFactsMore(records: seq<RawCandidate>, i: nat)
    requires i < |records|
    ensures AllFacts(records[..i + 1]) == AllFacts(records[..i]) + records[i].facts
  {
    FlatMapAppend(records[..i], [records[i]], FactsOf);
    assert records[..i] + [records[i]] == records[..i + 1];
    assert [records[i]][1..] == [] && FlatMap([records[i]], FactsOf) == records[i].facts + [];
  }

  function Written(facts: seq<ProductFact>, componentId: string, key: FactKey): ProductFact {
    ProductFact(key.field, key.value, EvidenceFor(facts, key), Some(componentId))
  }

  lemma WrittenAre(host: Host, facts: seq<ProductFact>, sorted: seq<FactKey>, componentId: string,
      merged: seq<ProductFact>)
    requires sorted == SortBy(Dedup(Map(facts, FactKeyOf)), FactOrder(host))
    requires |merged| == |sorted| && forall j ::
             0 <= j < |sorted| ==> merged[j] == Written(facts, componentId, sorted[j])
    ensures merged == MergeFacts(host, facts, componentId)
  {
    hide EvidenceFor, Sort, Dedup;
  }

  /** Writes one fact for each pooled key, in key order. */
  method WriteFacts(host: Host, ghost facts: seq<ProductFact>, keys: seq<FactKey>, unique: map<FactKey, set<string>>,
      componentId: string)
    returns (merged: seq<ProductFact>)
    requires Pooled(facts, keys, unique)
    ensures merged == MergeFacts(host, facts, componentId)
  {
    hide EvidenceFor, Sort, Dedup, MergeFacts;
    var sorted := SortBy(keys, FactOrder(host));
    SortPermutes(keys, ByKey(FactOrder(host)));
    merged := [];
    for i := 0 to |sorted|
      invariant |merged| == i
      invariant forall j :: 0 <= j < i ==> merged[j] == Written(facts, componentId, sorted[j])
    {
      assert sorted[i] in sorted;
      merged := merged + [ProductFact(sorted[i].field, sorted[i].value, unique[sorted[i]], Some(componentId))];
    }
    WrittenAre(host, facts, sorted, componentId, merged);
  }

  /** Pools the facts of all records, then writes them out. */
  method PoolFacts(host: Host, records: seq<RawCandidate>, componentId: string) returns (merged: seq<ProductFact>)
    ensures merged == MergeFacts(host, AllFacts(records), componentId)
  {
    var keys: seq<FactKey>, unique: map<FactKey, set<string>> := [], map[];
    for i := 0 to |records|
      invariant Pooled(AllFacts(records[..i]), keys, unique)
    {
      hide Pooled;
      AllFactsMore(records, i);
      keys, unique := PoolRecord(AllFacts(records[..i]), records[i].facts, keys, unique);
    }
    assert records[..|records|] == records;
    merged := WriteFacts(host, AllFacts(records), keys, unique, componentId);
  }

  // ---- Filing records ----

  /** The identity key, each of its four parts followed through the aliases. */
  method FollowIdentity(host: Host, aliases: map<string, string>, r: RawCandidate)
    returns (key: Result<IdentityKey, Error>)
    ensures key == IdentityKeyOf(host, aliases, r)
  {
    hide Canonical;
    var seller := CanonicalLoop(host, aliases, r.sellerId);
    if seller.Raise? {
      return Raise(seller.error);
    }
    var product := CanonicalLoop(host, aliases, r.productId);
    if product.Raise? {
      return Raise(product.error);
    }
    var edition := CanonicalLoop(host, aliases, r.edition);
    if edition.Raise? {
      return Raise(edition.error);
    }
    var region := CanonicalLoop(host, aliases, r.region);
    if region.Raise? {
      return Raise(region.error);
    }
    key := Ok(IdentityKey(seller.value, product.value, edition.value, region.value));
  }

  /** One candidate: excluded, or kept under its identity key. */
  method ClassifyRecord(host: Host, context: DecisionContext, r: RawCandidate) returns (c: Result<Classified, Error>)
    ensures c == Classify(host, context, r)
  {
    hide Exclusion, IdentityKeyOf;
    var exclusion := Exclusion(host, context, r);
    if exclusion.Raise? {
      return Raise(exclusion.error);
    }
    if exclusion.value.Some? {
      return Ok(Excluded(exclusion.value.value));
    }
    var key := FollowIdentity(host, context.aliases, r);
    if key.Raise? {
      return Raise(key.error);
    }
    c := Ok(Kept(r, key.value));
  }

  /** Sorts candidates into exclusions and groups, stopping at the first alias cycle. */
  method FileCandidates(host: Host, input: DecisionInput)
    returns (r: Result<(seq<RecallExclusion>, seq<Filed>), Error>, ghost cs: seq<Classified>)
    ensures r.Ok? ==> Traverse(InIdOrder(input.candidates), Classifier(host, input.context)) == Ok(cs)
    ensures r.Ok? ==> r.value == (ExclusionsOf(cs), GroupsOf(cs))
    ensures r.Raise? ==> Traverse(InIdOrder(input.candidates), Classifier(host, input.context)) == Raise(r.error)
  {
    hide Classify, InIdOrder;
    var ordered := InIdOrder(input.candidates);
    var exclusions: seq<RecallExclusion>, groups: seq<Filed> := [], [];
    cs := [];
    LoopStarts(ordered, Classifier(host, input.context));
    for i := 0 to |ordered|
      invariant Traverse(ordered, Classifier(host, input.context))
                == After(cs, Traverse(ordered[i..], Classifier(host, input.context)))
      invariant exclusions == ExclusionsOf(cs) && groups == GroupsOf(cs)
    {
      LoopStep(ordered, i, Classifier(host, input.context), cs);
      var classified := ClassifyRecord(host, input.context, ordered[i]);
      if classified.Raise? {
        return Raise(classified.error), cs;
      }
      assert (cs + [classified.value])[..|cs|] == cs;
      match classified.value {
        case Excluded(e) => exclusions := exclusions + [e];
        case Kept(record, key) => groups := FileRecord(groups, key, record);
      }
      cs := cs + [classified.value];
    }
    LoopEnds(ordered, Classifier(host, input.context), cs);
    r := Ok((exclusions, groups));
  }

  // ---- Merging groups ----

  /** The representative of a group, its facts pooled. */
  method BuildRepresentative(host: Host, key: IdentityKey, group: seq<RawCandidate>, offerId: string)
    returns (rep: RawCandidate)
    requires group != []
    ensures rep == Representative(host, key, group, offerId)
  {
    hide MergeFacts, AllFacts;
    var anchor := Anchor(group);
    var facts := PoolFacts(host, group, key.product);
    rep := RawCandidate(
      host.canonicalId(key), anchor.packId, anchor.packVersion,
      key.seller, key.product, key.edition, key.region, offerId,
      AuthorityFloor(group),
      forall x :: x in group ==> x.available,
      facts,
      set x, g | x in group && g in x.sellerGateIds :: g,
      set x, c | x in group && c in x.categoryIds :: c,
      set x, j | x in group && j in x.jtbdIds :: j,
      Published,
      set x, q | x in group && q in x.requiredProductIds :: q);
  }

  /** One merge for each duplicate, in order. */
  method ListMerges(canonicalId: string, first: RawCandidate, duplicates: seq<RawCandidate>)
    returns (merges: seq<IdentityMerge>)
    ensures merges == Map(duplicates, Merging(canonicalId, first))
  {
    merges := [];
    for i := 0 to |duplicates|
      invariant merges == Map(duplicates[..i], Merging(canonicalId, first))
    {
      assert duplicates[..i + 1] == duplicates[..i] + [duplicates[i]];
      MapSnoc(duplicates[..i], duplicates[i], Merging(canonicalId, first));
      merges := merges + [MergeOf(canonicalId, first, duplicates[i])];
    }
    assert duplicates[..|duplicates|] == duplicates;
  }

  /** Merges one group into its identity, its representative and its merges. */
  method MergeOne(host: Host, aliases: map<string, string>, filed: Filed) returns (r: Result<MergedGroup, Error>)
    ensures r == MergeGroup(host, aliases, filed)
  {
    hide Representative, CanonicalSet, Merging, Canonical, RecordIds;
    var group := filed.Records();
    var canonicalId := host.canonicalId(filed.key);
    var offerIds := CanonicalSet(host, aliases, set x | x in group :: x.offerId);
    if offerIds.Raise? {
      return Raise(offerIds.error);
    }
    var anchorOffer := CanonicalLoop(host, aliases, Anchor(group).offerId);
    if anchorOffer.Raise? {
      return Raise(anchorOffer.error);
    }
    var representative := BuildRepresentative(host, filed.key, group, anchorOffer.value);
    var merges := ListMerges(canonicalId, filed.first, filed.rest);
    r := Ok(MergedGroup(
              IdentityRecord(filed.key, canonicalId, RecordIds(group), set x | x in group :: x.packId, offerIds.value),
              representative, merges));
  }

  /** Merges the groups one by one into identities, merges and representatives. */
  method MergeGroups(host: Host, context: DecisionContext, filed: seq<Filed>)
    returns (r: Result<(seq<IdentityRecord>, seq<IdentityMerge>, seq<RawCandidate>), Error>,
      ghost merged: seq<MergedGroup>)
    ensures r.Ok? ==> Traverse(filed, Merger(host, context)) == Ok(merged)
    ensures r.Ok? ==> r.value == (Map(merged, IdentityOf), FlatMap(merged, MergesOf), Map(merged, RepresentativeOf))
    ensures r.Raise? ==> Traverse(filed, Merger(host, context)) == Raise(r.error)
  {
    hide MergeGroup;
    var identities: seq<IdentityRecord>, merges: seq<IdentityMerge>, representatives: seq<RawCandidate> := [], [], [];
    merged := [];
    LoopStarts(filed, Merger(host, context));
    for i := 0 to |filed|
      invariant Traverse(filed, Merger(host, context)) == After(merged, Traverse(filed[i..], Merger(host, context)))
      invariant identities == Map(merged, IdentityOf) && representatives == Map(merged, RepresentativeOf)
      invariant merges == FlatMap(merged, MergesOf)
    {
      LoopStep(filed, i, Merger(host, context), merged);
      var group := MergeOne(host, context.aliases, filed[i]);
      if group.Raise? {
        return Raise(group.error), merged;
      }
      OneMore(merged, group.value);
      identities := identities + [group.value.identity];
      representatives := representatives + [group.value.representative];
      merges := merges + group.value.merges;
      merged := merged + [group.value];
    }
    LoopEnds(filed, Merger(host, context), merged);
    r := Ok((identities, merges, representatives));
  }

  lemma OneMore(merged: seq<MergedGroup>, g: MergedGroup)
    ensures Map(merged + [g], IdentityOf) == Map(merged, IdentityOf) + [g.identity]
    ensures Map(merged + [g], RepresentativeOf) == Map(merged, RepresentativeOf) + [g.representative]
    ensures FlatMap(merged + [g], MergesOf) == FlatMap(merged, MergesOf) + g.merges
  {
    MapSnoc(merged, g, IdentityOf);
    MapSnoc(merged, g, RepresentativeOf);
    FlatMapAppend(merged, [g], MergesOf);
    assert [g][1..] == [] && FlatMap([g], MergesOf) == g.merges + [];
  }

  /** The whole stage, step by step. */
  method RunRecall(host: Host, input: DecisionInput) returns (r: Result<RecallResult, Error>)
    ensures r == RecallAndDeduplicate(host, input)
  {
    hide Classifier, Merger, InIdOrder, ExclusionsOf, GroupsOf;
    ghost var cs, merged;
    var filed, groups;
    filed, cs := FileCandidates(host, input);
    if filed.Raise? {
      return Raise(filed.error);
    }
    groups, merged := MergeGroups(host, input.context, SortBy(filed.value.1, KeyParts));
    if groups.Raise? {
      return Raise(groups.error);
    }
    r := Ok(RecallResult(groups.value.0, SortBy(groups.value.1, MergeKey), SortBy(groups.value.2, RecordKey),
      filed.value.0, |input.candidates|));
  }

  // ---- Assessing evidence ----

  /** Collects the evidence and field pairs of a list of facts. */
  method CollectPairs(facts: seq<ProductFact>, pairs: set<seq<string>>) returns (more: set<seq<string>>)
    ensures more == pairs + FactPairs(facts)
  {
    more := pairs;
    for i := 0 to |facts|
      invariant more == pairs + FactPairs(facts[..i])
    {
      assert facts[..i + 1] == facts[..i] + [facts[i]];
      more := more + set e | e in facts[i].evidenceIds :: Pair(e, facts[i].field);
    }
    assert facts[..|facts|] == facts;
  }

  /** Assesses every material pair once, in order, stopping at the first exception. */
  method RunAssessment(host: Host, context: DecisionContext, representatives: seq<RawCandidate>)
    returns (r: Result<seq<EvidenceAssessment>, Error>)
    ensures r == AssessEvidence(host, context, representatives)
  {
    hide AssessPair, FactPairs, OutcomePairs;
    var pairs: set<seq<string>> := {};
    for i := 0 to |representatives|
      invariant pairs == set c, p | c in representatives[..i] && p in FactPairs(c.facts) :: p
    {
      assert representatives[..i + 1] == representatives[..i] + [representatives[i]];
      pairs := CollectPairs(representatives[i].facts, pairs);
    }
    assert representatives[..|representatives|] == representatives;
    ghost var fromPacks := pairs;
    for i := 0 to |context.currentActions|
      invariant pairs == fromPacks + set a, p | a in context.currentActions[..i] && p in FactPairs(a.facts) :: p
    {
      assert context.currentActions[..i + 1] == context.currentActions[..i] + [context.currentActions[i]];
      pairs := CollectPairs(context.currentActions[i].facts, pairs);
    }
    assert context.currentActions[..|context.currentActions|] == context.currentActions;
    pairs := pairs + OutcomePairs(context);
    assert pairs == MaterialPairs(context, representatives);
    r := AssessInOrder(host, context, SortedTuples(pairs));
  }

  method AssessInOrder(host: Host, context: DecisionContext, pairs: seq<seq<string>>)
    returns (r: Result<seq<EvidenceAssessment>, Error>)
    ensures r == Traverse(pairs, Assessor(host, context))
  {
    hide AssessPair;
    var assessments: seq<EvidenceAssessment> := [];
    LoopStarts(pairs, Assessor(host, context));
    for i := 0 to |pairs|
      invariant Traverse(pairs, Assessor(host, context))
                == After(assessments, Traverse(pairs[i..], Assessor(host, context)))
    {
      LoopStep(pairs, i, Assessor(host, context), assessments);
      var assessed := Assessor(host, context)(pairs[i]);
      if assessed.Raise? {
        return Raise(assessed.error);
      }
      assessments := assessments + [assessed.value];
    }
    LoopEnds(pairs, Assessor(host, context), assessments);
    r := Ok(assessments);
  }
}
