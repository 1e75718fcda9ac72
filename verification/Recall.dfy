/** Seller-neutral recall and identity deduplication. */
module Recall {
  import opened Outcomes
  import opened Ordering
  import opened Domain
  import opened GraphModels
  import opened Aliases

  datatype ExclusionReason = PackRevoked | PackSuperseded | CategoryMismatch | JtbdMismatch | RegionUnsupported

  datatype RecallExclusion = RecallExclusion(recordId: string, reason: ExclusionReason)

  datatype IdentityRecord = IdentityRecord(
    key: IdentityKey,
    canonicalId: string,
    recordIds: seq<string>,
    packIds: set<string>,
    offerIds: set<string>)

  datatype MergeReason = CanonicalIdentityMatch | OfferAlias | EditionAlias

  datatype IdentityMerge = IdentityMerge(canonicalId: string, mergedRecordId: string, reasons: set<MergeReason>)

  datatype RecallResult = RecallResult(
    identities: seq<IdentityRecord>,
    merges: seq<IdentityMerge>,
    representatives: seq<RawCandidate>,
    exclusions: seq<RecallExclusion>,
    rawRecordCount: nat)

  // ---- One record ----

  function IdentityKeyOf(host: Host, aliases: map<string, string>, r: RawCandidate): Result<IdentityKey, Error> {
    var seller :- Canonical(host, aliases, r.sellerId);
    var product :- Canonical(host, aliases, r.productId);
    var edition :- Canonical(host, aliases, r.edition);
    var region :- Canonical(host, aliases, r.region);
    Ok(IdentityKey(seller, product, edition, region))
  }

  function CanonicalSet(host: Host, aliases: map<string, string>, values: set<string>): Result<set<string>, Error> {
    if exists v :: v in values && Canonical(host, aliases, v).Raise? then Raise(AliasCycle)
    else Ok(set v | v in values && Canonical(host, aliases, v).Ok? :: Canonical(host, aliases, v).value)
  }

  function Exclusion(host: Host, context: DecisionContext, r: RawCandidate): Result<Option<RecallExclusion>, Error> {
    if r.packStatus == Revoked then Ok(Some(RecallExclusion(r.recordId, PackRevoked)))
    else if r.packStatus == Superseded then Ok(Some(RecallExclusion(r.recordId, PackSuperseded)))
    else
      match context.recallPolicy
      case None => Ok(None)
      case Some(policy) =>
        if policy.categoryId !in r.categoryIds then Ok(Some(RecallExclusion(r.recordId, CategoryMismatch)))
        else if policy.jtbdId !in r.jtbdIds then Ok(Some(RecallExclusion(r.recordId, JtbdMismatch)))
        else
          var region :- Canonical(host, context.aliases, r.region);
          var allowed :- CanonicalSet(host, context.aliases, policy.allowedRegions);
          if region !in allowed then Ok(Some(RecallExclusion(r.recordId, RegionUnsupported))) else Ok(None)
  }

  /** Some allowed region and the record's region resolve to the same text. */
  predicate RegionAllowed(host: Host, aliases: map<string, string>, policy: RecallPolicy, r: RawCandidate) {
    exists v :: v in policy.allowedRegions && Canonical(host, aliases, v) == Canonical(host, aliases, r.region)
  }

  /** A record is kept exactly when it is published and fits category, job and region of the policy, if there is one. */
  lemma KeptExact(host: Host, context: DecisionContext, r: RawCandidate)
    requires Exclusion(host, context, r).Ok?
    ensures Exclusion(host, context, r).value.None?
            <==> r.packStatus == Published
                 && (context.recallPolicy.Some? ==>
                       && context.recallPolicy.value.categoryId in r.categoryIds
                       && context.recallPolicy.value.jtbdId in r.jtbdIds
                       && RegionAllowed(host, context.aliases, context.recallPolicy.value, r))
  {
    if context.recallPolicy.Some? {
      var policy := context.recallPolicy.value;
      var region, allowed := Canonical(host, context.aliases, r.region),
          CanonicalSet(host, context.aliases, policy.allowedRegions);
      if region.Ok? && allowed.Ok? {
        if v :|
            v in policy.allowedRegions
              && Canonical(host, context.aliases, v) == region { assert region.value in allowed.value; }
      }
    }
  }

  /** A record is excluded, or kept under its identity key. */
  datatype Classified = Excluded(exclusion: RecallExclusion) | Kept(record: RawCandidate, key: IdentityKey) {
    function Id(): string {
      match this
      case Excluded(e) => e.recordId
      case Kept(r, _) => r.recordId
    }
  }

  function Classify(host: Host, context: DecisionContext, r: RawCandidate): (c: Result<Classified, Error>)
    ensures c.Ok? ==> c.value.Id() == r.recordId
    ensures c.Ok? && c.value.Kept? ==> c.value.record == r
  {
    var exclusion :- Exclusion(host, context, r);
    if exclusion.Some? then Ok(Excluded(exclusion.value))
    else
      var key :- IdentityKeyOf(host, context.aliases, r);
      Ok(Kept(r, key))
  }

  // ---- Grouping ----

  function RecordKey(r: RawCandidate): seq<string> {
    [r.recordId]
  }

  function InIdOrder(candidates: seq<RawCandidate>): seq<RawCandidate> {
    SortBy(candidates, RecordKey)
  }

  function ExclusionsOf(cs: seq<Classified>): seq<RecallExclusion> {
    if cs == [] then []
    else
      var before := ExclusionsOf(cs[..|cs| - 1]);
      match cs[|cs| - 1]
      case Excluded(e) => before + [e]
      case Kept(_, _) => before
  }

  /** The records filed under one key, in the order they were met. */
  datatype Filed = Filed(key: IdentityKey, first: RawCandidate, rest: seq<RawCandidate>) {
    function Records(): seq<RawCandidate> {
      [first] + rest
    }
  }

  /** Append a record to its key's list, starting one if the key is new. */
  function FileRecord(groups: seq<Filed>, key: IdentityKey, r: RawCandidate): seq<Filed> {
    if groups == [] then [Filed(key, r, [])]
    else if groups[0].key == key then [groups[0].(rest := groups[0].rest + [r])] + groups[1..]
    else [groups[0]] + FileRecord(groups[1..], key, r)
  }

  function GroupsOf(cs: seq<Classified>): seq<Filed> {
    if cs == [] then []
    else
      var before := GroupsOf(cs[..|cs| - 1]);
      match cs[|cs| - 1]
      case Excluded(_) => before
      case Kept(r, key) => FileRecord(before, key, r)
  }

  // ---- Merging one group ----

  datatype FactKey = FactKey(field: string, value: FactValue)

  function FactKeyOf(f: ProductFact): FactKey {
    FactKey(f.field, f.value)
  }

  function EvidenceFor(facts: seq<ProductFact>, key: FactKey): set<string> {
    set f, e | f in facts && FactKeyOf(f) == key && e in f.evidenceIds :: e
  }

  function FactsOf(r: RawCandidate): seq<ProductFact> { r.facts }

  function AllFacts(records: seq<RawCandidate>): seq<ProductFact> {
    FlatMap(records, FactsOf)
  }

  function FactOrder(host: Host): FactKey -> seq<string> {
    (k: FactKey) => [k.field, host.valueHash(k.value)]
  }

  /** Equal values pool their evidence; different values stay as separate facts. */
  function MergeFacts(host: Host, facts: seq<ProductFact>, componentId: string): seq<ProductFact> {
    Map(SortBy(Dedup(Map(facts, FactKeyOf)), FactOrder(host)),
        (k: FactKey) => ProductFact(k.field, k.value, EvidenceFor(facts, k), Some(componentId)))
  }

  /** The weakest authority among the records. */
  function AuthorityFloor(records: seq<RawCandidate>): (a: PackAuthority)
    requires records != []
    ensures forall r :: r in records ==> r.authority.Rank() <= a.Rank()
    ensures exists r :: r in records && r.authority == a
  {
    assert forall r :: r in records ==> r == records[0] || r in records[1..];
    assert forall r :: r in records[1..] ==> r in records;
    if |records| == 1 then records[0].authority
    else
      var rest := AuthorityFloor(records[1..]);
      if records[0].authority.Rank() < rest.Rank() then rest else records[0].authority
  }

  /** The newest pack; the smallest record identifier among equally new ones. */
  function Anchor(records: seq<RawCandidate>): (a: RawCandidate)
    requires records != []
    ensures a in records
    ensures forall r ::
            r in records ==>
              r.packVersion <= a.packVersion && (r.packVersion == a.packVersion ==> !StrLess(r.recordId, a.recordId))
  {
    StrOrder();
    assert forall r :: r in records ==> r == records[0] || r in records[1..];
    if |records| == 1 then records[0]
    else
      var rest := Anchor(records[1..]);
      if rest.packVersion > records[0].packVersion
         || (rest.packVersion == records[0].packVersion && StrLess(rest.recordId, records[0].recordId))
      then rest else records[0]
  }

  datatype MergedGroup = MergedGroup(identity: IdentityRecord, representative: RawCandidate, merges: seq<IdentityMerge>)

  function IdentityOf(m: MergedGroup): IdentityRecord { m.identity }

  function RepresentativeOf(m: MergedGroup): RawCandidate { m.representative }

  function MergesOf(m: MergedGroup): seq<IdentityMerge> { m.merges }

  function MergeOf(canonicalId: string, first: RawCandidate, duplicate: RawCandidate): IdentityMerge {
    IdentityMerge(
      canonicalId,
      duplicate.recordId,
      {CanonicalIdentityMatch}
      + (if duplicate.offerId != first.offerId then {OfferAlias} else {})
      + (if duplicate.edition != first.edition then {EditionAlias} else {}))
  }

  function Merging(canonicalId: string, first: RawCandidate): RawCandidate -> IdentityMerge {
    (duplicate: RawCandidate) => MergeOf(canonicalId, first, duplicate)
  }

  function Representative(host: Host, key: IdentityKey, group: seq<RawCandidate>, offerId: string): RawCandidate
    requires group != []
  {
    RawCandidate(
      host.canonicalId(key), Anchor(group).packId, Anchor(group).packVersion,
      key.seller, key.product, key.edition, key.region, offerId,
      AuthorityFloor(group),
      forall r :: r in group ==> r.available,
      MergeFacts(host, AllFacts(group), key.product),
      set r, g | r in group && g in r.sellerGateIds :: g,
      set r, c | r in group && c in r.categoryIds :: c,
      set r, j | r in group && j in r.jtbdIds :: j,
      Published,
      set r, p | r in group && p in r.requiredProductIds :: p)
  }

  function MergeGroup(host: Host, aliases: map<string, string>, filed: Filed): Result<MergedGroup, Error> {
    var group := filed.Records();
    var canonicalId := host.canonicalId(filed.key);
    var offerIds :- CanonicalSet(host, aliases, set r | r in group :: r.offerId);
    var anchorOffer :- Canonical(host, aliases, Anchor(group).offerId);
    Ok(MergedGroup(
         IdentityRecord(filed.key, canonicalId, RecordIds(group), set r | r in group :: r.packId, offerIds),
         Representative(host, filed.key, group, anchorOffer),
         Map(filed.rest, Merging(canonicalId, filed.first))))
  }

  function RecordIds(records: seq<RawCandidate>): seq<string> {
    Map(records, RecordId)
  }

  // ---- The whole stage ----

  function KeyParts(f: Filed): seq<string> {
    f.key.Parts()
  }

  function MergeKey(m: IdentityMerge): seq<string> {
    [m.canonicalId, m.mergedRecordId]
  }

  function Assemble(merged: seq<MergedGroup>, exclusions: seq<RecallExclusion>, count: nat): RecallResult {
    RecallResult(
      Map(merged, IdentityOf),
      SortBy(FlatMap(merged, MergesOf), MergeKey),
      SortBy(Map(merged, RepresentativeOf), RecordKey),
      exclusions,
      count)
  }

  function Classifier(host: Host, context: DecisionContext): RawCandidate -> Result<Classified, Error> {
    (r: RawCandidate) => Classify(host, context, r)
  }

  function Merger(host: Host, context: DecisionContext): Filed -> Result<MergedGroup, Error> {
    (f: Filed) => MergeGroup(host, context.aliases, f)
  }

  function RecallAndDeduplicate(host: Host, input: DecisionInput): Result<RecallResult, Error> {
    var cs :- Traverse(InIdOrder(input.candidates), Classifier(host, input.context));
    var merged :- Traverse(SortBy(GroupsOf(cs), KeyParts), Merger(host, input.context));
    Ok(Assemble(merged, ExclusionsOf(cs), |input.candidates|))
  }

  // ---- Filing keeps every record exactly once ----

  function Keys(groups: seq<Filed>): seq<IdentityKey> {
    Map(groups, (f: Filed) => f.key)
  }

  function GroupIds(f: Filed): seq<string> {
    RecordIds(f.Records())
  }

  function OwnId(r: RawCandidate): seq<string> {
    [r.recordId]
  }

  lemma {:induction false} FileRecordKeys(groups: seq<Filed>, key: IdentityKey, r: RawCandidate)
    ensures Keys(FileRecord(groups, key, r)) == if key in Keys(groups) then Keys(groups) else Keys(groups) + [key]
  {
    if groups != [] {
      assert Keys(groups) == [groups[0].key] + Keys(groups[1..]);
      if groups[0].key != key { FileRecordKeys(groups[1..], key, r); }
    }
  }

  lemma GrownIds(f: Filed, r: RawCandidate)
    ensures f.(rest := f.rest + [r]).Records() == f.Records() + [r]
    ensures GroupIds(f.(rest := f.rest + [r])) == GroupIds(f) + [r.recordId]
  {
    assert f.(rest := f.rest + [r]).Records() == f.Records() + [r];
  }

  lemma {:induction false} FileRecordIds(groups: seq<Filed>, key: IdentityKey, r: RawCandidate)
    ensures multiset(FlatMap(FileRecord(groups, key, r), GroupIds))
            == multiset(FlatMap(groups, GroupIds)) + multiset{r.recordId}
  {
    var filed := FileRecord(groups, key, r);
    var ids := FlatMap(filed[1..], GroupIds);
    assert FlatMap(filed, GroupIds) == GroupIds(filed[0]) + ids;
    if groups == [] {
      assert GroupIds(filed[0]) == [r.recordId] && ids == [];
    } else if groups[0].key == key {
      GrownIds(groups[0], r);
      assert filed[1..] == groups[1..];
    } else {
      FileRecordIds(groups[1..], key, r);
      assert filed[1..] == FileRecord(groups[1..], key, r);
    }
  }

  /** Which records a key's list holds after filing one more. */
  lemma {:induction false} FileRecordMembers(groups: seq<Filed>, key: IdentityKey, r: RawCandidate, f: Filed,
      x: RawCandidate)
    requires f in FileRecord(groups, key, r) && x in f.Records()
    ensures (x == r && f.key == key) || exists g :: g in groups && g.key == f.key && x in g.Records()
  {
    if groups != [] && groups[0].key == key {
      var grown := groups[0].(rest := groups[0].rest + [r]);
      if f == grown {
        assert grown.Records() == groups[0].Records() + [r];
        assert groups[0] in groups;
      } else {
        assert f in groups[1..] && f in groups;
      }
    } else if groups != [] {
      if f == groups[0] {
        assert f in groups;
      } else {
        FileRecordMembers(groups[1..], key, r, f, x);
        if g :| g in groups[1..] && g.key == f.key && x in g.Records() { assert g in groups; }
      }
    }
  }

  function ExclusionIds(es: seq<RecallExclusion>): seq<string> {
    Map(es, (e: RecallExclusion) => e.recordId)
  }

  function ClassifiedIds(cs: seq<Classified>): seq<string> {
    Map(cs, (c: Classified) => c.Id())
  }

  lemma {:induction false} GroupKeysDistinct(cs: seq<Classified>)
    ensures Distinct(Keys(GroupsOf(cs)))
  {
    if cs != [] {
      var before := cs[..|cs| - 1];
      GroupKeysDistinct(before);
      match cs[|cs| - 1]
      case Excluded(_) =>
      case Kept(r, key) => FileRecordKeys(GroupsOf(before), key, r);
    }
  }

  /** Exclusions and groups share out the classified records without loss or repetition. */
  ghost predicate Partitioned(cs: seq<Classified>) {
    multiset(ClassifiedIds(cs)) == multiset(ExclusionIds(ExclusionsOf(cs))) + multiset(FlatMap(GroupsOf(cs), GroupIds))
  }

  lemma ExcludedStep(before: seq<Classified>, e: RecallExclusion)
    requires Partitioned(before)
    ensures Partitioned(before + [Excluded(e)])
  {
    var cs := before + [Excluded(e)];
    assert cs[..|before|] == before;
    MapSnoc(ExclusionsOf(before), e, (e: RecallExclusion) => e.recordId);
    MapSnoc(before, Excluded(e), (c: Classified) => c.Id());
    assert GroupsOf(cs) == GroupsOf(before);
  }

  lemma KeptStep(before: seq<Classified>, r: RawCandidate, key: IdentityKey)
    requires Partitioned(before)
    ensures Partitioned(before + [Kept(r, key)])
  {
    var cs := before + [Kept(r, key)];
    assert cs[..|before|] == before;
    assert ExclusionsOf(cs) == ExclusionsOf(before);
    assert GroupsOf(cs) == FileRecord(GroupsOf(before), key, r);
    MapSnoc(before, Kept(r, key), (c: Classified) => c.Id());
    FileRecordIds(GroupsOf(before), key, r);
  }

  lemma {:induction false} FilingPartitions(cs: seq<Classified>)
    ensures Partitioned(cs)
  {
    if cs != [] {
      var before, last := cs[..|cs| - 1], cs[|cs| - 1];
      FilingPartitions(before);
      assert cs == before + [last];
      match last
      case Excluded(e) => ExcludedStep(before, e);
      case Kept(r, key) => KeptStep(before, r, key);
    }
  }

  /** A group holds exactly the kept records with its key. */
  lemma {:induction false} GroupHolds(cs: seq<Classified>, f: Filed, x: RawCandidate)
    requires f in GroupsOf(cs) && x in f.Records()
    ensures Kept(x, f.key) in cs
  {
    if cs != [] {
      var before, last := cs[..|cs| - 1], cs[|cs| - 1];
      assert cs == before + [last];
      match last
      case Excluded(_) => GroupHolds(before, f, x);
      case Kept(r, key) =>
        FileRecordMembers(GroupsOf(before), key, r, f, x);
        if g :| g in GroupsOf(before) && g.key == f.key && x in g.Records() {
          GroupHolds(before, g, x);
        }
    }
  }

  lemma {:induction false} FileRecordFiles(groups: seq<Filed>, key: IdentityKey, r: RawCandidate)
    ensures exists f :: f in FileRecord(groups, key, r) && f.key == key && r in f.Records()
    ensures forall g, x :: g in groups && x in g.Records() ==>
              exists f :: f in FileRecord(groups, key, r) && f.key == g.key && x in f.Records()
  {
    var filed := FileRecord(groups, key, r);
    if groups == [] {
      assert filed[0] in filed && filed[0].Records() == [r];
    } else if groups[0].key == key {
      GrownIds(groups[0], r);
      assert filed[0] in filed;
      forall g, x | g in groups && x in g.Records()
        ensures exists f :: f in filed && f.key == g.key && x in f.Records()
      {
        if g != groups[0] { assert g in groups[1..] && g in filed; }
      }
    } else {
      FileRecordFiles(groups[1..], key, r);
      var tail := FileRecord(groups[1..], key, r);
      assert forall f :: f in tail ==> f in filed;
      assert filed[0] in filed;
      forall g, x | g in groups && x in g.Records()
        ensures exists f :: f in filed && f.key == g.key && x in f.Records()
      {
        if g != groups[0] { assert g in groups[1..]; }
      }
    }
  }

  /** Every kept record is filed under its key. */
  lemma {:induction false} KeptIsFiled(cs: seq<Classified>, x: RawCandidate, key: IdentityKey)
    requires Kept(x, key) in cs
    ensures exists f :: f in GroupsOf(cs) && f.key == key && x in f.Records()
  {
    var before, last := cs[..|cs| - 1], cs[|cs| - 1];
    assert cs == before + [last];
    if last.Kept? { FileRecordFiles(GroupsOf(before), last.key, last.record); }
    if last != Kept(x, key) {
      KeptIsFiled(before, x, key);
    }
  }

  // ---- The recall stage as a whole ----

  /** What a successful recall computed on the way to its result. */
  ghost predicate Trail(host: Host, input: DecisionInput, cs: seq<Classified>, filed: seq<Filed>,
      merged: seq<MergedGroup>)
  {
    && |cs| == |InIdOrder(input.candidates)| == |input.candidates|
    && (forall i :: 0 <= i < |cs| ==> Classify(host, input.context, InIdOrder(input.candidates)[i]) == Ok(cs[i]))
    && filed == SortBy(GroupsOf(cs), KeyParts)
    && |merged| == |filed|
    && (forall i :: 0 <= i < |filed| ==> MergeGroup(host, input.context.aliases, filed[i]) == Ok(merged[i]))
  }

  lemma RecallTrail(host: Host, input: DecisionInput)
    returns (cs: seq<Classified>, filed: seq<Filed>, merged: seq<MergedGroup>)
    requires RecallAndDeduplicate(host, input).Ok?
    ensures Trail(host, input, cs, filed, merged)
    ensures RecallAndDeduplicate(host, input).value == Assemble(merged, ExclusionsOf(cs), |input.candidates|)
  {
    var ordered := InIdOrder(input.candidates);
    SortPermutes(input.candidates, ByKey(RecordKey));
    TraversePointwise(ordered, Classifier(host, input.context));
    cs := Traverse(ordered, Classifier(host, input.context)).value;
    filed := SortBy(GroupsOf(cs), KeyParts);
    TraversePointwise(filed, Merger(host, input.context));
    merged := Traverse(filed, Merger(host, input.context)).value;
  }

  lemma FiledSameKeys(cs: seq<Classified>, f: Filed, g: Filed)
    requires f in GroupsOf(cs) && g in GroupsOf(cs) && f.key == g.key
    ensures f == g
  {
    GroupKeysDistinct(cs);
    var groups := GroupsOf(cs);
    var i :| 0 <= i < |groups| && groups[i] == f;
    var j :| 0 <= j < |groups| && groups[j] == g;
    assert Keys(groups)[i] == Keys(groups)[j];
  }

  function IdentityIds(i: IdentityRecord): seq<string> {
    i.recordIds
  }

  lemma IdentitiesRepeatGroups(host: Host, input: DecisionInput, cs: seq<Classified>, filed: seq<Filed>,
      merged: seq<MergedGroup>)
    requires Trail(host, input, cs, filed, merged)
    ensures var identities := Map(merged, IdentityOf);
            multiset(FlatMap(identities, IdentityIds)) == multiset(FlatMap(GroupsOf(cs), GroupIds))
    ensures |FlatMap(filed, GroupIds)| == |filed| + |FlatMap(merged, MergesOf)|
    ensures |FlatMap(filed, GroupIds)| == |FlatMap(GroupsOf(cs), GroupIds)|
  {
    var identities := Map(merged, IdentityOf);
    FlatMapPointwise(identities, filed, IdentityIds, GroupIds);
    SortFlatMap(GroupsOf(cs), ByKey(KeyParts), GroupIds);
    FlatMapLonger(filed, merged, GroupIds, MergesOf);
    assert |FlatMap(filed, GroupIds)| == |multiset(FlatMap(filed, GroupIds))|;
  }

  lemma ClassifiedIdsPermute(host: Host, input: DecisionInput, cs: seq<Classified>)
    requires |InIdOrder(input.candidates)| == |input.candidates| == |cs|
    requires forall i :: 0 <= i < |cs| ==> Classify(host, input.context, InIdOrder(input.candidates)[i]) == Ok(cs[i])
    ensures multiset(ClassifiedIds(cs)) == multiset(RecordIds(input.candidates))
  {
    var ordered := InIdOrder(input.candidates);
    assert ClassifiedIds(cs) == RecordIds(ordered);
    MapIsFlatMap(ordered, RecordId, OwnId);
    MapIsFlatMap(input.candidates, RecordId, OwnId);
    SortFlatMap(input.candidates, ByKey(RecordKey), OwnId);
  }

  /**
   * Every input record lands in exactly one place: excluded, or listed by one identity. The numbers
   * of exclusions, identities and merges add up to the number of candidates.
   */
  lemma RecallPartition(host: Host, input: DecisionInput)
    requires RecallAndDeduplicate(host, input).Ok?
    ensures var r := RecallAndDeduplicate(host, input).value;
            && multiset(RecordIds(input.candidates))
                 == multiset(ExclusionIds(r.exclusions)) + multiset(FlatMap(r.identities, IdentityIds))
            && |input.candidates| == |r.exclusions| + |r.identities| + |r.merges|
            && |r.representatives| == |r.identities|
  {
    var cs, filed, merged := RecallTrail(host, input);
    FilingPartitions(cs);
    IdentitiesRepeatGroups(host, input, cs, filed, merged);
    ClassifiedIdsPermute(host, input, cs);
    SortPermutes(FlatMap(merged, MergesOf), ByKey(MergeKey));
    SortPermutes(Map(merged, RepresentativeOf), ByKey(RecordKey));
    assert |ClassifiedIds(cs)| == |multiset(ClassifiedIds(cs))|;
    assert |multiset(ExclusionIds(ExclusionsOf(cs)))| == |ExclusionsOf(cs)|;
    assert |multiset(FlatMap(GroupsOf(cs), GroupIds))| == |FlatMap(GroupsOf(cs), GroupIds)|;
  }

  lemma OrderedMembers(input: DecisionInput)
    ensures forall c :: c in InIdOrder(input.candidates) <==> c in input.candidates
  {
    SortPermutes(input.candidates, ByKey(RecordKey));
  }

  lemma SameRecord(candidates: seq<RawCandidate>, a: RawCandidate, b: RawCandidate)
    requires Distinct(RecordIds(candidates)) && a in candidates && b in candidates && a.recordId == b.recordId
    ensures a == b
  {
    var i :| 0 <= i < |candidates| && candidates[i] == a;
    var j :| 0 <= j < |candidates| && candidates[j] == b;
    assert RecordIds(candidates)[i] == RecordIds(candidates)[j];
  }

  lemma ListedIsKept(host: Host, input: DecisionInput, cs: seq<Classified>, filed: seq<Filed>, merged: seq<MergedGroup>,
      f: Filed, c: RawCandidate)
    requires Distinct(RecordIds(input.candidates)) && c in input.candidates
    requires Trail(host, input, cs, filed, merged)
    requires f in GroupsOf(cs) && c.recordId in RecordIds(f.Records())
    ensures Classify(host, input.context, c) == Ok(Kept(c, f.key))
  {
    OrderedMembers(input);
    var k :| 0 <= k < |f.Records()| && RecordIds(f.Records())[k] == c.recordId;
    var x := f.Records()[k];
    GroupHolds(cs, f, x);
    var m :| 0 <= m < |cs| && cs[m] == Kept(x, f.key);
    var y := InIdOrder(input.candidates)[m];
    assert Classify(host, input.context, y) == Ok(cs[m]);
    SameRecord(input.candidates, y, c);
  }

  lemma KeptIsListed(host: Host, input: DecisionInput, cs: seq<Classified>, filed: seq<Filed>, merged: seq<MergedGroup>,
      f: Filed, c: RawCandidate)
    requires c in input.candidates
    requires Trail(host, input, cs, filed, merged)
    requires f in GroupsOf(cs) && Classify(host, input.context, c) == Ok(Kept(c, f.key))
    ensures c in f.Records() && c.recordId in RecordIds(f.Records())
  {
    OrderedMembers(input);
    var ordered := InIdOrder(input.candidates);
    var m :| 0 <= m < |ordered| && ordered[m] == c;
    assert cs[m] == Kept(c, f.key) && cs[m] in cs;
    KeptIsFiled(cs, c, f.key);
    var g :| g in GroupsOf(cs) && g.key == f.key && c in g.Records();
    FiledSameKeys(cs, f, g);
    var k :| 0 <= k < |f.Records()| && f.Records()[k] == c;
    assert RecordIds(f.Records())[k] == c.recordId;
  }

  lemma MergedIdentity(host: Host, aliases: map<string, string>, f: Filed, merged: MergedGroup)
    requires MergeGroup(host, aliases, f) == Ok(merged)
    ensures merged.identity.key == f.key && merged.identity.recordIds == RecordIds(f.Records())
  {
    hide Representative, CanonicalSet;
  }

  /** An identity lists a record exactly when the record is kept and its four keys are the identity's. */
  lemma IdentityListsExactly(host: Host, input: DecisionInput, i: nat, c: RawCandidate)
    requires Distinct(RecordIds(input.candidates)) && c in input.candidates
    requires RecallAndDeduplicate(host, input).Ok?
    requires i < |RecallAndDeduplicate(host, input).value.identities|
    ensures var identity := RecallAndDeduplicate(host, input).value.identities[i];
            c.recordId in identity.recordIds
            <==> Exclusion(host, input.context, c) == Ok(None)
                 && IdentityKeyOf(host, input.context.aliases, c) == Ok(identity.key)
  {
    hide RecallAndDeduplicate, GroupsOf, ExclusionsOf, MergeGroup, Exclusion, IdentityKeyOf, InIdOrder;
    var cs, filed, merged := RecallTrail(host, input);
    SortPermutes(GroupsOf(cs), ByKey(KeyParts));
    var f := filed[i];
    var identity := merged[i].identity;
    MergedIdentity(host, input.context.aliases, f, merged[i]);
    if c.recordId in identity.recordIds { ListedIsKept(host, input, cs, filed, merged, f, c); }
    if Classify(host, input.context, c) == Ok(Kept(c, f.key)) { KeptIsListed(host, input, cs, filed, merged, f, c); }
    assert Classify(host, input.context, c) == Ok(Kept(c, f.key))
      <==> Exclusion(host, input.context, c) == Ok(None) && IdentityKeyOf(host, input.context.aliases, c) == Ok(f.key);
  }

  /** A merged record still states every value any of its duplicates stated. */
  lemma MergeKeepsValues(host: Host, facts: seq<ProductFact>, componentId: string, f: ProductFact)
    requires f in facts
    ensures exists g ::
            g in MergeFacts(host, facts, componentId) && g.field == f.field && g.value == f.value
              && g.componentId == Some(componentId)
                        && f.evidenceIds <= g.evidenceIds
  {
    var keys := Map(facts, FactKeyOf);
    var order := FactOrder(host);
    SortPermutes(Dedup(keys), ByKey(order));
    var i :| 0 <= i < |facts| && facts[i] == f;
    assert keys[i] == FactKeyOf(f);
    DedupKeeps(keys, FactKeyOf(f));
    var sorted := SortBy(Dedup(keys), order);
    var k :| 0 <= k < |sorted| && sorted[k] == FactKeyOf(f);
    var g := MergeFacts(host, facts, componentId)[k];
    assert g in MergeFacts(host, facts, componentId);
  }

  /** And it states nothing else. */
  lemma MergeAddsNothing(host: Host, facts: seq<ProductFact>, componentId: string, g: ProductFact)
    requires g in MergeFacts(host, facts, componentId)
    ensures g.componentId == Some(componentId)
    ensures exists f :: f in facts && f.field == g.field && f.value == g.value
    ensures forall e ::
            e in g.evidenceIds
            <==> exists f :: f in facts && f.field == g.field && f.value == g.value && e in f.evidenceIds
  {
    var keys := Map(facts, FactKeyOf);
    var order := FactOrder(host);
    SortPermutes(Dedup(keys), ByKey(order));
    var merged := MergeFacts(host, facts, componentId);
    var k :| 0 <= k < |merged| && merged[k] == g;
    var key := SortBy(Dedup(keys), order)[k];
    assert key in Dedup(keys);
    DedupKeeps(keys, key);
    var i :| 0 <= i < |keys| && keys[i] == key;
    assert facts[i] in facts && FactKeyOf(facts[i]) == key;
  }

  /** What the representative of a kept record carries over from it. */
  ghost predicate StandsFor(host: Host, rep: RawCandidate, key: IdentityKey, a: RawCandidate) {
    && rep.recordId == host.canonicalId(key) && rep.productId == key.product
    && forall f :: f in a.facts ==> Carries(rep, f)
  }

  ghost predicate Carries(rep: RawCandidate, f: ProductFact) {
    exists g :: g in rep.facts && g.field == f.field && g.value == f.value && g.componentId == Some(rep.productId)
  }

  lemma RepresentativeCarries(host: Host, key: IdentityKey, group: seq<RawCandidate>, offerId: string, a: RawCandidate)
    requires a in group
    ensures StandsFor(host, Representative(host, key, group, offerId), key, a)
  {
    var rep := Representative(host, key, group, offerId);
    forall f | f in a.facts ensures Carries(rep, f) {
      var i :| 0 <= i < |group| && group[i] == a;
      FlatMapMembers(group, FactsOf, f);
      MergeKeepsValues(host, AllFacts(group), key.product, f);
    }
  }

  lemma MergedRepresentative(host: Host, aliases: map<string, string>, f: Filed, merged: MergedGroup, a: RawCandidate)
    requires MergeGroup(host, aliases, f) == Ok(merged) && a in f.Records()
    ensures StandsFor(host, merged.representative, f.key, a)
  {
    var offer := Canonical(host, aliases, Anchor(f.Records()).offerId).value;
    RepresentativeCarries(host, f.key, f.Records(), offer, a);
  }

  /** The group a kept record is filed in. */
  lemma GroupOfKept(host: Host, input: DecisionInput, cs: seq<Classified>, filed: seq<Filed>, merged: seq<MergedGroup>,
      a: RawCandidate, key: IdentityKey)
    returns (f: Filed)
    requires Trail(host, input, cs, filed, merged)
    requires a in input.candidates && Classify(host, input.context, a) == Ok(Kept(a, key))
    ensures f in GroupsOf(cs) && f.key == key && a in f.Records()
  {
    OrderedMembers(input);
    var ordered := InIdOrder(input.candidates);
    var i :| 0 <= i < |ordered| && ordered[i] == a;
    assert cs[i] in cs;
    KeptIsFiled(cs, a, key);
    f :| f in GroupsOf(cs) && f.key == key && a in f.Records();
  }

  /** Two kept records with the same four keys have one representative, which carries the facts of both. */
  lemma SharedRepresentative(host: Host, input: DecisionInput, a: RawCandidate, b: RawCandidate, key: IdentityKey)
    returns (rep: RawCandidate)
    requires RecallAndDeduplicate(host, input).Ok?
    requires a in input.candidates && b in input.candidates
    requires Classify(host, input.context, a) == Ok(Kept(a, key))
             && Classify(host, input.context, b) == Ok(Kept(b, key))
    ensures rep in RecallAndDeduplicate(host, input).value.representatives
    ensures StandsFor(host, rep, key, a) && StandsFor(host, rep, key, b)
  {
    var cs, filed, merged := RecallTrail(host, input);
    var f := GroupOfKept(host, input, cs, filed, merged, a, key);
    var g := GroupOfKept(host, input, cs, filed, merged, b, key);
    FiledSameKeys(cs, f, g);
    rep := GroupRepresentative(host, input, cs, filed, merged, f);
    var k :| 0 <= k < |filed| && filed[k] == f && merged[k].representative == rep;
    MergedRepresentative(host, input.context.aliases, f, merged[k], a);
    MergedRepresentative(host, input.context.aliases, f, merged[k], b);
  }

  lemma GroupRepresentative(host: Host, input: DecisionInput, cs: seq<Classified>, filed: seq<Filed>,
      merged: seq<MergedGroup>, f: Filed)
    returns (rep: RawCandidate)
    requires Trail(host, input, cs, filed, merged) && f in GroupsOf(cs)
    ensures exists k :: 0 <= k < |filed| && filed[k] == f && merged[k].representative == rep
    ensures rep in Assemble(merged, ExclusionsOf(cs), |input.candidates|).representatives
  {
    hide GroupsOf, ExclusionsOf, MergeGroup, InIdOrder, Classify, Sort;
    SortPermutes(GroupsOf(cs), ByKey(KeyParts));
    var k :| 0 <= k < |filed| && filed[k] == f;
    rep := merged[k].representative;
    var representatives := Map(merged, RepresentativeOf);
    SortPermutes(representatives, ByKey(RecordKey));
    assert representatives[k] == rep;
  }

  /** Recall does not depend on the order the candidate records arrive in. */
  lemma RecallForgetsOrder(host: Host, context: DecisionContext, a: seq<RawCandidate>, b: seq<RawCandidate>)
    requires multiset(a) == multiset(b) && Distinct(RecordIds(a))
    ensures RecallAndDeduplicate(host, DecisionInput(a, context))
            == RecallAndDeduplicate(host, DecisionInput(b, context))
  {
    var less := ByKey(RecordKey);
    ByKeyOrder(RecordKey);
    IdsOrder();
    forall x, y | x in a && y in a && !less(x, y) && !less(y, x) ensures x == y {
      assert RecordKey(x) == RecordKey(y);
      assert RecordKey(x)[0] == RecordKey(y)[0];
      SameRecord(a, x, y);
    }
    SortForgetsOrder(a, b, less);
    assert |a| == |multiset(a)| == |b|;
  }

  // ---- What recall can raise ----

  predicate OnlyCycles<T>(r: Result<T, Error>) {
    r.Raise? ==> r.error == AliasCycle
  }

  lemma {:induction false} FollowRaises(aliases: map<string, string>, current: string, visited: set<string>)
    requires visited <= aliases.Keys
    ensures OnlyCycles(Follow(aliases, current, visited))
    decreases |aliases.Keys - visited|
  {
    if current in aliases && current !in visited {
      SmallerSet(aliases.Keys - (visited + {current}), aliases.Keys - visited);
      FollowRaises(aliases, aliases[current], visited + {current});
    }
  }

  lemma {:induction false} TraverseRaises<T, U>(s: seq<T>, f: T -> Result<U, Error>)
    requires forall x :: x in s ==> OnlyCycles(f(x))
    ensures OnlyCycles(Traverse(s, f))
  {
    if s != [] {
      assert s[0] in s && forall x :: x in s[1..] ==> x in s;
      TraverseRaises(s[1..], f);
    }
  }

  lemma ClassifyRaises(host: Host, context: DecisionContext, r: RawCandidate)
    ensures OnlyCycles(Classify(host, context, r))
  {
    forall v
      ensures OnlyCycles(Canonical(host, context.aliases, v)) { FollowRaises(context.aliases, host.fold(v), {}); }
  }

  lemma MergeRaises(host: Host, aliases: map<string, string>, f: Filed)
    ensures OnlyCycles(MergeGroup(host, aliases, f))
  {
    hide Representative;
    forall v ensures OnlyCycles(Canonical(host, aliases, v)) { FollowRaises(aliases, host.fold(v), {}); }
  }

  /** Recall fails for no reason but a cycle of aliases. */
  lemma RecallRaisesOnlyCycles(host: Host, input: DecisionInput)
    ensures OnlyCycles(RecallAndDeduplicate(host, input))
  {
    hide Classify, MergeGroup, GroupsOf, ExclusionsOf;
    var ordered := InIdOrder(input.candidates);
    forall r | r in ordered
      ensures OnlyCycles(Classifier(host, input.context)(r)) { ClassifyRaises(host, input.context, r); }
    TraverseRaises(ordered, Classifier(host, input.context));
    var cs := Traverse(ordered, Classifier(host, input.context));
    if cs.Ok? {
      var filed := SortBy(GroupsOf(cs.value), KeyParts);
      forall f | f in filed
        ensures OnlyCycles(Merger(host, input.context)(f)) { MergeRaises(host, input.context.aliases, f); }
      TraverseRaises(filed, Merger(host, input.context));
    }
  }

  // ---- Sharing an identity ----

  lemma KeptHasIdentity(host: Host, input: DecisionInput, a: RawCandidate, key: IdentityKey) returns (i: nat)
    requires Distinct(RecordIds(input.candidates)) && a in input.candidates
    requires RecallAndDeduplicate(host, input).Ok? && Classify(host, input.context, a) == Ok(Kept(a, key))
    ensures i < |RecallAndDeduplicate(host, input).value.identities|
    ensures RecallAndDeduplicate(host, input).value.identities[i].key == key
    ensures a.recordId in RecallAndDeduplicate(host, input).value.identities[i].recordIds
  {
    hide Classify, RecallAndDeduplicate, MergeGroup, GroupsOf, ExclusionsOf, InIdOrder;
    var cs, filed, merged := RecallTrail(host, input);
    var f := GroupOfKept(host, input, cs, filed, merged, a, key);
    SortPermutes(GroupsOf(cs), ByKey(KeyParts));
    i :| 0 <= i < |filed| && filed[i] == f;
    KeptIsListed(host, input, cs, filed, merged, f, a);
    MergedIdentity(host, input.context.aliases, f, merged[i]);
  }

  /** The identity at position i lists both records. */
  ghost predicate ListsBoth(r: RecallResult, i: nat, a: RawCandidate, b: RawCandidate) {
    i < |r.identities| && a.recordId in r.identities[i].recordIds && b.recordId in r.identities[i].recordIds
  }

  /** Two kept records are listed by one identity exactly when their four canonical keys agree. */
  lemma ShareIdentityExactly(host: Host, input: DecisionInput, a: RawCandidate, ka: IdentityKey, b: RawCandidate,
      kb: IdentityKey)
    requires Distinct(RecordIds(input.candidates)) && a in input.candidates && b in input.candidates
    requires RecallAndDeduplicate(host, input).Ok?
    requires Classify(host, input.context, a) == Ok(Kept(a, ka)) && Classify(host, input.context, b) == Ok(Kept(b, kb))
    ensures (exists i :: ListsBoth(RecallAndDeduplicate(host, input).value, i, a, b)) <==> ka == kb
  {
    hide RecallAndDeduplicate, Exclusion, IdentityKeyOf;
    if i :| ListsBoth(RecallAndDeduplicate(host, input).value, i, a, b) {
      IdentityListsExactly(host, input, i, a);
      IdentityListsExactly(host, input, i, b);
    }
    if ka == kb {
      var i := KeptHasIdentity(host, input, a, ka);
      IdentityListsExactly(host, input, i, b);
      assert ListsBoth(RecallAndDeduplicate(host, input).value, i, a, b);
    }
  }
}
