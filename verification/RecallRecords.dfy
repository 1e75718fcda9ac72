/** What recall makes of records: why one is excluded, and what a merged one takes from each of its duplicates. */
module RecallRecords {
  import opened Outcomes
  import opened Ordering
  import opened GraphModels
  import opened Aliases
  import opened Recall

  /** The reason a record is excluded for: the first that applies. */
  lemma ExclusionExact(host: Host, context: DecisionContext, r: RawCandidate)
    requires Exclusion(host, context, r).Ok? && Exclusion(host, context, r).value.Some?
    ensures var x := Exclusion(host, context, r).value.value;
            && x.recordId == r.recordId
            && (x.reason == PackRevoked <==> r.packStatus == Revoked)
            && (x.reason == PackSuperseded <==> r.packStatus == Superseded)
            && (r.packStatus == Published ==>
                  && context.recallPolicy.Some?
                  && var policy := context.recallPolicy.value;
                     && (x.reason == CategoryMismatch <==> policy.categoryId !in r.categoryIds)
                     && (x.reason == JtbdMismatch
                         <==> policy.categoryId in r.categoryIds && policy.jtbdId !in r.jtbdIds)
                     && (x.reason == RegionUnsupported
                         <==> policy.categoryId in r.categoryIds && policy.jtbdId in r.jtbdIds))
  {
  }

  /** No record of the group is newer, nor as new with a smaller identifier. */
  ghost predicate Newest(group: seq<RawCandidate>, a: RawCandidate) {
    && a in group
    && forall r :: r in group ==>
         r.packVersion < a.packVersion || (r.packVersion == a.packVersion && !StrLess(r.recordId, a.recordId))
  }

  /** What a merged record is, and whose pack and offer it stands for. */
  ghost predicate StandsAs(host: Host, aliases: map<string, string>, f: Filed, rep: RawCandidate) {
    && rep.recordId == host.canonicalId(f.key) && rep.packStatus == Published
    && rep.sellerId == f.key.seller && rep.productId == f.key.product && rep.edition == f.key.edition
    && rep.region == f.key.region
    && (exists a :: Newest(f.Records(), a) && rep.packId == a.packId && rep.packVersion == a.packVersion
          && Canonical(host, aliases, a.offerId) == Ok(rep.offerId))
  }

  /** What it gathers from its group. */
  ghost predicate Gathers(group: seq<RawCandidate>, rep: RawCandidate) {
    && (rep.available <==> forall r :: r in group ==> r.available)
    && (forall g :: g in rep.sellerGateIds <==> exists r :: r in group && g in r.sellerGateIds)
    && (forall c :: c in rep.categoryIds <==> exists r :: r in group && c in r.categoryIds)
    && (forall j :: j in rep.jtbdIds <==> exists r :: r in group && j in r.jtbdIds)
    && (forall p :: p in rep.requiredProductIds <==> exists r :: r in group && p in r.requiredProductIds)
  }

  /** What its identity lists. */
  ghost predicate Identifies(host: Host, aliases: map<string, string>, f: Filed, identity: IdentityRecord) {
    var group := f.Records();
    && identity.key == f.key && identity.canonicalId == host.canonicalId(f.key)
    && |identity.recordIds| == |group|
    && (forall i :: 0 <= i < |group| ==> identity.recordIds[i] == group[i].recordId)
    && (forall p :: p in identity.packIds <==> exists r :: r in group && r.packId == p)
    && (forall o :: o in identity.offerIds <==> exists r :: r in group && Canonical(host, aliases, r.offerId) == Ok(o))
  }

  /** What is reported of each duplicate: how it differs from the first of the group. */
  ghost predicate Reports(host: Host, f: Filed, merges: seq<IdentityMerge>) {
    && |merges| == |f.rest|
    && forall i :: 0 <= i < |merges| ==>
         && merges[i].canonicalId == host.canonicalId(f.key) && merges[i].mergedRecordId == f.rest[i].recordId
         && CanonicalIdentityMatch in merges[i].reasons
         && (OfferAlias in merges[i].reasons <==> f.rest[i].offerId != f.first.offerId)
         && (EditionAlias in merges[i].reasons <==> f.rest[i].edition != f.first.edition)
  }

  lemma NewestAnchor(group: seq<RawCandidate>)
    requires group != []
    ensures Newest(group, Anchor(group))
  {
    forall r | r in group
      ensures r.packVersion < Anchor(group).packVersion
              || (r.packVersion == Anchor(group).packVersion && !StrLess(r.recordId, Anchor(group).recordId))
    {
    }
  }

  /** A group that can be merged gives an identity, a representative and one report for each further record. */
  lemma MergedRecordExact(host: Host, aliases: map<string, string>, f: Filed)
    requires MergeGroup(host, aliases, f).Ok?
    ensures var m := MergeGroup(host, aliases, f).value;
            && Identifies(host, aliases, f, m.identity) && Reports(host, f, m.merges)
            && StandsAs(host, aliases, f, m.representative) && Gathers(f.Records(), m.representative)
  {
    hide Identifies, StandsAs, Gathers, Reports, Anchor, MergeFacts, AuthorityFloor, Canonical;
    IdentityIs(host, aliases, f);
    RepresentativeIs(host, aliases, f);
    ReportsAre(host, aliases, f);
  }

  lemma IdentityIs(host: Host, aliases: map<string, string>, f: Filed)
    requires MergeGroup(host, aliases, f).Ok?
    ensures Identifies(host, aliases, f, MergeGroup(host, aliases, f).value.identity)
  {
    hide Anchor, MergeFacts, AuthorityFloor, Canonical, Representative;
  }

  lemma RepresentativeIs(host: Host, aliases: map<string, string>, f: Filed)
    requires MergeGroup(host, aliases, f).Ok?
    ensures StandsAs(host, aliases, f, MergeGroup(host, aliases, f).value.representative)
    ensures Gathers(f.Records(), MergeGroup(host, aliases, f).value.representative)
  {
    hide Anchor, MergeFacts, AuthorityFloor, Canonical, Newest, Gathers;
    NewestAnchor(f.Records());
    GatheredBy(host, f.key, f.Records(), MergeGroup(host, aliases, f).value.representative.offerId);
  }

  lemma GatheredBy(host: Host, key: IdentityKey, group: seq<RawCandidate>, offerId: string)
    requires group != []
    ensures Gathers(group, Representative(host, key, group, offerId))
  {
    hide Anchor, MergeFacts, AuthorityFloor;
  }

  lemma ReportsAre(host: Host, aliases: map<string, string>, f: Filed)
    requires MergeGroup(host, aliases, f).Ok?
    ensures Reports(host, f, MergeGroup(host, aliases, f).value.merges)
  {
    hide Anchor, MergeFacts, AuthorityFloor, Canonical, CanonicalSet, Representative, RecordIds, MergeOf, Reports;
    assert MergeGroup(host, aliases, f).value.merges == Map(f.rest, Merging(host.canonicalId(f.key), f.first));
    EachReported(host, f);
  }

  lemma EachReported(host: Host, f: Filed)
    ensures Reports(host, f, Map(f.rest, Merging(host.canonicalId(f.key), f.first)))
  {
  }
}
