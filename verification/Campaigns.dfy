/** What a campaign's verdicts say of its results and releases. */
module Campaigns {
  import opened Outcomes
  import opened Bridge
  import opened Manifest

  /** Release i is the last one of the adapter. */
  ghost predicate LastRelease(releases: seq<Release>, adapterId: string, i: int) {
    && 0 <= i < |releases| && releases[i].adapterId == adapterId
    && forall j :: i < j < |releases| ==> releases[j].adapterId != adapterId
  }

  /** A later release of an adapter replaces an earlier one. */
  lemma {:induction false} ReleasesExact(releases: seq<Release>, adapterId: string)
    ensures adapterId in ByAdapter(releases) <==> exists r :: r in releases && r.adapterId == adapterId
    ensures forall i :: LastRelease(releases, adapterId, i) ==>
              adapterId in ByAdapter(releases) && ByAdapter(releases)[adapterId] == releases[i]
  {
    if releases != [] {
      var before, last := releases[..|releases| - 1], releases[|releases| - 1];
      assert releases == before + [last];
      ReleasesExact(before, adapterId);
      forall i | LastRelease(releases, adapterId, i)
        ensures adapterId in ByAdapter(releases) && ByAdapter(releases)[adapterId] == releases[i]
      {
        if i < |before| {
          assert last.adapterId != adapterId;
          assert before[i] == releases[i] && forall j :: i < j < |before| ==> before[j] == releases[j];
          assert LastRelease(before, adapterId, i);
        }
      }
    }
  }

  /** The runtime reported the gate as true. */
  predicate CameTrue(r: RuntimeResult, g: ProofGate) {
    r.gateResults.Some? && g in r.gateResults.value && r.gateResults.value[g] == true
  }

  /** The result carries its identity, and gate results if it completed. */
  predicate Identified(r: RuntimeResult) {
    r.artifactDigest.Some? && r.resultHash.Some? && (r.completed ==> r.gateResults.Some?)
  }

  /** The result is of the artifact and region that were released. */
  predicate AsReleased(r: RuntimeResult, release: Release) {
    r.artifactDigest == Some(release.artifactDigest) && r.declaredRegion == Some(release.declaredRegion)
  }

  /**
   * An adapter can be judged exactly when it has a price and a result that is identified and, where releases are
   * given, as released; it has then failed exactly the expected gates not reported true, all of them and to run
   * at all if it did not complete; and it is eligible exactly when it has failed nothing.
   */
  lemma JudgeExact(c: Campaign, adapterId: string)
    ensures Judge(c, adapterId).Ok?
            <==> && adapterId in c.results && adapterId in c.Prices() && Identified(c.results[adapterId])
                 && (c.releases.Some? && adapterId in ByAdapter(c.releases.value) ==>
                       AsReleased(c.results[adapterId], ByAdapter(c.releases.value)[adapterId]))
    ensures Judge(c, adapterId).Ok? ==>
              var v, r := Judge(c, adapterId).value, c.results[adapterId];
              && v.adapterId == adapterId && v.priceCents == c.Prices()[adapterId]
              && (v.eligible <==> v.failed == {})
              && (RuntimeIncomplete in v.failed <==> !r.completed)
              && forall g :: GateFailed(g) in v.failed <==>
                   (g == FunctionalCanary || exists m :: m in c.manifest.gates && m.gate == g)
                   && !(r.completed && CameTrue(r, g))
  {
    if adapterId in c.results && adapterId in c.Prices() {
      var r := c.results[adapterId];
      if r.completed && r.gateResults.Some? {
        assert FailuresOf(c.manifest, r)
          == Ok(set g | g in c.manifest.Expected() && !GatePassed(r, g) :: GateFailed(g));
      }
    }
  }

  /** The price of an adapter: as curated, or as last released where releases are given. */
  lemma PriceExact(c: Campaign, adapterId: string)
    ensures c.releases.None? ==> c.Prices() == c.curated
    ensures c.releases.Some? ==>
              forall i :: LastRelease(c.releases.value, adapterId, i) ==>
                adapterId in c.Prices() && c.Prices()[adapterId] == c.releases.value[i].priceCents
  {
    if c.releases.Some? { ReleasesExact(c.releases.value, adapterId); }
  }
}
