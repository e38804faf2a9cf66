/** `get_stats` of `app/routes/dashboard.py`: a read-only aggregate over
    the families, donations and distributions tables. */
module Dashboard {
  import opened Common
  import opened Schema
  import opened Ledger

  /** `LIMIT 5` on the recent distributions. */
  const RecentLimit: nat := 5

  datatype Stats = Stats(
    totalFamilies: nat,
    totalDonations: int,
    totalDistributions: int,
    availableBaskets: int,
    recentDistributions: seq<Distribution>)

  /** The dashboard. It is a function of the tables, so it writes nothing. */
  function GetStats(families: seq<Family>, donations: seq<Donation>, distributions: seq<Distribution>)
    : (r: Stats)
    ensures r.totalFamilies == |families|
    ensures r.totalDonations == TotalDonated(donations)
    ensures r.totalDistributions == TotalDistributed(distributions)
    ensures r.availableBaskets == r.totalDonations - r.totalDistributions
    ensures r.availableBaskets == Available(donations, distributions)
    ensures |r.recentDistributions| == Min(RecentLimit, |distributions|) <= RecentLimit
    ensures r.recentDistributions
         == ListDistributions(distributions)[..|r.recentDistributions|]
    ensures forall i :: 0 <= i < |r.recentDistributions| ==>
              r.recentDistributions[i] == distributions[|distributions| - 1 - i]
  {
    var n := Min(RecentLimit, |distributions|);
    Stats(|families|, TotalDonated(donations), TotalDistributed(distributions),
          TotalDonated(donations) - TotalDistributed(distributions),
          ListDistributions(distributions)[..n])
  }

  /** Over rows whose timestamps grew with insertion, the recent list is the
      five newest distributions, newest first: every distribution left out
      is older than every one shown. */
  lemma RecentAreNewest(families: seq<Family>, donations: seq<Donation>, distributions: seq<Distribution>)
    requires Increasing(distributions, DistributionCreated)
    ensures var recent := GetStats(families, donations, distributions).recentDistributions;
      && (forall i, j :: 0 <= i < j < |recent| ==> recent[i].createdAt > recent[j].createdAt)
      && (forall k, i :: 0 <= k < |distributions| - |recent| && 0 <= i < |recent| ==>
            distributions[k].createdAt < recent[i].createdAt)
  {
    var recent := GetStats(families, donations, distributions).recentDistributions;
    var n := |distributions|;
    forall k, i | 0 <= k < n - |recent| && 0 <= i < |recent|
      ensures distributions[k].createdAt < recent[i].createdAt
    {
      assert recent[i] == distributions[n - 1 - i];
      assert DistributionCreated(distributions[k]) < DistributionCreated(distributions[n - 1 - i]);
    }
    forall i, j | 0 <= i < j < |recent| ensures recent[i].createdAt > recent[j].createdAt {
      assert DistributionCreated(distributions[n - 1 - j]) < DistributionCreated(distributions[n - 1 - i]);
    }
  }
}
