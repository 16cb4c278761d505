/** The tally as it runs: nested loops over bundles and votes, then one of two sorts. */
module Tallies {
  import opened Wrappers
  import opened Bundles
  import opened WinnerSet
  import opened Sorting
  import opened TallyModel

  /** Fold every current bundle's votes into rows. */
  method Accumulate(entries: seq<Current>, weigh: Weigh) returns (rows: Rows)
    ensures rows == RowsOf(entries, weigh)
  {
    rows := map[];
    for i := 0 to |entries|
      invariant rows == RowsOf(entries[..i], weigh)
    {
      assert entries[..i + 1][..i] == entries[..i];
      var e := entries[i];
      if |e.bundle.votes| == 0 { continue; }
      var w := weigh(e.bundle);
      rows := AccumulateVotes(rows, e.bundle.votes, w, e.checks);
    }
    assert entries[..|entries|] == entries;
  }

  method AccumulateVotes(before: Rows, votes: seq<Vote>, w: int, checks: Checks) returns (rows: Rows)
    ensures rows == AddVotes(before, votes, w, checks)
  {
    rows := before;
    for j := 0 to |votes|
      invariant rows == AddVotes(before, votes[..j], w, checks)
    {
      assert votes[..j + 1][..j] == votes[..j];
      var v := votes[j];
      var row := if v.publicKey in rows then rows[v.publicKey] else FRESH_ROW;
      var unresolved := row.nameResolved != Some(true);
      row := row.(weight := row.weight + w, chainVerified := row.chainVerified && checks.chainVerified);
      if v.name.Some? && unresolved {
        row := row.(name := v.name, nameResolved := Some(checks.nameResolved == Some(true)));
      }
      rows := rows[v.publicKey := row];
    }
    assert votes[..|votes|] == votes;
  }

  /** Order the listed rows; the seeds are asked for only when two weights tie. */
  method Rank(list: seq<Ranked>, seeds: Seeds) returns (ranking: seq<Ranked>, askedForSeeds: bool)
    requires DistinctSeeds(list, seeds)
    ensures ranking == Ranking(list, seeds)
    ensures Ascending(ranking, Seeded(seeds)) && SameElements(ranking, list) && |ranking| == |list|
    ensures forall i, j | 0 <= i < j < |ranking| :: ranking[i].weight >= ranking[j].weight
    ensures forall i, j | 0 <= i < j < |ranking| && ranking[i].weight == ranking[j].weight ::
              exists k: nat :: PartsBelow(seeds(ranking[i].publicKey), seeds(ranking[j].publicKey), k)
    ensures askedForSeeds <==> exists i, j :: 0 <= i < j < |list| && list[i].weight == list[j].weight
  {
    var weights := set r <- list :: r.weight;
    askedForSeeds := |weights| != |list|;
    WeightsSize(list);
    SeededOrder(seeds);
    SeedsBreakTies(list, seeds);
    SortAscending(list, Seeded(seeds));
    SortElements(list, Seeded(seeds));
    if !askedForSeeds {
      NoTieNeedsNoSeed(list, seeds);
      ranking := Sort(list, Heavier);
    } else {
      ranking := Sort(list, Seeded(seeds));
    }
    AscendingMeans(ranking, seeds);
  }
}
