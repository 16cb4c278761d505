/** The per-contest tally: rows accumulated bundle by bundle, then ranked; and why neither depends on order. */
module TallyModel {
  import opened Wrappers
  import opened Bundles
  import opened WinnerSet
  import opened Sorting
  import opened Sequences

  /** One current bundle with the state of its deferred checks. */
  datatype Current = Current(cid: Cid, bundle: Bundle, checks: Checks)

  /** A community's row. The name shown is whichever came last; `nameResolved` is absent without one. */
  datatype Row = Row(weight: int, chainVerified: bool, name: Option<string>, nameResolved: Option<bool>)

  type Rows = map<string, Row>

  type Weigh = Bundle -> int

  // ---- accumulating the rows ----

  const FRESH_ROW := Row(0, true, None, None)

  function RowOf(rows: Rows, pk: string): Row {
    if pk in rows then rows[pk] else FRESH_ROW
  }

  function AddVote(rows: Rows, v: Vote, w: int, checks: Checks): Rows {
    var row := RowOf(rows, v.publicKey);
    var counted := row.(weight := row.weight + w, chainVerified := row.chainVerified && checks.chainVerified);
    rows[v.publicKey :=
      if v.name.Some? && row.nameResolved != Some(true)
      then counted.(name := v.name, nameResolved := Some(checks.nameResolved == Some(true)))
      else counted]
  }

  function AddVotes(rows: Rows, votes: seq<Vote>, w: int, checks: Checks): Rows {
    if votes == [] then rows
    else AddVote(AddVotes(rows, votes[..|votes| - 1], w, checks), votes[|votes| - 1], w, checks)
  }

  /** A bundle without votes is a withdrawal: it adds nothing. */
  function RowsOf(entries: seq<Current>, weigh: Weigh): Rows {
    if entries == [] then map[]
    else
      var e := entries[|entries| - 1];
      AddVotes(RowsOf(entries[..|entries| - 1], weigh), e.bundle.votes, weigh(e.bundle), e.checks)
  }

  // ---- what a row holds, without any order ----

  function VotesFor(votes: seq<Vote>, pk: string): nat {
    if votes == [] then 0
    else VotesFor(votes[..|votes| - 1], pk) + if votes[|votes| - 1].publicKey == pk then 1 else 0
  }

  /** The bundle's weight, once for each of its votes for `pk`. */
  function Contribution(pk: string, weigh: Weigh): Current -> int {
    (e: Current) => weigh(e.bundle) * VotesFor(e.bundle.votes, pk)
  }

  function Sum<T>(s: seq<T>, f: T -> int): int {
    if s == [] then 0 else Sum(s[..|s| - 1], f) + f(s[|s| - 1])
  }

  predicate Votes(votes: seq<Vote>, pk: string) {
    exists v <- votes :: v.publicKey == pk
  }

  predicate Names(votes: seq<Vote>, pk: string) {
    exists v <- votes :: v.publicKey == pk && v.name.Some?
  }

  predicate Backs(e: Current, pk: string) {
    Votes(e.bundle.votes, pk)
  }

  /** `e` carries a name for `pk`. */
  predicate NamesIt(e: Current, pk: string) {
    Names(e.bundle.votes, pk)
  }

  /** What the votes of one bundle do to one row. */
  predicate Adds(before: Row, after: Row, votes: seq<Vote>, pk: string, w: int, checks: Checks) {
    && after.weight == before.weight + w * VotesFor(votes, pk)
    && after.chainVerified == (before.chainVerified && (Votes(votes, pk) ==> checks.chainVerified))
    && after.nameResolved == (if Names(votes, pk)
                              then Some(before.nameResolved == Some(true) || checks.nameResolved == Some(true))
                              else before.nameResolved)
  }

  /** One vote more, on the row that the votes before it left. */
  lemma VoteAdds(rows: Rows, start: Row, votes: seq<Vote>, v: Vote, w: int, checks: Checks, pk: string)
    requires Adds(start, RowOf(rows, pk), votes, pk, w, checks)
    ensures Adds(start, RowOf(AddVote(rows, v, w, checks), pk), votes + [v], pk, w, checks)
    ensures pk in AddVote(rows, v, w, checks) <==> pk in rows || v.publicKey == pk
    ensures Votes(votes + [v], pk) <==> Votes(votes, pk) || v.publicKey == pk
  {
    assert (votes + [v])[..|votes|] == votes;
    assert forall u :: u in votes + [v] <==> u in votes || u == v;
    OneMoreTimes(w, VotesFor(votes, pk));
  }

  lemma {:induction false} VotesAdd(rows: Rows, votes: seq<Vote>, w: int, checks: Checks, pk: string)
    ensures var after := AddVotes(rows, votes, w, checks);
            && (pk in after <==> pk in rows || Votes(votes, pk))
            && Adds(RowOf(rows, pk), RowOf(after, pk), votes, pk, w, checks)
  {
    if votes != [] {
      var n := |votes| - 1;
      VotesAdd(rows, votes[..n], w, checks, pk);
      assert votes == votes[..n] + [votes[n]];
      VoteAdds(AddVotes(rows, votes[..n], w, checks), RowOf(rows, pk), votes[..n], votes[n], w, checks, pk);
    }
  }

  ghost predicate AllVerified(entries: seq<Current>, pk: string) {
    forall e <- entries :: Backs(e, pk) ==> e.checks.chainVerified
  }

  predicate AnyNames(entries: seq<Current>, pk: string) {
    exists e <- entries :: NamesIt(e, pk)
  }

  predicate ResolvesIt(e: Current, pk: string) {
    NamesIt(e, pk) && e.checks.nameResolved == Some(true)
  }

  predicate AnyResolves(entries: seq<Current>, pk: string) {
    exists e <- entries :: ResolvesIt(e, pk)
  }

  /** A row, from the set of bundles alone. */
  ghost predicate RowIs(row: Row, entries: seq<Current>, pk: string, weigh: Weigh) {
    && row.weight == Sum(entries, Contribution(pk, weigh))
    && (row.chainVerified <==> AllVerified(entries, pk))
    && (row.nameResolved.Some? <==> AnyNames(entries, pk))
    && (row.nameResolved == Some(true) <==> AnyResolves(entries, pk))
  }

  lemma OneMoreEntry(entries: seq<Current>, e: Current, pk: string)
    ensures AllVerified(entries + [e], pk) <==> AllVerified(entries, pk) && (Backs(e, pk) ==> e.checks.chainVerified)
    ensures AnyNames(entries + [e], pk) <==> AnyNames(entries, pk) || NamesIt(e, pk)
    ensures AnyResolves(entries + [e], pk) <==> AnyResolves(entries, pk) || ResolvesIt(e, pk)
    ensures (exists x <- entries + [e] :: Backs(x, pk)) <==> (exists x <- entries :: Backs(x, pk)) || Backs(e, pk)
  {
    assert forall x :: x in entries + [e] <==> x in entries || x == e;
  }

  lemma OneMoreRow(before: Row, after: Row, entries: seq<Current>, e: Current, pk: string, weigh: Weigh)
    requires RowIs(before, entries, pk, weigh)
    requires Adds(before, after, e.bundle.votes, pk, weigh(e.bundle), e.checks)
    ensures RowIs(after, entries + [e], pk, weigh)
  {
    OneMoreEntry(entries, e, pk);
    assert (entries + [e])[..|entries|] == entries;
  }

  lemma {:induction false} RowsHold(entries: seq<Current>, weigh: Weigh, pk: string)
    ensures pk in RowsOf(entries, weigh) <==> exists e <- entries :: Backs(e, pk)
    ensures RowIs(RowOf(RowsOf(entries, weigh), pk), entries, pk, weigh)
  {
    if entries != [] {
      var n := |entries| - 1;
      var e, before := entries[n], RowsOf(entries[..n], weigh);
      RowsHold(entries[..n], weigh, pk);
      VotesAdd(before, e.bundle.votes, weigh(e.bundle), e.checks, pk);
      assert entries == entries[..n] + [e];
      OneMoreEntry(entries[..n], e, pk);
      OneMoreRow(RowOf(before, pk), RowOf(RowsOf(entries, weigh), pk), entries[..n], e, pk, weigh);
    }
  }

  // ---- the order of presentation ----

  lemma WithoutLast<T>(s: seq<T>, k: nat)
    requires k < |s| - 1
    ensures |Without(s, k)| == |s| - 1
    ensures Without(s, k)[..|s| - 2] == Without(s[..|s| - 1], k) && Without(s, k)[|s| - 2] == s[|s| - 1]
  {
  }

  lemma {:induction false} SumWithout<T>(s: seq<T>, k: nat, f: T -> int)
    requires k < |s|
    ensures Sum(s, f) == Sum(Without(s, k), f) + f(s[k])
    decreases |s|
  {
    var n, rest := |s| - 1, Without(s, k);
    if k < n {
      SumWithout(s[..n], k, f);
      WithoutLast(s, k);
    } else {
      assert rest == s[..n];
    }
  }

  lemma {:induction false} SumIgnoresOrder<T(!new)>(s: seq<T>, t: seq<T>, f: T -> int)
    requires Distinct(s) && Distinct(t) && SameElements(s, t)
    ensures Sum(s, f) == Sum(t, f)
    decreases |s|
  {
    if s == [] {
      HasElement(t);
    } else {
      var n := |s| - 1;
      assert s[n] in s;
      var k :| 0 <= k < |t| && t[k] == s[n];
      var rest := Without(t, k);
      forall x ensures x in s[..n] <==> x in rest {
        InWithout(s, n, x);
        InWithout(t, k, x);
        assert Without(s, n) == s[..n];
      }
      InWithout(t, k, s[n]);
      SumWithout(t, k, f);
      SumIgnoresOrder(s[..n], rest, f);
    }
  }

  /** Rows agree but for the name shown. */
  predicate SameButName(a: Row, b: Row) {
    a.weight == b.weight && a.chainVerified == b.chainVerified && a.nameResolved == b.nameResolved
  }

  lemma SetFacts(s: seq<Current>, t: seq<Current>, pk: string)
    requires SameElements(s, t)
    ensures AllVerified(s, pk) <==> AllVerified(t, pk)
    ensures AnyNames(s, pk) <==> AnyNames(t, pk)
    ensures AnyResolves(s, pk) <==> AnyResolves(t, pk)
    ensures (exists e <- s :: Backs(e, pk)) <==> (exists e <- t :: Backs(e, pk))
  {
  }

  lemma SameSetSameRow(a: Row, b: Row, s: seq<Current>, t: seq<Current>, pk: string, weigh: Weigh)
    requires RowIs(a, s, pk, weigh) && RowIs(b, t, pk, weigh)
    requires AllVerified(s, pk) <==> AllVerified(t, pk)
    requires AnyNames(s, pk) <==> AnyNames(t, pk)
    requires AnyResolves(s, pk) <==> AnyResolves(t, pk)
    requires Sum(s, Contribution(pk, weigh)) == Sum(t, Contribution(pk, weigh))
    ensures SameButName(a, b)
  {
    if a.nameResolved.Some? && b.nameResolved.Some? {
      assert a.nameResolved.value <==> AnyResolves(s, pk);
      assert b.nameResolved.value <==> AnyResolves(t, pk);
    }
  }

  /** The rows depend only on the set of current bundles. */
  lemma RowsIgnoreOrder(s: seq<Current>, t: seq<Current>, weigh: Weigh, pk: string)
    requires Distinct(s) && Distinct(t) && SameElements(s, t)
    ensures pk in RowsOf(s, weigh) <==> pk in RowsOf(t, weigh)
    ensures SameButName(RowOf(RowsOf(s, weigh), pk), RowOf(RowsOf(t, weigh), pk))
  {
    SetFacts(s, t, pk);
    SumIgnoresOrder(s, t, Contribution(pk, weigh));
    var mine, yours := RowsOf(s, weigh), RowsOf(t, weigh);
    RowsHold(s, weigh, pk);
    RowsHold(t, weigh, pk);
    SameSetSameRow(RowOf(mine, pk), RowOf(yours, pk), s, t, pk, weigh);
  }

  // ---- conservation ----

  /** All rows together. */
  ghost function Total(rows: Rows): int
    decreases |rows|
  {
    if rows == map[] then 0
    else
      var pk :| pk in rows;
      rows[pk].weight + Total(rows - {pk})
  }

  lemma {:induction false} TotalWithout(rows: Rows, pk: string)
    requires pk in rows
    ensures Total(rows) == rows[pk].weight + Total(rows - {pk})
    decreases |rows|
  {
    var first :| first in rows && Total(rows) == rows[first].weight + Total(rows - {first});
    if first != pk {
      TotalWithout(rows - {first}, pk);
      TotalWithout(rows - {pk}, first);
      assert rows - {first} - {pk} == rows - {pk} - {first};
    }
  }

  lemma VoteAddsItsWeight(rows: Rows, v: Vote, w: int, checks: Checks)
    ensures Total(AddVote(rows, v, w, checks)) == Total(rows) + w
  {
    var after, pk := AddVote(rows, v, w, checks), v.publicKey;
    TotalWithout(after, pk);
    if pk in rows {
      TotalWithout(rows, pk);
      assert after - {pk} == rows - {pk};
    } else {
      assert after - {pk} == rows;
    }
  }

  lemma OneMoreTimes(w: int, n: nat)
    ensures w * (n + 1) == w * n + w
  {
  }

  lemma {:induction false} VotesAddTheirWeight(rows: Rows, votes: seq<Vote>, w: int, checks: Checks)
    ensures Total(AddVotes(rows, votes, w, checks)) == Total(rows) + w * |votes|
  {
    if votes != [] {
      var n := |votes| - 1;
      VotesAddTheirWeight(rows, votes[..n], w, checks);
      VoteAddsItsWeight(AddVotes(rows, votes[..n], w, checks), votes[n], w, checks);
      OneMoreTimes(w, n);
    }
  }

  function Weighed(weigh: Weigh): Current -> int {
    (e: Current) => weigh(e.bundle) * |e.bundle.votes|
  }

  /** The rows' weights add up to each bundle's weight times its number of votes; withdrawals add nothing. */
  lemma {:induction false} WeightIsConserved(entries: seq<Current>, weigh: Weigh)
    ensures Total(RowsOf(entries, weigh)) == Sum(entries, Weighed(weigh))
  {
    if entries != [] {
      var n := |entries| - 1;
      WeightIsConserved(entries[..n], weigh);
      VotesAddTheirWeight(RowsOf(entries[..n], weigh), entries[n].bundle.votes, weigh(entries[n].bundle), entries[n].checks);
    }
  }

  // ---- ranking ----

  /** One line of the ranking, without the name shown. */
  datatype Ranked = Ranked(publicKey: string, weight: int, chainVerified: bool, nameResolved: Option<bool>)

  type Seeds = string -> seq<Byte>

  predicate Heavier(a: Ranked, b: Ranked) {
    a.weight > b.weight
  }

  /** By weight, and between equal weights by the bucket's seed bytes. */
  function Seeded(seeds: Seeds): (Ranked, Ranked) -> bool {
    (a: Ranked, b: Ranked) => a.weight > b.weight || (a.weight == b.weight && CidLess(seeds(a.publicKey), seeds(b.publicKey)))
  }

  function Weights(list: seq<Ranked>): set<int> {
    set r <- list :: r.weight
  }

  predicate HasTie(list: seq<Ranked>) {
    |Weights(list)| != |list|
  }

  function Ranking(list: seq<Ranked>, seeds: Seeds): seq<Ranked> {
    if HasTie(list) then Sort(list, Seeded(seeds)) else Sort(list, Heavier)
  }

  predicate DistinctSeeds(list: seq<Ranked>, seeds: Seeds) {
    forall i, j :: 0 <= i < j < |list| ==> seeds(list[i].publicKey) != seeds(list[j].publicKey)
  }

  /** The rows, listed in whatever order the map yields them. */
  ghost predicate Lists(list: seq<Ranked>, rows: Rows) {
    && (forall i, j :: 0 <= i < j < |list| ==> list[i].publicKey != list[j].publicKey)
    && (forall r :: r in list <==>
          r.publicKey in rows
          && r == Ranked(r.publicKey, rows[r.publicKey].weight, rows[r.publicKey].chainVerified, rows[r.publicKey].nameResolved))
  }

  predicate DistinctWeights(list: seq<Ranked>) {
    forall i, j :: 0 <= i < j < |list| ==> list[i].weight != list[j].weight
  }

  lemma LastWeight(list: seq<Ranked>)
    requires list != []
    ensures var n := |list| - 1;
            && Weights(list) == Weights(list[..n]) + {list[n].weight}
            && (DistinctWeights(list) <==> DistinctWeights(list[..n]) && list[n].weight !in Weights(list[..n]))
  {
    var n := |list| - 1;
    assert list == list[..n] + [list[n]];
    forall i | 0 <= i < n ensures list[i].weight in Weights(list[..n]) {
      assert list[..n][i] in list[..n];
    }
    if list[n].weight in Weights(list[..n]) {
      var r :| r in list[..n] && r.weight == list[n].weight;
      var i :| 0 <= i < n && list[..n][i] == r;
      assert list[i].weight == list[n].weight;
    }
  }

  lemma {:induction false} WeightsSize(list: seq<Ranked>)
    ensures |Weights(list)| <= |list|
    ensures |Weights(list)| == |list| <==> DistinctWeights(list)
  {
    if list != [] {
      WeightsSize(list[..|list| - 1]);
      LastWeight(list);
    }
  }

  lemma SeededOrder(seeds: Seeds)
    ensures Transitive(Seeded(seeds))
  {
    var less := Seeded(seeds);
    forall a ensures !less(a, a) {
      CidLessTotal(seeds(a.publicKey), seeds(a.publicKey));
    }
    forall a, b, c | less(a, b) && less(b, c) ensures less(a, c) {
      if a.weight == c.weight {
        CidLessTransitive(seeds(a.publicKey), seeds(b.publicKey), seeds(c.publicKey));
      }
    }
  }

  lemma SeedsBreakTies(list: seq<Ranked>, seeds: Seeds)
    requires DistinctSeeds(list, seeds)
    ensures NoTies(list, Seeded(seeds))
  {
    forall i, j | 0 <= i < j < |list| ensures Seeded(seeds)(list[i], list[j]) || Seeded(seeds)(list[j], list[i]) {
      CidLessTotal(seeds(list[i].publicKey), seeds(list[j].publicKey));
    }
  }

  /** Without a tie the block hash need not be read: sorting by weight gives what the seeded sort would. */
  lemma NoTieNeedsNoSeed(list: seq<Ranked>, seeds: Seeds)
    requires DistinctSeeds(list, seeds) && !HasTie(list)
    ensures Sort(list, Heavier) == Sort(list, Seeded(seeds))
  {
    WeightsSize(list);
    SeededOrder(seeds);
    SeedsBreakTies(list, seeds);
    SortAscending(list, Heavier);
    SortAscending(list, Seeded(seeds));
    SortElements(list, Heavier);
    SortElements(list, Seeded(seeds));
    OneArrangement(Sort(list, Heavier), Sort(list, Seeded(seeds)), Seeded(seeds));
  }

  /** Heaviest first; between equal weights, first whose seed bytes end, or are lower, where the two part. */
  ghost predicate ByWeightThenSeed(ranking: seq<Ranked>, seeds: Seeds) {
    forall i, j | 0 <= i < j < |ranking| ::
      && ranking[i].weight >= ranking[j].weight
      && (ranking[i].weight == ranking[j].weight ==>
            exists k: nat :: PartsBelow(seeds(ranking[i].publicKey), seeds(ranking[j].publicKey), k))
  }

  lemma AscendingMeans(ranking: seq<Ranked>, seeds: Seeds)
    requires Ascending(ranking, Seeded(seeds))
    ensures ByWeightThenSeed(ranking, seeds)
  {
    forall i, j | 0 <= i < j < |ranking|
      ensures ranking[i].weight >= ranking[j].weight
      ensures ranking[i].weight == ranking[j].weight ==>
                exists k: nat :: PartsBelow(seeds(ranking[i].publicKey), seeds(ranking[j].publicKey), k)
    {
      assert Seeded(seeds)(ranking[i], ranking[j]);
      CidLessByIndex(seeds(ranking[i].publicKey), seeds(ranking[j].publicKey));
    }
  }

  lemma SameSeeds(s: seq<Ranked>, t: seq<Ranked>, seeds: Seeds)
    requires SameElements(s, t) && DistinctSeeds(s, seeds)
    requires forall i, j :: 0 <= i < j < |t| ==> t[i].publicKey != t[j].publicKey
    ensures DistinctSeeds(t, seeds)
  {
    forall i, j | 0 <= i < j < |t| ensures seeds(t[i].publicKey) != seeds(t[j].publicKey) {
      assert t[i] in s && t[j] in s;
      var a :| 0 <= a < |s| && s[a] == t[i];
      var b :| 0 <= b < |s| && s[b] == t[j];
      assert a != b;
    }
  }

  /**
   Main result. The ranking depends only on the set of current bundles: whatever order they are presented
   in and whatever order the rows are listed in, every row has the same place, weight and flags; the heaviest
   come first, and equal weights in the order of their seeds.
   */
  lemma RankingIgnoresOrder(s: seq<Current>, t: seq<Current>, weigh: Weigh, seeds: Seeds, listed: seq<Ranked>, other: seq<Ranked>)
    requires Distinct(s) && Distinct(t) && SameElements(s, t)
    requires Lists(listed, RowsOf(s, weigh)) && Lists(other, RowsOf(t, weigh)) && DistinctSeeds(listed, seeds)
    ensures Ranking(listed, seeds) == Ranking(other, seeds)
    ensures Ascending(Ranking(listed, seeds), Seeded(seeds)) && SameElements(Ranking(listed, seeds), listed)
    ensures ByWeightThenSeed(Ranking(listed, seeds), seeds)
  {
    forall r ensures r in listed <==> r in other {
      RowsIgnoreOrder(s, t, weigh, r.publicKey);
    }
    SeededOrder(seeds);
    SameSeeds(listed, other, seeds);
    SeedsBreakTies(listed, seeds);
    SeedsBreakTies(other, seeds);
    if !HasTie(listed) { NoTieNeedsNoSeed(listed, seeds); }
    if !HasTie(other) { NoTieNeedsNoSeed(other, seeds); }
    SortIgnoresOrder(listed, other, Seeded(seeds));
    SortAscending(listed, Seeded(seeds));
    SortElements(listed, Seeded(seeds));
    AscendingMeans(Ranking(listed, seeds), seeds);
  }
}
