/** Replicas that admitted the same bundles agree, whatever the order, the duplicates and the prunes. */
module Convergence {
  import opened Wrappers
  import opened Bundles
  import opened WinnerSet
  import opened Pruning

  function Admitted(ops: seq<Op>): set<Cid> {
    set op | op in ops && op.Admit? :: op.cid
  }

  predicate NoEvictions(ops: seq<Op>) {
    forall op :: op in ops ==> !op.Evict?
  }

  lemma {:induction false} NeverPrunedMembers(clock: Clock, ops: seq<Op>)
    requires NoEvictions(ops)
    ensures Run(clock, WithoutPrunes(ops)).members.Keys == Admitted(ops)
  {
    if ops != [] {
      var n := |ops| - 1;
      var prefix, op := ops[..n], ops[n];
      assert ops == prefix + [op];
      assert forall o :: o in ops <==> o in prefix || o == op;
      NeverPrunedMembers(clock, prefix);
      assert Admitted(ops) == Admitted(prefix) + if op.Admit? then {op.cid} else {};
      assert WithoutPrunes(ops) == WithoutPrunes(prefix) + if op.Prune? then [] else [op];
      if op.Prune? {
        assert WithoutPrunes(ops) == WithoutPrunes(prefix);
      } else {
        NeverPrunedStep(clock, WithoutPrunes(prefix), op);
      }
    }
  }

  /** The bundle a never-pruned run holds under a CID is the one some admission carried. */
  lemma NeverPrunedBundle(clock: Clock, ops: seq<Op>, c: Cid) returns (i: nat)
    requires c in Run(clock, WithoutPrunes(ops)).members
    ensures i < |ops| && ops[i].Admit? && ops[i].cid == c
    ensures ops[i].rec.bundle == Run(clock, WithoutPrunes(ops)).members[c].bundle
  {
    var kept := WithoutPrunes(ops);
    MembersWereAdmitted(clock, kept, c);
    var j :| 0 <= j < |kept| && kept[j].Admit? && kept[j].cid == c && kept[j].rec.bundle == Run(clock, kept).members[c].bundle;
    i := WithoutPrunesAdmits(ops, j);
  }

  lemma SameBundlesSameTally(clock: Clock, s: Members, t: Members, bucket: nat)
    requires s.Keys == t.Keys && forall c :: c in s ==> s[c].bundle == t[c].bundle
    ensures TallyView(clock, s, bucket) == TallyView(clock, t, bucket)
    ensures SettledIn(s) == SettledIn(t) ==> CheckpointView(clock, s, bucket) == CheckpointView(clock, t, bucket)
  {
    assert forall c :: c in s ==> At(s, c) == At(t, c);
    assert forall c :: IsWinner(s, s.Keys, c) <==> IsWinner(t, t.Keys, c);
    if SettledIn(s) == SettledIn(t) {
      assert forall c :: IsWinner(s, SettledIn(s), c) <==> IsWinner(t, SettledIn(t), c);
    }
  }

  lemma AddressedApart(mine: seq<Op>, yours: seq<Op>)
    requires ContentAddressed(mine + yours)
    ensures ContentAddressed(mine) && ContentAddressed(yours)
  {
    var all := mine + yours;
    assert forall i :: 0 <= i < |mine| ==> all[i] == mine[i];
    assert forall i :: 0 <= i < |yours| ==> all[|mine| + i] == yours[i];
  }

  lemma SameBundleUnder(clock: Clock, mine: seq<Op>, yours: seq<Op>, c: Cid)
    requires ContentAddressed(mine + yours)
    requires c in Run(clock, WithoutPrunes(mine)).members && c in Run(clock, WithoutPrunes(yours)).members
    ensures Run(clock, WithoutPrunes(mine)).members[c].bundle == Run(clock, WithoutPrunes(yours)).members[c].bundle
  {
    var all := mine + yours;
    var i := NeverPrunedBundle(clock, mine, c);
    var j := NeverPrunedBundle(clock, yours, c);
    assert all[i] == mine[i] && all[|mine| + j] == yours[j];
  }

  /** What a replica would hold if it had never pruned: all it admitted, but for what it evicted. */
  ghost function Kept(clock: Clock, ops: seq<Op>): Members {
    Run(clock, WithoutPrunes(ops)).members
  }

  /**
   Two replicas that admitted and evicted to the same bundles count the same votes at any bucket neither has
   yet pruned past, and serve the same checkpoint once they have settled the same bundles.
   */
  lemma ReplicasConverge(clock: Clock, mine: seq<Op>, yours: seq<Op>, now: nat)
    requires AllowedRun(clock, mine) && AllowedRun(clock, yours)
    requires ContentAddressed(mine + yours)
    requires Kept(clock, mine).Keys == Kept(clock, yours).Keys
    requires Run(clock, mine).bucket <= now && Run(clock, yours).bucket <= now
    ensures var m, y := Run(clock, mine).members, Run(clock, yours).members;
            TallyView(clock, m, now) == TallyView(clock, y, now)
    ensures SettledIn(Kept(clock, mine)) == SettledIn(Kept(clock, yours))
            ==> CheckpointView(clock, Run(clock, mine).members, now) == CheckpointView(clock, Run(clock, yours).members, now)
  {
    AddressedApart(mine, yours);
    var m, y := Kept(clock, mine), Kept(clock, yours);
    forall c | c in m ensures m[c].bundle == y[c].bundle {
      SameBundleUnder(clock, mine, yours, c);
    }
    PruningIsUnobservable(clock, mine, now);
    PruningIsUnobservable(clock, yours, now);
    SameBundlesSameTally(clock, m, y, now);
  }

  /** Without evictions it is enough to have admitted the same bundles, in any order, however often. */
  lemma SameAdmissionsConverge(clock: Clock, mine: seq<Op>, yours: seq<Op>, now: nat)
    requires AllowedRun(clock, mine) && AllowedRun(clock, yours)
    requires NoEvictions(mine) && NoEvictions(yours)
    requires ContentAddressed(mine + yours)
    requires Admitted(mine) == Admitted(yours)
    requires Run(clock, mine).bucket <= now && Run(clock, yours).bucket <= now
    ensures Kept(clock, mine).Keys == Kept(clock, yours).Keys == Admitted(mine)
    ensures TallyView(clock, Run(clock, mine).members, now) == TallyView(clock, Run(clock, yours).members, now)
  {
    NeverPrunedMembers(clock, mine);
    NeverPrunedMembers(clock, yours);
    ReplicasConverge(clock, mine, yours, now);
  }

  /** Admitting a bundle replaces its wallet's winner by itself or not at all, and never by a smaller one. */
  lemma AdmitNeverLowersTheWinner(s: Members, c: Cid, rec: Record, before: Cid, after: Cid)
    requires c in s ==> s[c].bundle == rec.bundle
    requires IsWinner(s, s.Keys, before) && SameWallet(s[before].bundle, rec.bundle)
    requires IsWinner(s[c := rec], s.Keys + {c}, after) && SameWallet(s[c := rec][after].bundle, rec.bundle)
    ensures after == before || (after == c && Above(Entry(c, rec.bundle), At(s, before)))
    ensures after == c <==> LwwResolve(At(s, before), Entry(c, rec.bundle)) == c
  {
    var s' := s[c := rec];
    LwwIsMaximum(At(s, before), Entry(c, rec.bundle));
    assert At(s', before) == At(s, before) && At(s', c) == Entry(c, rec.bundle);
    if after != c {
      LwwIsMaximum(At(s, before), At(s, after));
      assert At(s', after) == At(s, after);
    }
  }
}
