/** The in-memory working set of one contest, updated in place. */
module VoteCrdts {
  import opened Wrappers
  import opened Bundles
  import opened WinnerSet
  import opened Pruning

  /** The working set as the specification's members, `provisional` being the unsettled ones. */
  ghost function View(bundles: map<Cid, Bundle>, provisional: set<Cid>): Members {
    map c | c in bundles :: Record(bundles[c], Checks(c !in provisional, None))
  }

  datatype MergeOutcome = Merged | MissingBundle(cid: Cid)

  class VoteCrdt {
    const clock: Clock
    var bundles: map<Cid, Bundle>

    constructor (clock: Clock)
      ensures this.clock == clock && bundles == map[]
    {
      this.clock := clock;
      bundles := map[];
    }

    /** The last-write-wins winner of each wallet among the eligible bundles, in any iteration order. */
    method WinnersByWallet(eligible: set<Cid>) returns (winners: map<string, Entry>)
      ensures forall w :: w in winners ==>
                winners[w].cid in bundles && winners[w].bundle == bundles[winners[w].cid]
                && WalletOf(winners[w].bundle) == w
                && forall p :: IsWinner(View(bundles, p), eligible, winners[w].cid)
      ensures forall c :: c in bundles && c in eligible ==> WalletOf(bundles[c]) in winners
      ensures forall w, c | w in winners && c in bundles && c in eligible && ToLower(bundles[c].address) == w ::
                && bundles[c].blockNumber <= winners[w].bundle.blockNumber
                && (bundles[c].blockNumber == winners[w].bundle.blockNumber ==> forall i: nat :: !PartsBelow(c, winners[w].cid, i))
    {
      winners := map[];
      var todo := bundles.Keys;
      while todo != {}
        invariant todo <= bundles.Keys
        invariant forall w :: w in winners ==>
                    winners[w].cid in bundles && winners[w].cid in eligible && winners[w].cid !in todo
                    && winners[w].bundle == bundles[winners[w].cid] && WalletOf(winners[w].bundle) == w
        invariant forall c :: c in bundles && c in eligible && c !in todo ==>
                    WalletOf(bundles[c]) in winners && !Above(Entry(c, bundles[c]), winners[WalletOf(bundles[c])])
        decreases todo
      {
        var cid :| cid in todo;
        todo := todo - {cid};
        if cid in eligible {
          var entry := Entry(cid, bundles[cid]);
          var wallet := WalletOf(entry.bundle);
          LwwIsMaximum(entry, entry);
          if wallet !in winners {
            winners := winners[wallet := entry];
          } else {
            var prev := winners[wallet];
            LwwIsMaximum(prev, entry);
            if LwwResolve(prev, entry) != prev.cid {
              BestSoFar(bundles, eligible * (bundles.Keys - todo), wallet, prev, entry);
              winners := winners[wallet := entry];
            }
          }
        }
      }
      forall w | w in winners ensures forall p :: IsWinner(View(bundles, p), eligible, winners[w].cid) {
        forall p ensures IsWinner(View(bundles, p), eligible, winners[w].cid) {
          var s := View(bundles, p);
          assert forall d :: d in s ==> At(s, d) == Entry(d, bundles[d]);
        }
      }
      forall w | w in winners
        ensures forall c | c in bundles && c in eligible && ToLower(bundles[c].address) == w ::
                  && bundles[c].blockNumber <= winners[w].bundle.blockNumber
                  && (bundles[c].blockNumber == winners[w].bundle.blockNumber ==> forall i: nat :: !PartsBelow(c, winners[w].cid, i))
      {
        WinnerIsNewest(View(bundles, {}), eligible, winners[w].cid);
      }
    }

    /** Each wallet's winner, unless it has expired. */
    method CurrentEntries(currentBucket: nat, eligible: set<Cid>) returns (current: set<Entry>)
      ensures forall e :: e in current <==>
                e.cid in bundles && e.bundle == bundles[e.cid]
                && IsWinner(View(bundles, {}), eligible, e.cid) && !clock.IsExpired(e.bundle, currentBucket)
      ensures ReadsAs(current, WinnerSet.CurrentEntries(clock, View(bundles, {}), currentBucket, eligible))
    {
      var winners := WinnersByWallet(eligible);
      current := set w | w in winners && !clock.IsExpired(winners[w].bundle, currentBucket) :: winners[w];
      var s := View(bundles, {});
      forall c | IsWinner(s, eligible, c) ensures winners[WalletOf(bundles[c])] == Entry(c, bundles[c]) {
        OneWinnerPerWallet(s, eligible, c, winners[WalletOf(bundles[c])].cid);
      }
    }

    /** Store a locally produced bundle. */
    method Add(cid: Cid, bundle: Bundle)
      modifies this
      ensures bundles == old(bundles)[cid := bundle]
    {
      bundles := bundles[cid := bundle];
    }

    /** Integrate remote bundles from the store, stopping at the first one the store does not have. */
    method Merge(cids: seq<Cid>, store: map<Cid, Bundle>) returns (outcome: MergeOutcome)
      modifies this
      ensures outcome.Merged? <==> forall i :: 0 <= i < |cids| ==> cids[i] in old(bundles) || cids[i] in store
      ensures outcome.MissingBundle? ==> outcome.cid in cids && outcome.cid !in store && outcome.cid !in bundles
      ensures forall c :: c in old(bundles) ==> c in bundles && bundles[c] == old(bundles)[c]
      ensures forall c :: c in bundles && c !in old(bundles) ==> c in cids && c in store && bundles[c] == store[c]
      ensures outcome.Merged? ==> forall i :: 0 <= i < |cids| ==> cids[i] in bundles
    {
      var i := 0;
      while i < |cids|
        invariant 0 <= i <= |cids|
        invariant forall k :: 0 <= k < i ==> cids[k] in bundles && (cids[k] in old(bundles) || cids[k] in store)
        invariant forall c :: c in old(bundles) ==> c in bundles && bundles[c] == old(bundles)[c]
        invariant forall c :: c in bundles && c !in old(bundles) ==> c in cids[..i] && c in store && bundles[c] == store[c]
      {
        var cid := cids[i];
        if cid !in bundles {
          if cid !in store {
            return MissingBundle(cid);
          }
          bundles := bundles[cid := store[cid]];
        }
        i := i + 1;
      }
      return Merged;
    }

    /** The eviction path. */
    method Remove(cid: Cid)
      modifies this
      ensures bundles == old(bundles) - {cid}
    {
      bundles := bundles - {cid};
    }

    /** Drop every superseded or expired bundle that no provisional winner shields. */
    method Prune(currentBucket: nat, provisional: set<Cid>) returns (removed: set<Cid>)
      modifies this
      ensures View(bundles, provisional) == Pruned(clock, View(old(bundles), provisional), currentBucket)
      ensures bundles == old(bundles) - removed && removed <= old(bundles).Keys
    {
      var winners := WinnersByWallet(bundles.Keys);
      removed := Sweep(currentBucket, provisional, winners);
      PrunedView(clock, old(bundles), provisional, winners, currentBucket, removed);
    }

    method Sweep(currentBucket: nat, provisional: set<Cid>, winners: map<string, Entry>) returns (removed: set<Cid>)
      modifies this
      ensures bundles == old(bundles) - removed
      ensures forall c :: c in removed <==> c in old(bundles) && Decays(clock, old(bundles), provisional, winners, currentBucket, c)
    {
      var before := bundles;
      removed := {};
      var todo := bundles.Keys;
      while todo != {}
        invariant todo <= before.Keys && bundles == before - removed
        invariant forall c :: c in removed <==> c in before && c !in todo && Decays(clock, before, provisional, winners, currentBucket, c)
        decreases todo
      {
        var cid :| cid in todo;
        todo := todo - {cid};
        if Decays(clock, before, provisional, winners, currentBucket, cid) {
          bundles := bundles - {cid};
          removed := removed + {cid};
        }
      }
    }
  }

  /** Superseded or expired, and not shielded by a provisional winner. */
  predicate Decays(clock: Clock, bundles: map<Cid, Bundle>, provisional: set<Cid>, winners: map<string, Entry>, bucket: nat, c: Cid)
    requires c in bundles
  {
    WalletOf(bundles[c]) in winners &&
    var winner := winners[WalletOf(bundles[c])];
    var isWinner, expired := winner.cid == c, clock.IsExpired(bundles[c], bucket);
    var shielded := !isWinner && !expired && winner.cid in provisional;
    (!isWinner || expired) && !shielded
  }

  /** A set of entries that lists exactly what a map holds. */
  ghost predicate ReadsAs(entries: set<Entry>, m: map<Cid, Bundle>) {
    forall e :: e in entries <==> e.cid in m && m[e.cid] == e.bundle
  }

  /** `winners` names the winner of every wallet that has a bundle. */
  ghost predicate Covers(bundles: map<Cid, Bundle>, provisional: set<Cid>, winners: map<string, Entry>) {
    forall c :: c in bundles ==>
      && WalletOf(bundles[c]) in winners
      && winners[WalletOf(bundles[c])].cid in bundles
      && WalletOf(bundles[winners[WalletOf(bundles[c])].cid]) == WalletOf(bundles[c])
      && IsWinner(View(bundles, provisional), bundles.Keys, winners[WalletOf(bundles[c])].cid)
  }

  lemma DropDecision(clock: Clock, bundles: map<Cid, Bundle>, provisional: set<Cid>, winners: map<string, Entry>,
                     bucket: nat, c: Cid)
    requires c in bundles && Covers(bundles, provisional, winners)
    ensures Dropped(clock, View(bundles, provisional), bucket, c) <==> Decays(clock, bundles, provisional, winners, bucket, c)
  {
    var s := View(bundles, provisional);
    var w := winners[WalletOf(bundles[c])].cid;
    assert s.Keys == bundles.Keys;
    forall v | IsWinner(s, s.Keys, v) && SameWallet(s[v].bundle, s[c].bundle) ensures v == w {
      OneWinnerPerWallet(s, s.Keys, v, w);
    }
    assert IsWinner(s, s.Keys, c) <==> w == c;
    assert ProvisionalWinner(s, s[c].bundle) <==> w in provisional;
  }

  lemma PrunedView(clock: Clock, bundles: map<Cid, Bundle>, provisional: set<Cid>, winners: map<string, Entry>, bucket: nat, removed: set<Cid>)
    requires Covers(bundles, provisional, winners)
    requires forall c :: c in removed <==> c in bundles && Decays(clock, bundles, provisional, winners, bucket, c)
    ensures View(bundles - removed, provisional) == Pruned(clock, View(bundles, provisional), bucket)
  {
    forall c | c in bundles ensures c in removed <==> Dropped(clock, View(bundles, provisional), bucket, c) {
      DropDecision(clock, bundles, provisional, winners, bucket, c);
    }
    KeptView(clock, bundles, provisional, bucket, removed);
  }

  lemma KeptView(clock: Clock, bundles: map<Cid, Bundle>, provisional: set<Cid>, bucket: nat, removed: set<Cid>)
    requires forall c :: c in bundles ==> (c in removed <==> Dropped(clock, View(bundles, provisional), bucket, c))
    ensures View(bundles - removed, provisional) == Pruned(clock, View(bundles, provisional), bucket)
  {
  }

  /** Replacing a beaten winner keeps every bundle seen so far beaten. */
  lemma BestSoFar(bundles: map<Cid, Bundle>, seen: set<Cid>, wallet: string, prev: Entry, entry: Entry)
    requires Above(entry, prev)
    requires forall c :: c in bundles && c in seen && WalletOf(bundles[c]) == wallet && c != entry.cid
               ==> !Above(Entry(c, bundles[c]), prev)
    ensures forall c :: c in bundles && c in seen && WalletOf(bundles[c]) == wallet && c != entry.cid
              ==> !Above(Entry(c, bundles[c]), entry)
  {
    forall c | c in bundles && c in seen && WalletOf(bundles[c]) == wallet && c != entry.cid
                && Above(Entry(c, bundles[c]), entry)
      ensures false
    {
      AboveTransitive(Entry(c, bundles[c]), entry, prev);
    }
  }
}
