/**
 The bounded memory of accepted votes that drops re-sign floods, and what dropping a bundle does to
 the count.
 */
module AcceptedDedups {
  import opened Wrappers
  import opened Bundles
  import opened WinnerSet
  import Fifo

  /** One wallet's choice in one bucket. */
  datatype Choice = Choice(wallet: string, bucket: nat, votes: seq<Vote>)

  function ChoiceOf(clock: Clock, bundle: Bundle): Choice {
    Choice(WalletOf(bundle), clock.BucketForBlock(bundle.blockNumber), bundle.votes)
  }

  /** Two bundles are the same choice exactly if they are of one wallet and one bucket and cast the same votes. */
  lemma SameChoiceExactly(clock: Clock, a: Bundle, b: Bundle)
    ensures ChoiceOf(clock, a) == ChoiceOf(clock, b)
            <==> ToLower(a.address) == ToLower(b.address) && a.votes == b.votes
                 && a.blockNumber / clock.blocksPerBucket == b.blockNumber / clock.blocksPerBucket
  {
  }

  class AcceptedDedup {
    const clock: Clock
    const maxEntries: nat
    var keys: set<Choice>
    var order: seq<Choice>

    constructor (clock: Clock, maxEntries: nat)
      ensures Valid() && order == [] && this.clock == clock && this.maxEntries == maxEntries
    {
      this.clock, this.maxEntries := clock, maxEntries;
      keys, order := {}, [];
    }

    /** The set and the queue hold the same choices, each once, and no more than fit. */
    ghost predicate Valid()
      reads this
    {
      Fifo.Bounded(order, maxEntries) && (forall k :: k in keys <==> k in order)
    }

    method IsResignDuplicate(bundle: Bundle) returns (duplicate: bool)
      requires Valid()
      ensures duplicate <==> ChoiceOf(clock, bundle) in order
    {
      duplicate := ChoiceOf(clock, bundle) in keys;
    }

    method Record(bundle: Bundle)
      requires Valid()
      modifies this
      ensures Valid() && order == Fifo.Push(old(order), ChoiceOf(clock, bundle), maxEntries)
    {
      var k := ChoiceOf(clock, bundle);
      Fifo.PushElements(order, k, maxEntries);
      if k in keys { return; }
      keys := keys + {k};
      order := order + [k];
      if |order| > maxEntries {
        var evicted := order[0];
        order := order[1..];
        keys := keys - {evicted};
      }
    }
  }

  // ---- what a dropped bundle would have changed ----

  /** The votes the tally counts for the wallet of `c`'s winner at `bucket`: none once it has expired. */
  ghost predicate Counts(clock: Clock, s: Members, wallet: string, bucket: nat, votes: seq<Vote>) {
    exists w :: IsWinner(s, s.Keys, w) && WalletOf(s[w].bundle) == wallet && s[w].bundle.votes == votes
                && !clock.IsExpired(s[w].bundle, bucket)
  }

  lemma WinnersAfter(s: Members, w: Cid, c: Cid, rec: Record)
    requires IsWinner(s, s.Keys, w) && c !in s && SameWallet(s[w].bundle, rec.bundle)
    ensures var s', win := s[c := rec], if Above(Entry(c, rec.bundle), At(s, w)) then c else w;
            && IsWinner(s', s'.Keys, win)
            && (forall d :: IsWinner(s', s'.Keys, d) && WalletOf(s'[d].bundle) == WalletOf(rec.bundle) ==> d == win)
            && (forall d :: IsWinner(s, s.Keys, d) && WalletOf(s[d].bundle) == WalletOf(rec.bundle) ==> d == w)
  {
    var s', e := s[c := rec], Entry(c, rec.bundle);
    var win := if Above(e, At(s, w)) then c else w;
    LwwIsMaximum(e, At(s, w));
    LwwIsMaximum(e, e);
    forall d | d in s' && SameWallet(s'[d].bundle, s'[win].bundle) ensures !Above(At(s', d), At(s', win)) {
      if d != c && win == c && Above(At(s', d), e) {
        AboveTransitive(At(s', d), e, At(s, w));
      }
    }
    forall d | IsWinner(s', s'.Keys, d) && WalletOf(s'[d].bundle) == WalletOf(rec.bundle) ensures d == win {
      OneWinnerPerWallet(s', s'.Keys, d, win);
    }
    forall d | IsWinner(s, s.Keys, d) && WalletOf(s[d].bundle) == WalletOf(rec.bundle) ensures d == w {
      OneWinnerPerWallet(s, s.Keys, d, w);
    }
  }

  /** Other wallets do not notice. */
  lemma OtherWalletsUnmoved(clock: Clock, s: Members, c: Cid, rec: Record, wallet: string, bucket: nat, votes: seq<Vote>)
    requires c !in s && WalletOf(rec.bundle) != wallet
    ensures Counts(clock, s, wallet, bucket, votes) <==> Counts(clock, s[c := rec], wallet, bucket, votes)
  {
    var s' := s[c := rec];
    forall w | w in s && WalletOf(s[w].bundle) == wallet ensures IsWinner(s, s.Keys, w) <==> IsWinner(s', s'.Keys, w) {
      assert forall d :: d in s ==> At(s', d) == At(s, d);
    }
  }

  lemma WinnerCounts(clock: Clock, s: Members, w: Cid, bucket: nat)
    requires IsWinner(s, s.Keys, w)
    requires forall d :: IsWinner(s, s.Keys, d) && WalletOf(s[d].bundle) == WalletOf(s[w].bundle) ==> d == w
    ensures forall votes :: Counts(clock, s, WalletOf(s[w].bundle), bucket, votes)
                        <==> votes == s[w].bundle.votes && !clock.IsExpired(s[w].bundle, bucket)
  {
  }

  /**
   Dropping a bundle leaves the wallet's counted votes the same at every bucket if and only if the bundle
   would not have become the winner, or the winner already carries its choice and its bucket.
   */
  lemma DropChangesNoCountExactly(clock: Clock, s: Members, w: Cid, c: Cid, rec: Record)
    requires IsWinner(s, s.Keys, w) && c !in s && SameWallet(s[w].bundle, rec.bundle)
    ensures (forall bucket, votes :: Counts(clock, s, WalletOf(rec.bundle), bucket, votes)
                                 <==> Counts(clock, s[c := rec], WalletOf(rec.bundle), bucket, votes))
            <==> !Above(Entry(c, rec.bundle), At(s, w)) || ChoiceOf(clock, s[w].bundle) == ChoiceOf(clock, rec.bundle)
  {
    WinnersAfter(s, w, c, rec);
    var s', wallet := s[c := rec], WalletOf(rec.bundle);
    var win := if Above(Entry(c, rec.bundle), At(s, w)) then c else w;
    forall bucket ensures
      && (forall votes :: Counts(clock, s, wallet, bucket, votes) <==> votes == s[w].bundle.votes && !clock.IsExpired(s[w].bundle, bucket))
      && (forall votes :: Counts(clock, s', wallet, bucket, votes) <==> votes == s'[win].bundle.votes && !clock.IsExpired(s'[win].bundle, bucket))
    {
      WinnerCounts(clock, s, w, bucket);
      WinnerCounts(clock, s', win, bucket);
    }
    if win == c && ChoiceOf(clock, s[w].bundle) != ChoiceOf(clock, rec.bundle) {
      var older := clock.BucketForBlock(s[w].bundle.blockNumber);
      DivMonotone(s[w].bundle.blockNumber, rec.bundle.blockNumber, clock.blocksPerBucket);
      var bucket := older + clock.voteExpiryBuckets + if s[w].bundle.votes != rec.bundle.votes then 0 else 1;
      assert Counts(clock, s', wallet, bucket, rec.bundle.votes) && !Counts(clock, s, wallet, bucket, rec.bundle.votes);
    }
  }

  // ---- and after later evictions ----

  ghost predicate SameCounts(clock: Clock, s: Members, t: Members, wallet: string) {
    forall bucket, votes :: Counts(clock, s, wallet, bucket, votes) <==> Counts(clock, t, wallet, bucket, votes)
  }

  /** Bundles that may yet be evicted: none of them settled. */
  predicate Evictable(s: Members, gone: set<Cid>) {
    forall d <- gone :: d in s && !s[d].checks.Settled()
  }

  /** Whatever pending bundles are evicted later, the count is what it would be with `c` held. */
  ghost predicate NeverMissed(clock: Clock, s: Members, c: Cid, rec: Record) {
    forall gone: set<Cid> | Evictable(s, gone) :: SameCounts(clock, s - gone, s[c := rec] - gone, WalletOf(rec.bundle))
  }

  predicate Rival(s: Members, d: Cid, b: Bundle) {
    d in s && SameWallet(s[d].bundle, b)
  }

  predicate SettledAbove(s: Members, d: Cid, e: Entry) {
    Rival(s, d, e.bundle) && s[d].checks.Settled() && Above(At(s, d), e)
  }

  /** Settled below `e` with its choice, as has every bundle in between. */
  ghost predicate SettledStandIn(clock: Clock, s: Members, d: Cid, e: Entry) {
    && Rival(s, d, e.bundle) && s[d].checks.Settled() && Above(e, At(s, d)) && ChoiceOf(clock, s[d].bundle) == ChoiceOf(clock, e.bundle)
    && forall m | Rival(s, m, e.bundle) && Above(e, At(s, m)) && Above(At(s, m), At(s, d)) ::
         ChoiceOf(clock, s[m].bundle) == ChoiceOf(clock, e.bundle)
  }

  /** A settled stand-in, or a settled bundle above, keeps the count right whatever is evicted. */
  lemma StoodInFor(clock: Clock, s: Members, c: Cid, rec: Record, d: Cid, gone: set<Cid>)
    requires c !in s && Evictable(s, gone)
    requires SettledAbove(s, d, Entry(c, rec.bundle)) || SettledStandIn(clock, s, d, Entry(c, rec.bundle))
    ensures SameCounts(clock, s - gone, s[c := rec] - gone, WalletOf(rec.bundle))
  {
    var u, e := s - gone, Entry(c, rec.bundle);
    var w := WinnerOf(u, u.Keys, d);
    assert At(u, w) == At(s, w) && At(u, d) == At(s, d) && s[c := rec] - gone == u[c := rec];
    if SettledAbove(s, d, e) && Above(e, At(u, w)) {
      AboveTransitive(At(u, d), e, At(u, w));
      LwwIsMaximum(At(u, w), At(u, d));
    }
    DropChangesNoCountExactly(clock, u, w, c, rec);
  }

  /** Once what is pending above a bundle of another choice has gone, the dropped bundle is missed. */
  lemma MissedAbove(clock: Clock, s: Members, c: Cid, rec: Record, x: Cid)
    requires c !in s && Rival(s, x, rec.bundle) && Above(Entry(c, rec.bundle), At(s, x))
    requires forall d :: !SettledAbove(s, d, At(s, x))
    requires ChoiceOf(clock, s[x].bundle) != ChoiceOf(clock, rec.bundle)
    ensures !NeverMissed(clock, s, c, rec)
  {
    var gone := set d | d in s && Rival(s, d, s[x].bundle) && Above(At(s, d), At(s, x));
    var u := s - gone;
    forall d <- gone ensures !s[d].checks.Settled() {
      assert !SettledAbove(s, d, At(s, x));
    }
    LwwIsMaximum(At(s, x), At(s, x));
    assert forall d <- u :: At(u, d) == At(s, d);
    assert IsWinner(u, u.Keys, x) && s[c := rec] - gone == u[c := rec];
    DropChangesNoCountExactly(clock, u, x, c, rec);
    assert Evictable(s, gone) && !SameCounts(clock, s - gone, s[c := rec] - gone, WalletOf(rec.bundle));
  }

  /** With nothing settled in its wallet, the dropped bundle is missed once all the others have gone. */
  lemma MissedAlone(clock: Clock, s: Members, c: Cid, rec: Record)
    requires c !in s && forall d :: Rival(s, d, rec.bundle) ==> !s[d].checks.Settled()
    ensures !NeverMissed(clock, s, c, rec)
  {
    var gone := set d | d in s && Rival(s, d, rec.bundle);
    var u, wallet, bucket := s - gone, WalletOf(rec.bundle), clock.BucketForBlock(rec.bundle.blockNumber);
    var u' := s[c := rec] - gone;
    LwwIsMaximum(At(u', c), At(u', c));
    assert IsWinner(u', u'.Keys, c);
    assert Counts(clock, u', wallet, bucket, rec.bundle.votes) && !Counts(clock, u, wallet, bucket, rec.bundle.votes);
    assert Evictable(s, gone) && !SameCounts(clock, s - gone, s[c := rec] - gone, wallet);
  }

  /**
   A dropped bundle is never missed, whatever pending bundles are evicted later, if and only if a settled
   bundle beats it, or a settled one below it carries its choice and bucket with all those in between.
   */
  lemma NeverMissedExactly(clock: Clock, s: Members, c: Cid, rec: Record)
    requires c !in s
    ensures NeverMissed(clock, s, c, rec)
            <==> exists d :: SettledAbove(s, d, Entry(c, rec.bundle)) || SettledStandIn(clock, s, d, Entry(c, rec.bundle))
  {
    var e := Entry(c, rec.bundle);
    if d :| SettledAbove(s, d, e) || SettledStandIn(clock, s, d, e) {
      forall gone: set<Cid> | Evictable(s, gone) ensures SameCounts(clock, s - gone, s[c := rec] - gone, WalletOf(rec.bundle)) {
        StoodInFor(clock, s, c, rec, d, gone);
      }
    } else if d :| Rival(s, d, rec.bundle) && s[d].checks.Settled() {
      var best := WinnerOf(s, SettledIn(s), d);
      LwwIsMaximum(e, At(s, best));
      assert Above(e, At(s, best)) by { assert !SettledAbove(s, best, e); }
      assert !SettledStandIn(clock, s, best, e);
      NotStoodInFor(clock, s, c, rec, best);
    } else {
      MissedAlone(clock, s, c, rec);
    }
  }

  lemma NotStoodInFor(clock: Clock, s: Members, c: Cid, rec: Record, best: Cid)
    requires c !in s && IsWinner(s, SettledIn(s), best) && Rival(s, best, rec.bundle) && Above(Entry(c, rec.bundle), At(s, best))
    requires !SettledStandIn(clock, s, best, Entry(c, rec.bundle))
    ensures !NeverMissed(clock, s, c, rec)
  {
    var e := Entry(c, rec.bundle);
    var x := best;
    if m :| Rival(s, m, rec.bundle) && Above(e, At(s, m)) && Above(At(s, m), At(s, best))
            && ChoiceOf(clock, s[m].bundle) != ChoiceOf(clock, rec.bundle) {
      x := m;
    }
    forall d | d in SettledIn(s) && Rival(s, d, rec.bundle) ensures !Above(At(s, d), At(s, x)) {
      if x != best && Above(At(s, d), At(s, x)) {
        AboveTransitive(At(s, d), At(s, x), At(s, best));
      }
    }
    MissedAbove(clock, s, c, rec, x);
  }

  /**
   The set remembers choices, not winners. After the choices A, B in one bucket it still holds A, so a
   re-sign of A is dropped, although it would have replaced B in the count.
   */
  lemma ChoiceComesBackTooLate(clock: Clock, a: Bundle, b: Bundle, again: Bundle, ca: Cid, cb: Cid, c: Cid, maxEntries: nat)
    requires WalletOf(a) == WalletOf(b) == WalletOf(again)
    requires ChoiceOf(clock, a) == ChoiceOf(clock, again) && a.votes != b.votes
    requires clock.BucketForBlock(b.blockNumber) == clock.BucketForBlock(a.blockNumber)
    requires a.blockNumber < b.blockNumber < again.blockNumber && maxEntries >= 2
    requires ca != cb && c != ca && c != cb
    ensures var order := Fifo.Push(Fifo.Push([], ChoiceOf(clock, a), maxEntries), ChoiceOf(clock, b), maxEntries);
            ChoiceOf(clock, again) in order
    ensures var settled := Checks(true, None);
            var s := map[ca := Record(a, settled), cb := Record(b, settled)];
            && IsWinner(s, s.Keys, cb)
            && !(forall bucket, votes :: Counts(clock, s, WalletOf(again), bucket, votes)
                   <==> Counts(clock, s[c := Record(again, settled)], WalletOf(again), bucket, votes))
  {
    var settled := Checks(true, None);
    var s := map[ca := Record(a, settled), cb := Record(b, settled)];
    LwwIsMaximum(At(s, cb), At(s, cb));
    assert IsWinner(s, s.Keys, cb);
    DropChangesNoCountExactly(clock, s, cb, c, Record(again, settled));
  }
}
