/**
 Where pruning shows. The two rules of an allowed run are needed, and each violation is visible
 under exactly the condition stated here. The engine does not enforce either rule: a root record
 may be cut at an older head sample, and re-signing identical bytes (or a chase that raced the
 forward gate) sets a settled bundle back to pending.
 */
module PruningLimits {
  import opened Wrappers
  import opened Bundles
  import opened WinnerSet
  import opened Pruning

  // ---- what a prune leaves ----

  lemma WinnersAfterPrune(clock: Clock, s: Members, bucket: nat, c: Cid)
    requires c in s
    ensures var p := Pruned(clock, s, bucket);
            IsWinner(p, p.Keys, c) <==> IsWinner(s, s.Keys, c) && !clock.IsExpired(s[c].bundle, bucket)
  {
    var p := Pruned(clock, s, bucket);
    if c in p {
      var w := WinnerOf(s, s.Keys, c);
      if w != c {
        FreshMonotone(clock, At(s, w), At(s, c), bucket, bucket);
        assert w in p;
      }
    }
  }

  lemma SettledWinnersAfterPrune(clock: Clock, s: Members, bucket: nat, c: Cid)
    requires c in s
    ensures var p := Pruned(clock, s, bucket);
            IsWinner(p, SettledIn(p), c) <==> IsWinner(s, SettledIn(s), c) && !clock.IsExpired(s[c].bundle, bucket)
  {
    var p := Pruned(clock, s, bucket);
    if c in p && c in SettledIn(s) {
      var w := WinnerOf(s, SettledIn(s), c);
      if w != c {
        WinnersAfterPrune(clock, s, bucket, c);
        FreshWhenKept(clock, s, bucket, c);
        SettledWinnerInCore(clock, s, bucket, w, At(s, c));
        CoreIsKept(clock, s, bucket, w);
      }
    }
    if IsWinner(s, SettledIn(s), c) && !clock.IsExpired(s[c].bundle, bucket) {
      SettledWinnerInCore(clock, s, bucket, c, At(s, c));
      CoreIsKept(clock, s, bucket, c);
    }
  }

  lemma FreshWhenKept(clock: Clock, s: Members, bucket: nat, c: Cid)
    requires c in Pruned(clock, s, bucket)
    ensures !clock.IsExpired(s[c].bundle, bucket)
  {
  }

  // ---- buckets going backwards ----

  /** Some winner has expired at the pruned bucket but not at the older one now read. */
  ghost predicate ResurrectedBy(clock: Clock, s: Members, eligible: set<Cid>, bucket: nat, older: nat) {
    exists c :: IsWinner(s, eligible, c)
                && clock.IsExpired(s[c].bundle, bucket) && !clock.IsExpired(s[c].bundle, older)
  }

  /** Reading at any bucket after a prune: right for the tally exactly when no winner expired in between. */
  lemma TallyAfterPruneExactly(clock: Clock, s: Members, bucket: nat, older: nat)
    ensures TallyView(clock, Pruned(clock, s, bucket), older) == TallyView(clock, s, older)
            <==> !ResurrectedBy(clock, s, s.Keys, bucket, older)
  {
    var p := Pruned(clock, s, bucket);
    var pruned, full := TallyView(clock, p, older), TallyView(clock, s, older);
    forall c | c in s { WinnersAfterPrune(clock, s, bucket, c); }
    if c :| IsWinner(s, s.Keys, c) && clock.IsExpired(s[c].bundle, bucket) && !clock.IsExpired(s[c].bundle, older) {
      assert c in full && c !in pruned;
    } else {
      assert forall c :: c in full <==> c in pruned;
    }
  }

  /** The same for the checkpoint. */
  lemma CheckpointAfterPruneExactly(clock: Clock, s: Members, bucket: nat, older: nat)
    ensures CheckpointView(clock, Pruned(clock, s, bucket), older) == CheckpointView(clock, s, older)
            <==> !ResurrectedBy(clock, s, SettledIn(s), bucket, older)
  {
    var p := Pruned(clock, s, bucket);
    var pruned, full := CheckpointView(clock, p, older), CheckpointView(clock, s, older);
    forall c | c in s { SettledWinnersAfterPrune(clock, s, bucket, c); }
    if c :| IsWinner(s, SettledIn(s), c) && clock.IsExpired(s[c].bundle, bucket) && !clock.IsExpired(s[c].bundle, older) {
      assert c in full && c !in pruned;
    } else {
      assert forall c :: c in full <==> c in pruned;
    }
  }

  // ---- evicting a settled bundle ----

  /** A settled winner that stands on a bundle which would otherwise still be current. */
  ghost predicate HidesPredecessor(clock: Clock, s: Members, bucket: nat, eligible: set<Cid>, c: Cid) {
    && IsWinner(s, s.Keys, c) && s[c].checks.Settled()
    && exists d :: d in s && d in eligible && d != c && SameWallet(s[d].bundle, s[c].bundle)
                   && !clock.IsExpired(s[d].bundle, bucket)
  }

  /** Evicting after a prune loses a vote exactly when the bundle is a settled winner with a live predecessor. */
  lemma EvictShowsInTallyExactly(clock: Clock, s: Members, bucket: nat, c: Cid)
    requires c in s
    ensures TallyView(clock, Pruned(clock, s, bucket) - {c}, bucket) == TallyView(clock, s - {c}, bucket)
            <==> !HidesPredecessor(clock, s, bucket, s.Keys, c)
  {
    var p := Pruned(clock, s, bucket);
    var p', s' := p - {c}, s - {c};
    if HidesPredecessor(clock, s, bucket, s.Keys, c) {
      var d :| d in s && d != c && SameWallet(s[d].bundle, s[c].bundle) && !clock.IsExpired(s[d].bundle, bucket);
      var w := WinnerOf(s', s'.Keys, d);
      FreshMonotone(clock, At(s', w), At(s', d), bucket, bucket);
      OneWinnerOnly(s, c, w);
      assert w in TallyView(clock, s', bucket) && w !in p';
    } else {
      forall g | g in s' && !clock.IsExpired(s[g].bundle, bucket)
        ensures IsWinner(s', s'.Keys, g) <==> IsWinner(p', p'.Keys, g)
      {
        EvictKeepsWinner(clock, s, bucket, c, g);
      }
      assert forall g :: g in TallyView(clock, p', bucket) <==> g in TallyView(clock, s', bucket);
    }
  }

  /** Removing another wallet's bundle does not change whether `g` wins. */
  lemma OtherWalletRemoved(s: Members, c: Cid, g: Cid)
    requires c in s && g in s && !SameWallet(s[g].bundle, s[c].bundle)
    ensures IsWinner(s - {c}, (s - {c}).Keys, g) <==> IsWinner(s, s.Keys, g)
  {
    var s' := s - {c};
    var w := WinnerOf(s, s.Keys, g);
    var v := WinnerOf(s', s'.Keys, g);
    assert w in s' && At(s, w) == At(s', w) && At(s, v) == At(s', v) && At(s, g) == At(s', g);
  }

  lemma OneWinnerOnly(s: Members, c: Cid, w: Cid)
    requires IsWinner(s, s.Keys, c) && w in s && w != c && SameWallet(s[w].bundle, s[c].bundle)
    ensures !IsWinner(s, s.Keys, w)
    ensures forall v :: IsWinner(s, s.Keys, v) && SameWallet(s[v].bundle, s[w].bundle) ==> v == c
  {
    LwwIsMaximum(At(s, c), At(s, w));
    forall v | IsWinner(s, s.Keys, v) && SameWallet(s[v].bundle, s[w].bundle)
      ensures v == c
    {
      OneWinnerPerWallet(s, s.Keys, v, c);
    }
  }

  lemma EvictKeepsWinner(clock: Clock, s: Members, bucket: nat, c: Cid, g: Cid)
    requires c in s && g in s && g != c && !clock.IsExpired(s[g].bundle, bucket)
    requires !HidesPredecessor(clock, s, bucket, s.Keys, c)
    ensures var p', s' := Pruned(clock, s, bucket) - {c}, s - {c};
            IsWinner(s', s'.Keys, g) <==> IsWinner(p', p'.Keys, g)
  {
    var p := Pruned(clock, s, bucket);
    var p', s' := p - {c}, s - {c};
    if SameWallet(s[g].bundle, s[c].bundle) {
      KeptBesides(clock, s, bucket, c, g);
      var w := WinnerOf(s', s'.Keys, g);
      if w != g {
        FreshMonotone(clock, At(s', w), At(s', g), bucket, bucket);
        KeptBesides(clock, s, bucket, c, w);
        assert At(p', w) == At(s', w);
        assert g in p' ==> At(p', g) == At(s', g);
      } else {
        assert forall d :: d in p' ==> d in s' && At(p', d) == At(s', d);
      }
    } else {
      WinnersAfterPrune(clock, s, bucket, g);
      OtherWalletRemoved(s, c, g);
      if c in p && g in p { OtherWalletRemoved(p, c, g); }
      assert c !in p ==> p' == p;
    }
  }

  /** Unless `c` hides it, the best live bundle of its wallet besides `c` survives the prune. */
  lemma KeptBesides(clock: Clock, s: Members, bucket: nat, c: Cid, g: Cid)
    requires c in s && g in s && g != c && SameWallet(s[g].bundle, s[c].bundle)
    requires !HidesPredecessor(clock, s, bucket, s.Keys, c)
    requires !clock.IsExpired(s[g].bundle, bucket)
    ensures IsWinner(s - {c}, (s - {c}).Keys, g) ==> g in Pruned(clock, s, bucket)
  {
    var w := WinnerOf(s, s.Keys, g);
    if w == c {
      assert !s[c].checks.Settled();
      assert ProvisionalWinner(s, s[g].bundle);
    } else if w != g {
      assert At(s - {c}, w) == At(s, w) && At(s - {c}, g) == At(s, g);
    }
  }

  // ---- setting a settled bundle back to pending ----

  const PENDING := Checks(false, None)

  /**
   Re-signing identical bytes overwrites a settled bundle's checks with pending ones. Right after
   that, the pruned set's checkpoint differs exactly when the bundle was a settled winner hiding a
   live settled predecessor.
   */
  lemma ResetShowsInCheckpointExactly(clock: Clock, s: Members, bucket: nat, c: Cid)
    requires c in Pruned(clock, s, bucket) && s[c].checks.Settled()
    ensures var reset := s[c].(checks := PENDING);
            CheckpointView(clock, Pruned(clock, s, bucket)[c := reset], bucket) == CheckpointView(clock, s[c := reset], bucket)
            <==> !HidesPredecessor(clock, s, bucket, SettledIn(s), c)
  {
    var p := Pruned(clock, s, bucket);
    var reset := s[c].(checks := PENDING);
    var p', s' := p[c := reset], s[c := reset];
    if HidesPredecessor(clock, s, bucket, SettledIn(s), c) {
      var w := ResetUncovers(clock, s, bucket, c);
    } else {
      forall g | g in s' && !clock.IsExpired(s[g].bundle, bucket) && g in SettledIn(s')
        ensures IsWinner(s', SettledIn(s'), g) <==> IsWinner(p', SettledIn(p'), g)
      {
        KeptWhenReset(clock, s, bucket, c, g);
        var w := WinnerOf(s', SettledIn(s'), g);
        if w != g {
          FreshMonotone(clock, At(s', w), At(s', g), bucket, bucket);
          KeptWhenReset(clock, s, bucket, c, w);
          assert w in SettledIn(p') && At(p', w) == At(s', w);
          assert g in p' ==> At(p', g) == At(s', g);
        } else {
          assert forall d :: d in SettledIn(p') ==> d in SettledIn(s') && At(p', d) == At(s', d);
        }
      }
      assert forall g :: g in CheckpointView(clock, p', bucket) <==> g in CheckpointView(clock, s', bucket);
    }
  }

  /** A predecessor the reset bundle hid is missing from the pruned set, though the unpruned set would serve one. */
  lemma ResetUncovers(clock: Clock, s: Members, bucket: nat, c: Cid) returns (w: Cid)
    requires c in Pruned(clock, s, bucket) && s[c].checks.Settled() && HidesPredecessor(clock, s, bucket, SettledIn(s), c)
    ensures var reset := s[c].(checks := PENDING);
            w in CheckpointView(clock, s[c := reset], bucket) && w !in Pruned(clock, s, bucket)[c := reset]
  {
    var s' := s[c := s[c].(checks := PENDING)];
    var d :| d in SettledIn(s) && d != c && SameWallet(s[d].bundle, s[c].bundle) && !clock.IsExpired(s[d].bundle, bucket);
    w := WinnerOf(s', SettledIn(s'), d);
    FreshMonotone(clock, At(s', w), At(s', d), bucket, bucket);
    OneWinnerOnly(s, c, w);
  }

  lemma KeptWhenReset(clock: Clock, s: Members, bucket: nat, c: Cid, g: Cid)
    requires c in s && s[c].checks.Settled()
    requires !HidesPredecessor(clock, s, bucket, SettledIn(s), c)
    requires g in s && g != c && g in SettledIn(s) && !clock.IsExpired(s[g].bundle, bucket)
    ensures var s' := s[c := s[c].(checks := PENDING)];
            IsWinner(s', SettledIn(s'), g) ==> g in Pruned(clock, s, bucket)
  {
    var s' := s[c := s[c].(checks := PENDING)];
    if IsWinner(s', SettledIn(s'), g) {
      var w := WinnerOf(s, s.Keys, g);
      if w != g {
        assert w != c;
        assert w in s' && At(s', w) == At(s, w) && At(s', g) == At(s, g);
        assert ProvisionalWinner(s, s[g].bundle);
      }
    }
  }

  // ---- one input for each ----

  function Ballot(block: nat, nonce: Byte): Bundle {
    Bundle("0xa", [Vote("k", None, 1)], block, [nonce])
  }

  const SETTLED := Checks(true, None)

  /** One bundle, pruned at bucket 1, read again at bucket 0: the vote is gone. */
  lemma OlderHeadLosesAVote(clock: Clock)
    requires clock == Clock(1, 0)
    ensures var s: Members := map[[1] := Record(Ballot(0, 0), SETTLED)];
            TallyView(clock, Pruned(clock, s, 1), 0) != TallyView(clock, s, 0)
  {
    var s: Members := map[[1] := Record(Ballot(0, 0), SETTLED)];
    LwwIsMaximum(At(s, [1]), At(s, [1]));
    assert IsWinner(s, s.Keys, [1]);
    TallyAfterPruneExactly(clock, s, 1, 0);
  }

  /** Two settled bundles of one wallet; after a prune, evicting or resetting the newer loses the older. */
  lemma SettledMustStaySettled(clock: Clock)
    requires clock == Clock(1, 5)
    ensures var s: Members := map[[1] := Record(Ballot(0, 0), SETTLED), [2] := Record(Ballot(1, 0), SETTLED)];
            && TallyView(clock, Pruned(clock, s, 1) - {[2]}, 1) != TallyView(clock, s - {[2]}, 1)
            && CheckpointView(clock, Pruned(clock, s, 1)[[2] := s[[2]].(checks := PENDING)], 1)
               != CheckpointView(clock, s[[2] := s[[2]].(checks := PENDING)], 1)
  {
    var s: Members := map[[1] := Record(Ballot(0, 0), SETTLED), [2] := Record(Ballot(1, 0), SETTLED)];
    LwwIsMaximum(At(s, [2]), At(s, [2]));
    LwwIsMaximum(At(s, [2]), At(s, [1]));
    assert IsWinner(s, s.Keys, [2]);
    assert [1] in s && [1] in SettledIn(s) && SameWallet(s[[1]].bundle, s[[2]].bundle);
    EvictShowsInTallyExactly(clock, s, 1, [2]);
    ResetShowsInCheckpointExactly(clock, s, 1, [2]);
  }
}
