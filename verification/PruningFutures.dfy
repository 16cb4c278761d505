/**
 Pruned and never-pruned sets judged by every later run. A set with bundles missing has the same future
 exactly if it misses nothing of the core; so whatever step leaves the allowed runs (evicting a settled
 bundle, setting one back to pending, a prune before a bundle's checks are recorded) has its exact condition.
 */
module PruningFutures {
  import opened Bundles
  import opened WinnerSet
  import opened Pruning
  import opened PruningLimits

  // ---- later runs ----

  ghost function Continue(clock: Clock, s: State, ops: seq<Op>): State {
    if ops == [] then s else Step(clock, Continue(clock, s, ops[..|ops| - 1]), ops[|ops| - 1])
  }

  ghost predicate AllowedFrom(clock: Clock, s: State, ops: seq<Op>) {
    ops != [] ==>
      && AllowedFrom(clock, s, ops[..|ops| - 1])
      && Allowed(Continue(clock, s, ops[..|ops| - 1]), ops[|ops| - 1])
  }

  /** Content addressing from here on: an admitted CID names the bundle it already named. */
  ghost predicate AddressedIn(t: Members, ops: seq<Op>) {
    && ContentAddressed(ops)
    && (forall i :: 0 <= i < |ops| && ops[i].Admit? && ops[i].cid in t ==> ops[i].rec.bundle == t[ops[i].cid].bundle)
  }

  /** Both readers agree now and after every allowed run, the second set never being pruned. */
  ghost predicate SameFuture(clock: Clock, p: Members, t: Members, bucket: nat) {
    forall ops: seq<Op>, now: nat | AllowedFrom(clock, State(p, bucket), ops) && AddressedIn(t, ops) ::
      ReadAlikeAfter(clock, p, t, bucket, ops, now)
  }

  ghost predicate ReadAlikeAfter(clock: Clock, p: Members, t: Members, bucket: nat, ops: seq<Op>, now: nat) {
    var pruned, never := Continue(clock, State(p, bucket), ops), Continue(clock, State(t, bucket), WithoutPrunes(ops));
    pruned.bucket <= now ==>
      && TallyView(clock, pruned.members, now) == TallyView(clock, never.members, now)
      && CheckpointView(clock, pruned.members, now) == CheckpointView(clock, never.members, now)
  }

  lemma ContinueOne(clock: Clock, s: State, ops: seq<Op>, op: Op)
    ensures Continue(clock, s, ops + [op]) == Step(clock, Continue(clock, s, ops), op)
  {
    assert (ops + [op])[..|ops|] == ops;
  }

  /** A member of a continued run was there at the start, or was admitted on the way. */
  lemma {:induction false} ContinuedFrom(clock: Clock, s: State, ops: seq<Op>, c: Cid)
    requires c in Continue(clock, s, ops).members
    ensures (c in s.members && Continue(clock, s, ops).members[c].bundle == s.members[c].bundle)
            || exists i :: 0 <= i < |ops| && ops[i].Admit? && ops[i].cid == c
                           && ops[i].rec.bundle == Continue(clock, s, ops).members[c].bundle
  {
    if ops != [] {
      var n := |ops| - 1;
      if ops[n].Admit? && ops[n].cid == c {
        assert ops[n].cid == c;
      } else {
        ContinuedFrom(clock, s, ops[..n], c);
        assert forall i :: 0 <= i < n ==> ops[..n][i] == ops[i];
      }
    }
  }

  lemma {:induction false} CoresStayTogether(clock: Clock, p: Members, t: Members, bucket: nat, ops: seq<Op>)
    requires Core(clock, p, bucket) == Core(clock, t, bucket)
    requires AllowedFrom(clock, State(p, bucket), ops) && AddressedIn(t, ops)
    ensures var pruned := Continue(clock, State(p, bucket), ops);
            Core(clock, pruned.members, pruned.bucket)
            == Core(clock, Continue(clock, State(t, bucket), WithoutPrunes(ops)).members, pruned.bucket)
  {
    if ops != [] {
      var n := |ops| - 1;
      var prefix, op := ops[..n], ops[n];
      assert forall i :: 0 <= i < n ==> prefix[i] == ops[i];
      CoresStayTogether(clock, p, t, bucket, prefix);
      var s, u := Continue(clock, State(p, bucket), prefix), Continue(clock, State(t, bucket), WithoutPrunes(prefix));
      if op.Admit? && op.cid in u.members {
        KnownBundle(clock, t, bucket, ops, n);
      }
      StepOnCore(clock, s, u.members, op);
      if op.Prune? {
        assert WithoutPrunes(ops) == WithoutPrunes(prefix);
      } else {
        assert WithoutPrunes(ops) == WithoutPrunes(prefix) + [op];
        ContinueOne(clock, State(t, bucket), WithoutPrunes(prefix), op);
        StepIgnoresBucket(clock, u, State(u.members, s.bucket), op);
      }
    }
  }

  lemma KnownBundle(clock: Clock, t: Members, bucket: nat, ops: seq<Op>, n: nat)
    requires n < |ops| && ops[n].Admit? && AddressedIn(t, ops)
    requires ops[n].cid in Continue(clock, State(t, bucket), WithoutPrunes(ops[..n])).members
    ensures Continue(clock, State(t, bucket), WithoutPrunes(ops[..n])).members[ops[n].cid].bundle == ops[n].rec.bundle
  {
    var kept, c := WithoutPrunes(ops[..n]), ops[n].cid;
    var bundle := Continue(clock, State(t, bucket), kept).members[c].bundle;
    ContinuedFrom(clock, State(t, bucket), kept, c);
    if c !in t || bundle != t[c].bundle {
      var i :| 0 <= i < |kept| && kept[i].Admit? && kept[i].cid == c && kept[i].rec.bundle == bundle;
      var j := WithoutPrunesAdmits(ops[..n], i);
      assert ops[j] == ops[..n][j];
    }
  }

  /** Equal cores have one future. */
  lemma SameCoreSameFuture(clock: Clock, p: Members, t: Members, bucket: nat)
    requires Core(clock, p, bucket) == Core(clock, t, bucket)
    ensures SameFuture(clock, p, t, bucket)
  {
    forall ops: seq<Op>, now: nat | AllowedFrom(clock, State(p, bucket), ops) && AddressedIn(t, ops)
      ensures ReadAlikeAfter(clock, p, t, bucket, ops, now)
    {
      var pruned, never := Continue(clock, State(p, bucket), ops), Continue(clock, State(t, bucket), WithoutPrunes(ops));
      CoresStayTogether(clock, p, t, bucket, ops);
      if pruned.bucket <= now {
        ReadersSeeOnlyTheCore(clock, pruned.members, pruned.bucket, now);
        ReadersSeeOnlyTheCore(clock, never.members, pruned.bucket, now);
      }
    }
  }

  // ---- a set within another ----

  /** `t` with some bundles missing. */
  predicate Within(p: Members, t: Members) {
    forall c <- p :: c in t && p[c] == t[c]
  }

  lemma CoreOfSubset(clock: Clock, p: Members, t: Members, bucket: nat)
    requires Within(p, t) && forall c <- Core(clock, t, bucket) :: c in p
    ensures Core(clock, p, bucket) == Core(clock, t, bucket)
  {
    forall g | g in p && !clock.IsExpired(p[g].bundle, bucket)
      ensures g in Core(clock, p, bucket) <==> g in Core(clock, t, bucket)
    {
      var e := At(t, g);
      assert forall d :: Beats(p, d, e) ==> Beats(t, d, e);
      if d :| Beats(t, d, e) {
        var w := BeatenByCore(clock, t, bucket, d, e);
        assert Beats(p, w, e);
      }
    }
  }

  function Evictions(ds: seq<Cid>): seq<Op> {
    seq(|ds|, i requires 0 <= i < |ds| => Evict(ds[i]))
  }

  function Elements(ds: seq<Cid>): set<Cid> {
    set d | d in ds
  }

  lemma RemoveOneMore(s: Members, ds: seq<Cid>, n: nat)
    requires |ds| == n + 1
    ensures s - Elements(ds[..n]) - {ds[n]} == s - Elements(ds)
  {
    assert ds == ds[..n] + [ds[n]];
    assert forall d :: d in ds <==> d in ds[..n] || d == ds[n];
  }

  lemma EvictionsPrefix(ds: seq<Cid>, n: nat)
    requires n <= |ds|
    ensures Evictions(ds)[..n] == Evictions(ds[..n])
  {
  }

  lemma {:induction false} NothingToDrop(ds: seq<Cid>)
    ensures WithoutPrunes(Evictions(ds)) == Evictions(ds)
  {
    if ds != [] {
      var n := |ds| - 1;
      NothingToDrop(ds[..n]);
      EvictionsPrefix(ds, n);
      assert Evictions(ds)[n] == Evict(ds[n]);
    }
  }

  /** Evicting bundles removes them. */
  lemma {:induction false} AfterEvictions(clock: Clock, s: State, ds: seq<Cid>)
    ensures Continue(clock, s, Evictions(ds)) == State(s.members - Elements(ds), s.bucket)
  {
    if ds != [] {
      var n := |ds| - 1;
      AfterEvictions(clock, s, ds[..n]);
      EvictionsPrefix(ds, n);
      RemoveOneMore(s.members, ds, n);
      assert Evictions(ds)[n] == Evict(ds[n]);
    } else {
      assert s.members - Elements(ds) == s.members;
    }
  }

  /** It is an allowed run if they are pending, where they are there at all. */
  lemma {:induction false} EvictionsAreAllowed(clock: Clock, s: State, ds: seq<Cid>)
    requires forall d <- ds :: d in s.members ==> !s.members[d].checks.Settled()
    ensures AllowedFrom(clock, s, Evictions(ds))
  {
    if ds != [] {
      var n := |ds| - 1;
      EvictionsAreAllowed(clock, s, ds[..n]);
      EvictionsPrefix(ds, n);
      AfterEvictions(clock, s, ds[..n]);
      assert Evictions(ds)[n] == Evict(ds[n]) && ds[n] in ds;
    }
  }

  lemma Listed(ds: set<Cid>) returns (list: seq<Cid>)
    ensures Elements(list) == ds
  {
    if ds == {} {
      list := [];
    } else {
      var d :| d in ds;
      var others := Listed(ds - {d});
      list := others + [d];
      assert Elements(list) == Elements(others) + {d};
    }
  }

  /** What is above the best missing bundle of a wallet is pending, and in both sets. */
  lemma AboveTheBestMissing(clock: Clock, p: Members, t: Members, bucket: nat, w: Cid, d: Cid)
    requires Within(p, t) && w in Core(clock, t, bucket)
    requires d in t && SameWallet(t[d].bundle, t[w].bundle) && Above(At(t, d), At(t, w))
    requires d in Core(clock, t, bucket) ==> d in p
    ensures d in p && !t[d].checks.Settled()
  {
    FreshMonotone(clock, At(t, d), At(t, w), bucket, bucket);
    assert !Beats(t, d, At(t, w));
    if e :| Beats(t, e, At(t, d)) {
      AboveTransitive(At(t, e), At(t, d), At(t, w));
      assert Beats(t, e, At(t, w));
    }
  }

  /** A bundle missing from the core shows: once what is pending above it is evicted, it is the winner. */
  lemma MissingShows(clock: Clock, p: Members, t: Members, bucket: nat, g: Cid)
    requires Within(p, t) && g in Core(clock, t, bucket) && g !in p
    ensures !SameFuture(clock, p, t, bucket)
  {
    var w := BestOf(t, Core(clock, t, bucket).Keys - p.Keys, g);
    var above := set d | d in t && SameWallet(t[d].bundle, t[w].bundle) && Above(At(t, d), At(t, w));
    forall d <- above ensures d in p && !t[d].checks.Settled() {
      AboveTheBestMissing(clock, p, t, bucket, w, d);
    }
    var ds := Listed(above);
    var ops := Evictions(ds);
    assert forall d <- ds :: d in Elements(ds);
    EvictionsAreAllowed(clock, State(p, bucket), ds);
    NothingToDrop(ds);
    AfterEvictions(clock, State(p, bucket), ds);
    AfterEvictions(clock, State(t, bucket), ds);
    UncoveredWins(clock, t, bucket, w, above);
    assert forall i | 0 <= i < |ops| :: ops[i].Evict?;
    assert AllowedFrom(clock, State(p, bucket), ops) && AddressedIn(t, ops);
    assert !ReadAlikeAfter(clock, p, t, bucket, ops, bucket);
  }

  lemma UncoveredWins(clock: Clock, t: Members, bucket: nat, w: Cid, above: set<Cid>)
    requires w in t && !clock.IsExpired(t[w].bundle, bucket)
    requires above == set d | d in t && SameWallet(t[d].bundle, t[w].bundle) && Above(At(t, d), At(t, w))
    ensures w in TallyView(clock, t - above, bucket)
  {
    LwwIsMaximum(At(t, w), At(t, w));
    assert forall d <- t - above :: At(t - above, d) == At(t, d);
  }

  /** A set with bundles missing has the same future exactly if it misses nothing of the core. */
  lemma SameFutureExactly(clock: Clock, p: Members, t: Members, bucket: nat)
    requires Within(p, t)
    ensures SameFuture(clock, p, t, bucket) <==> Core(clock, p, bucket) == Core(clock, t, bucket)
    ensures SameFuture(clock, p, t, bucket) <==> forall g <- Core(clock, t, bucket) :: g in p
  {
    if g :| g in Core(clock, t, bucket) && g !in p {
      MissingShows(clock, p, t, bucket, g);
    } else {
      CoreOfSubset(clock, p, t, bucket);
      SameCoreSameFuture(clock, p, t, bucket);
    }
  }

  // ---- after any run ----

  lemma WithinStep(clock: Clock, s: State, u: State, op: Op)
    requires Within(s.members, u.members)
    ensures Within(Step(clock, s, op).members, if op.Prune? then u.members else Step(clock, u, op).members)
  {
  }

  /** On every run, what the engine holds it would hold, unchanged, had it never pruned. */
  lemma {:induction false} PrunedIsWithin(clock: Clock, ops: seq<Op>)
    ensures Within(Run(clock, ops).members, Run(clock, WithoutPrunes(ops)).members)
  {
    if ops != [] {
      var n := |ops| - 1;
      PrunedIsWithin(clock, ops[..n]);
      WithinStep(clock, Run(clock, ops[..n]), Run(clock, WithoutPrunes(ops[..n])), ops[n]);
      if ops[n].Prune? {
        assert WithoutPrunes(ops) == WithoutPrunes(ops[..n]);
      } else {
        NeverPrunedStep(clock, WithoutPrunes(ops[..n]), ops[n]);
      }
    }
  }

  /** `t` differs from `s` in `c` alone. */
  ghost predicate OffOne(s: Members, t: Members, c: Cid) {
    forall g | g != c :: (g in s <==> g in t) && (g in s ==> t[g] == s[g])
  }

  /** A live bundle that no settled bundle but `c` beats, and that the engine no longer holds. */
  ghost predicate LostUnder(clock: Clock, p: Members, t: Members, bucket: nat, c: Cid, g: Cid) {
    && g in t && g !in p && g != c && !clock.IsExpired(t[g].bundle, bucket)
    && forall d :: Beats(t, d, At(t, g)) ==> d == c
  }

  /** Once `c` is gone or pending, the two sets have one future exactly if nothing was lost under it. */
  lemma UnsettledExactly(clock: Clock, p: Members, t: Members, bucket: nat, c: Cid, p': Members, t': Members)
    requires OffOne(t, t', c) && OffOne(p, p', c) && Within(p', t')
    requires c in t' ==> c in p' && !t'[c].checks.Settled()
    ensures SameFuture(clock, p', t', bucket) <==> !exists g :: LostUnder(clock, p, t, bucket, c, g)
  {
    forall g | g != c ensures g in Core(clock, t', bucket) && g !in p' <==> LostUnder(clock, p, t, bucket, c, g) {
      if g in t {
        assert At(t', g) == At(t, g);
        assert forall d | d != c :: Beats(t', d, At(t, g)) <==> Beats(t, d, At(t, g));
        assert !Beats(t', c, At(t, g));
      }
    }
    SameFutureExactly(clock, p', t', bucket);
  }

  /**
   Evicting any bundle, settled or not, after any run: with what was admitted since the prunes, every later
   tally and checkpoint is as if nothing had been pruned, if and only if no live bundle was lost under it.
   */
  lemma EvictAfterRunExactly(clock: Clock, ops: seq<Op>, c: Cid)
    ensures var s, never := Run(clock, ops), Run(clock, WithoutPrunes(ops)).members;
            SameFuture(clock, s.members - {c}, never - {c}, s.bucket)
            <==> !exists g :: LostUnder(clock, s.members, never, s.bucket, c, g)
  {
    var s, never := Run(clock, ops), Run(clock, WithoutPrunes(ops)).members;
    PrunedIsWithin(clock, ops);
    UnsettledExactly(clock, s.members, never, s.bucket, c, s.members - {c}, never - {c});
  }

  /** Admitting a bundle as pending after any run, one already held and settled included: the same condition. */
  lemma ResetAfterRunExactly(clock: Clock, ops: seq<Op>, c: Cid, rec: Record)
    requires !rec.checks.Settled()
    ensures var s, never := Run(clock, ops), Run(clock, WithoutPrunes(ops)).members;
            SameFuture(clock, s.members[c := rec], never[c := rec], s.bucket)
            <==> !exists g :: LostUnder(clock, s.members, never, s.bucket, c, g)
  {
    var s, never := Run(clock, ops), Run(clock, WithoutPrunes(ops)).members;
    PrunedIsWithin(clock, ops);
    UnsettledExactly(clock, s.members, never, s.bucket, c, s.members[c := rec], never[c := rec]);
  }

  // ---- right after a prune ----

  /** Unless `c` hides it, what is in the core besides `c` survived the prune. */
  lemma CoreBesides(clock: Clock, s: Members, t: Members, bucket: nat, c: Cid, g: Cid)
    requires c in s && OffOne(s, t, c) && !HidesPredecessor(clock, s, bucket, s.Keys, c)
    requires g != c && g in Core(clock, t, bucket)
    ensures g in Pruned(clock, s, bucket)
  {
    var w := WinnerOf(s, s.Keys, g);
    assert At(t, g) == At(s, g);
    if w != g {
      if w != c {
        assert t[w] == s[w];
        assert !Beats(t, w, At(t, g));
      }
      assert !s[w].checks.Settled();
      assert ProvisionalWinner(s, s[g].bundle);
    }
  }

  /** The best bundle of the wallet besides a settled winner that hides one: live, and pruned away. */
  lemma HiddenBundle(clock: Clock, s: Members, t: Members, bucket: nat, c: Cid) returns (w: Cid)
    requires HidesPredecessor(clock, s, bucket, s.Keys, c) && OffOne(s, t, c) && (c in t ==> !t[c].checks.Settled())
    ensures w != c && w in s && w !in Pruned(clock, s, bucket) && w in Core(clock, t, bucket)
    ensures IsWinner(s - {c}, (s - {c}).Keys, w) && !clock.IsExpired(s[w].bundle, bucket)
  {
    var d :| d in s && d != c && SameWallet(s[d].bundle, s[c].bundle) && !clock.IsExpired(s[d].bundle, bucket);
    w := WinnerOf(s - {c}, (s - {c}).Keys, d);
    assert At(s - {c}, w) == At(s, w) == At(t, w) && At(s - {c}, d) == At(s, d);
    FreshMonotone(clock, At(s, w), At(s, d), bucket, bucket);
    OneWinnerOnly(s, c, w);
    forall x ensures !Beats(t, x, At(t, w)) {
      if x in t && x != c {
        assert At(s - {c}, x) == At(t, x);
      }
    }
  }

  /** With `c` gone or pending right after a prune, nothing of the core is missing exactly if `c` hid nothing. */
  lemma NothingMissingExactly(clock: Clock, s: Members, p': Members, t': Members, bucket: nat, c: Cid)
    requires c in s && OffOne(s, t', c) && OffOne(Pruned(clock, s, bucket), p', c) && Within(p', t')
    requires c in t' ==> !t'[c].checks.Settled()
    requires c in Core(clock, t', bucket) ==> c in p'
    ensures Core(clock, p', bucket) == Core(clock, t', bucket) <==> !HidesPredecessor(clock, s, bucket, s.Keys, c)
    ensures SameFuture(clock, p', t', bucket) <==> !HidesPredecessor(clock, s, bucket, s.Keys, c)
  {
    if HidesPredecessor(clock, s, bucket, s.Keys, c) {
      var w := HiddenBundle(clock, s, t', bucket, c);
    } else {
      forall g <- Core(clock, t', bucket) ensures g in p' {
        if g != c { CoreBesides(clock, s, t', bucket, c, g); }
      }
    }
    SameFutureExactly(clock, p', t', bucket);
  }

  /**
   Evicting any bundle after a prune: the cores stay together, and with them every later tally and
   checkpoint, if and only if the bundle was not a settled winner with a live predecessor.
   */
  lemma EvictAfterPruneExactly(clock: Clock, s: Members, bucket: nat, c: Cid)
    requires c in s
    ensures var p', s' := Pruned(clock, s, bucket) - {c}, s - {c};
            && (Core(clock, p', bucket) == Core(clock, s', bucket) <==> !HidesPredecessor(clock, s, bucket, s.Keys, c))
            && (SameFuture(clock, p', s', bucket) <==> !HidesPredecessor(clock, s, bucket, s.Keys, c))
  {
    NothingMissingExactly(clock, s, Pruned(clock, s, bucket) - {c}, s - {c}, bucket, c);
  }

  /**
   Setting a settled bundle back to pending after a prune: the same condition. A hidden predecessor that
   is pending itself shows only later, once the reset bundle is evicted.
   */
  lemma ResetAfterPruneExactly(clock: Clock, s: Members, bucket: nat, c: Cid)
    requires c in Pruned(clock, s, bucket) && s[c].checks.Settled()
    ensures var reset := s[c].(checks := PENDING);
            var p', s' := Pruned(clock, s, bucket)[c := reset], s[c := reset];
            && (Core(clock, p', bucket) == Core(clock, s', bucket) <==> !HidesPredecessor(clock, s, bucket, s.Keys, c))
            && (SameFuture(clock, p', s', bucket) <==> !HidesPredecessor(clock, s, bucket, s.Keys, c))
  {
    var reset := s[c].(checks := PENDING);
    NothingMissingExactly(clock, s, Pruned(clock, s, bucket)[c := reset], s[c := reset], bucket, c);
  }

  /** A pending bundle under a settled one: the reset itself changes no view, the eviction after it loses the vote. */
  lemma ResetThenEvictLosesThePending(clock: Clock)
    requires clock == Clock(1, 5)
    ensures var s: Members := map[[1] := Record(Ballot(0, 0), PENDING), [2] := Record(Ballot(1, 0), SETTLED)];
            var reset := s[[2]].(checks := PENDING);
            var p', s' := Pruned(clock, s, 1)[[2] := reset], s[[2] := reset];
            && CheckpointView(clock, p', 1) == CheckpointView(clock, s', 1)
            && TallyView(clock, p' - {[2]}, 1) != TallyView(clock, s' - {[2]}, 1)
  {
    var s: Members := map[[1] := Record(Ballot(0, 0), PENDING), [2] := Record(Ballot(1, 0), SETTLED)];
    var reset := s[[2]].(checks := PENDING);
    LwwIsMaximum(At(s, [2]), At(s, [2]));
    LwwIsMaximum(At(s, [2]), At(s, [1]));
    assert IsWinner(s, s.Keys, [2]) && [1] !in SettledIn(s);
    assert [1] in s && SameWallet(s[[1]].bundle, s[[2]].bundle);
    assert !clock.IsExpired(s[[2]].bundle, 1);
    ResetShowsInCheckpointExactly(clock, s, 1, [2]);
    EvictShowsInTallyExactly(clock, s, 1, [2]);
    assert Pruned(clock, s, 1)[[2] := reset] - {[2]} == Pruned(clock, s, 1) - {[2]} && s[[2] := reset] - {[2]} == s - {[2]};
  }

  // ---- a prune between an admit and its check record ----

  /** A bundle in the set whose checks are not recorded yet: the prune takes it for one that is not pending. */
  function Unrecorded(s: Members, c: Cid, bundle: Bundle): Members {
    s[c := Record(bundle, SETTLED)]
  }

  /** The checks of `c` are recorded after the prune, if that has left the bundle. */
  ghost function PrunedThenRecorded(clock: Clock, s: Members, bucket: nat, c: Cid, rec: Record): Members {
    var p := Pruned(clock, Unrecorded(s, c, rec.bundle), bucket);
    if c in p then p[c := rec] else p
  }

  /**
   Against a set that has the record at once and is not pruned: later tallies and checkpoints agree if and only
   if the new bundle is not its wallet's winner over one that is still live.
   */
  lemma PruneBeforeRecordExactly(clock: Clock, s: Members, bucket: nat, c: Cid, rec: Record)
    requires !rec.checks.Settled()
    ensures SameFuture(clock, PrunedThenRecorded(clock, s, bucket, c, rec), s[c := rec], bucket)
            <==> !HidesPredecessor(clock, Unrecorded(s, c, rec.bundle), bucket, Unrecorded(s, c, rec.bundle).Keys, c)
  {
    var unrecorded, t' := Unrecorded(s, c, rec.bundle), s[c := rec];
    if c in Core(clock, t', bucket) {
      assert forall d | Beats(unrecorded, d, At(unrecorded, c)) :: d == c || Beats(t', d, At(t', c));
      LwwIsMaximum(At(unrecorded, c), At(unrecorded, c));
      CoreIsKept(clock, unrecorded, bucket, c);
    }
    NothingMissingExactly(clock, unrecorded, PrunedThenRecorded(clock, s, bucket, c, rec), t', bucket, c);
  }

  /** A settled vote, and a newer one pruned before it is recorded: once the newer one is refused, the vote is gone. */
  lemma PruneBeforeRecordLosesAVote(clock: Clock)
    requires clock == Clock(1, 5)
    ensures var s: Members := map[[1] := Record(Ballot(0, 0), SETTLED)];
            && TallyView(clock, PrunedThenRecorded(clock, s, 1, [2], Record(Ballot(1, 0), PENDING)) - {[2]}, 1) == map[]
            && TallyView(clock, s[[2] := Record(Ballot(1, 0), PENDING)] - {[2]}, 1) == map[[1] := Ballot(0, 0)]
  {
    var s: Members := map[[1] := Record(Ballot(0, 0), SETTLED)];
    var unrecorded := Unrecorded(s, [2], Ballot(1, 0));
    LwwIsMaximum(At(unrecorded, [2]), At(unrecorded, [2]));
    LwwIsMaximum(At(unrecorded, [2]), At(unrecorded, [1]));
    LwwIsMaximum(At(s, [1]), At(s, [1]));
    assert IsWinner(unrecorded, unrecorded.Keys, [2]) && !IsWinner(unrecorded, unrecorded.Keys, [1]);
    OneWinnerOnly(unrecorded, [2], [1]);
    assert [1] !in Pruned(clock, unrecorded, 1);
    assert PrunedThenRecorded(clock, s, 1, [2], Record(Ballot(1, 0), PENDING)) - {[2]} == map[];
    assert s[[2] := Record(Ballot(1, 0), PENDING)] - {[2]} == s;
    assert IsWinner(s, s.Keys, [1]);
  }
}
