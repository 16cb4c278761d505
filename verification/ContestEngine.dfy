/** One contest's engine: the working set, its check map, the record cache and the snapshot. */
module ContestEngines {
  import opened Wrappers
  import opened Bundles
  import opened WinnerSet
  import opened Pruning
  import opened VoteCrdts
  import opened EngineModel
  import opened SnapshotModel

  /** How one restored bundle fares: its read threw, our head is behind it, or the offline check ruled. */
  datatype Attempt = Threw | NotEvaluableYet | Refused | Passed

  lemma NamedVotes(bundle: Bundle)
    ensures CarriesName(bundle) <==> exists v <- bundle.votes :: v.name.Some?
  {
    if CarriesName(bundle) {
      var i :| 0 <= i < |bundle.votes| && bundle.votes[i].name.Some?;
      assert bundle.votes[i] in bundle.votes;
    }
  }

  ghost function Joined(bundles: map<Cid, Bundle>, checks: map<Cid, Checks>): Members
    requires bundles.Keys == checks.Keys
  {
    map c | c in bundles :: Record(bundles[c], checks[c])
  }

  class ContestEngine {
    const crdt: VoteCrdt
    var checks: map<Cid, Checks>
    var checkpointDirty: bool
    var rootRecordCache: Option<Cut>
    /** Encodes that have read the winners and not yet finished. */
    var encoding: seq<Cut>
    var restoreBacklog: seq<Entry>
    /** The persisted checkpoint, if any. */
    var blob: Option<Cut>
    ghost var prunedAt: nat

    /** The check map's keys are exactly the working set's. */
    ghost predicate Valid()
      reads this, crdt
    {
      crdt.bundles.Keys == checks.Keys
    }

    ghost function Members(): Members
      reads this, crdt
      requires Valid()
    {
      Joined(crdt.bundles, checks)
    }

    ghost function Model(): Engine
      reads this, crdt
      requires Valid()
    {
      Engine(State(Members(), prunedAt), checkpointDirty, rootRecordCache, encoding)
    }

    constructor (clock: Clock)
      ensures Valid() && Model() == EngineModel.INITIAL && restoreBacklog == [] && blob == None
      ensures fresh(crdt) && crdt.clock == clock
    {
      crdt := new VoteCrdt(clock);
      checks := map[];
      checkpointDirty, rootRecordCache, encoding := true, None, [];
      restoreBacklog, blob, prunedAt := [], None, 0;
    }

    /** Admit a bundle and record its checks: the forward gate, a chase, or this wallet's own publish. */
    method Admit(cid: Cid, bundle: Bundle, settled: bool, nameSettled: bool)
      requires Valid()
      requires cid in crdt.bundles ==> crdt.bundles[cid] == bundle
      modifies `checks, `checkpointDirty, crdt
      ensures Valid()
      ensures Model() == Act(crdt.clock, old(Model()),
                             Change(Op.Admit(cid, Record(bundle, InitialChecks(bundle, settled, nameSettled)))))
      ensures crdt.bundles == old(crdt.bundles)[cid := bundle] && checkpointDirty
      ensures checks == old(checks)[cid := Checks(settled, if exists v <- bundle.votes :: v.name.Some? then Some(nameSettled) else None)]
    {
      NamedVotes(bundle);
      crdt.Add(cid, bundle);
      checks := checks[cid := InitialChecks(bundle, settled, nameSettled)];
      checkpointDirty := true;
      assert Members() == old(Members())[cid := Record(bundle, InitialChecks(bundle, settled, nameSettled))];
    }

    /** A background check confirmed. */
    method SettleCheck(cid: Cid, check: CheckKind)
      requires Valid()
      modifies `checks, `checkpointDirty
      ensures Valid()
      ensures Model() == Act(crdt.clock, old(Model()), Change(Settle(cid, check)))
      ensures cid !in old(checks) ==> checks == old(checks) && checkpointDirty == old(checkpointDirty)
      ensures cid in old(checks) ==>
                checkpointDirty
                && checks == old(checks)[cid := if check == Chain then Checks(true, old(checks)[cid].nameResolved)
                                                else Checks(old(checks)[cid].chainVerified, Some(true))]
    {
      if cid !in checks {
        return;
      }
      checks := checks[cid := checks[cid].Flip(check)];
      checkpointDirty := true;
      assert Members() == old(Members())[cid := old(Members())[cid].(checks := checks[cid])];
    }

    /** A deferred check failed. */
    method EvictBundle(cid: Cid)
      requires Valid()
      modifies `checks, `checkpointDirty, crdt
      ensures Valid()
      ensures Model() == Act(crdt.clock, old(Model()), Change(Evict(cid)))
      ensures crdt.bundles == old(crdt.bundles) - {cid} && checks == old(checks) - {cid} && checkpointDirty
    {
      crdt.Remove(cid);
      checks := checks - {cid};
      checkpointDirty := true;
      assert Members() == old(Members()) - {cid};
    }

    /** Drop decayed and superseded bundles together with their checks. */
    method PruneDecayed(currentBucket: nat)
      requires Valid()
      modifies `checks, `prunedAt, crdt
      ensures Valid()
      ensures Model() == Act(crdt.clock, old(Model()), Change(Op.Prune(currentBucket)))
      ensures forall c <- checks :: c in old(checks) && checks[c] == old(checks)[c]
    {
      var provisional := set c | c in checks && !checks[c].Settled();
      var removed := crdt.Prune(currentBucket, provisional);
      checks := checks - removed;
      prunedAt := currentBucket;
      PrunedTogether(crdt.clock, old(crdt.bundles), old(checks), provisional, currentBucket, removed);
    }

    /** Each wallet's newest settled bundle, unless expired. */
    method SettledWinners(bucket: nat) returns (cut: map<Cid, Bundle>)
      requires Valid()
      ensures cut == CheckpointView(crdt.clock, Members(), bucket)
      ensures forall c :: c in cut <==> ServesAt(crdt.clock, crdt.bundles, checks, bucket, c)
    {
      var settled := set c | c in checks && checks[c].Settled();
      var winners := crdt.CurrentEntries(bucket, settled);
      var cids := set e | e in winners :: e.cid;
      cut := map c | c in cids :: crdt.bundles[c];
      CutIsCheckpoint(crdt.clock, crdt.bundles, Members(), settled, bucket, winners, cut);
      CutMeans(crdt.clock, crdt.bundles, checks, bucket);
    }

    /** Ask for the root record: answered from the cache, or by starting an encode. */
    method BeginRootRecord(bucket: nat) returns (cached: bool)
      requires Valid()
      modifies `checkpointDirty, `encoding
      ensures Valid()
      ensures cached <==> ServedFromCache(old(Model()), bucket)
      ensures Model() == Act(crdt.clock, old(Model()), BeginRecord(bucket))
    {
      if !checkpointDirty && rootRecordCache.Some? && rootRecordCache.value.bucket == bucket {
        return true;
      }
      checkpointDirty := false;
      var cut := SettledWinners(bucket);
      encoding := encoding + [Cut(cut, bucket)];
      return false;
    }

    /** An encode finishes and is installed, whichever was started last. */
    method FinishRootRecord(which: nat)
      requires Valid() && which < |encoding|
      modifies `rootRecordCache, `encoding
      ensures Valid()
      ensures Model() == Act(crdt.clock, old(Model()), FinishRecord(which))
    {
      rootRecordCache := Some(encoding[which]);
      encoding := Dropping(encoding, which);
    }

    /** An encode, or storing its blocks, fails; the flag it consumed stays consumed. */
    method FailRootRecord(which: nat)
      requires Valid() && which < |encoding|
      modifies `encoding
      ensures Valid()
      ensures Model() == Act(crdt.clock, old(Model()), FailRecord(which))
    {
      encoding := Dropping(encoding, which);
    }

    /** Any admitted bundle with a deferred check still pending. */
    method HasUnsettledChecks() returns (unsettled: bool)
      ensures unsettled <==> exists c :: c in checks && !checks[c].Settled()
      ensures unsettled <==> exists c :: c in checks && (!checks[c].chainVerified || checks[c].nameResolved == Some(false))
    {
      var todo := checks.Keys;
      while todo != {}
        invariant todo <= checks.Keys
        invariant forall c :: c in checks && c !in todo ==> checks[c].Settled()
        decreases todo
      {
        var c :| c in todo;
        if !checks[c].Settled() {
          return true;
        }
        todo := todo - {c};
      }
      return false;
    }

    /** The snapshot's guard, checked before its first await: nothing pending, nothing still to be restored. */
    method MayWriteSnapshot() returns (go: bool)
      requires Valid()
      ensures go <==> restoreBacklog == [] && AllSettled(Members())
    {
      var unsettled := HasUnsettledChecks();
      go := !unsettled && |restoreBacklog| == 0;
      assert forall c :: c in checks ==> Members()[c].checks == checks[c];
    }

    /** After the root record is back: what is cached then is what is persisted. */
    method StoreSnapshot()
      modifies `blob
      ensures blob == if rootRecordCache.Some? then rootRecordCache else old(blob)
    {
      if rootRecordCache.Some? {
        blob := rootRecordCache;
      }
    }

    method EncodeRecord(bucket: nat)
      requires Valid()
      modifies `checkpointDirty, `encoding, `rootRecordCache
      ensures Valid()
      ensures Model() == Encoded(crdt.clock, old(Model()), bucket)
    {
      var cached := BeginRootRecord(bucket);
      if !cached {
        FinishRootRecord(|encoding| - 1);
      }
    }

    /**
     Persist the checkpoint, unless the view is knowably incomplete, with nothing happening at its awaits.
     What is written when nothing was being encoded then omits no current vote: the blob is the tally's
     own view.
     */
    method WriteSnapshot(bucket: nat)
      requires Valid()
      modifies `checkpointDirty, `encoding, `rootRecordCache, `blob
      ensures Valid()
      ensures restoreBacklog != [] || (exists c :: c in checks && !checks[c].Settled()) ==> blob == old(blob)
      ensures restoreBacklog == [] && (forall c :: c in checks ==> checks[c].Settled())
              && Inv(crdt.clock, old(Model())) && encoding == old(encoding) == [] && prunedAt <= bucket
              ==> blob == Some(Cut(TallyView(crdt.clock, Members(), bucket), bucket))
      ensures blob != old(blob) ==> blob == rootRecordCache
    {
      assert forall c :: c in checks ==> Members()[c].checks == checks[c];
      var go := MayWriteSnapshot();
      if !go {
        return;
      }
      EncodeRecord(bucket);
      if Inv(crdt.clock, old(Model())) && old(encoding) == [] && prunedAt <= bucket {
        SettledRecordIsTheTally(crdt.clock, old(Model()), bucket);
      }
      StoreSnapshot();
    }

    /** A decoded snapshot is admitted; a failed decode is the only thing that removes the blob. */
    method RestoreSnapshot(decoded: Option<seq<Entry>>, attempts: seq<Attempt>) returns (pending: seq<Entry>)
      requires Valid()
      requires decoded.Some? ==> |attempts| == |decoded.value|
      modifies this, crdt
      ensures Valid()
      ensures decoded.None? ==> blob == None && Members() == old(Members()) && restoreBacklog == old(restoreBacklog)
      ensures decoded.Some? ==> blob == old(blob) && Accounted(decoded.value, attempts, |attempts|, old(Members()), Members(), restoreBacklog, pending)
    {
      if decoded.None? {
        blob := None;
        return [];
      }
      pending := AdmitRestored(decoded.value, attempts);
    }

    /** Register one bundle as admitted with every check pending. */
    method AddPending(e: Entry)
      requires Valid() && e.cid !in checks
      modifies `checks, crdt
      ensures Valid()
      ensures Members() == old(Members())[e.cid := Pending(e.bundle)]
      ensures checks == old(checks)[e.cid := Checks(false, if exists v <- e.bundle.votes :: v.name.Some? then Some(false) else None)]
    {
      NamedVotes(e.bundle);
      crdt.Add(e.cid, e.bundle);
      checks := checks[e.cid := InitialChecks(e.bundle, false, false)];
      assert Members() == old(Members())[e.cid := Pending(e.bundle)];
    }

    /** One restored bundle: already admitted, refused, kept for a retry, or admitted now. */
    method AdmitOne(winners: seq<Entry>, attempts: seq<Attempt>, n: nat, ghost before: Members,
                    backlog: seq<Entry>, pending: seq<Entry>) returns (backlog': seq<Entry>, pending': seq<Entry>)
      requires Valid() && n < |winners| == |attempts|
      requires Accounted(winners, attempts, n, before, Members(), backlog, pending)
      modifies `checks, crdt
      ensures Valid()
      ensures Accounted(winners, attempts, n + 1, before, Members(), backlog', pending')
    {
      var e := winners[n];
      backlog', pending' := backlog, pending;
      if e.cid in checks || attempts[n].Refused? {
        AccountSkipped(winners, attempts, n, before, Members(), backlog, pending);
      } else if attempts[n].Threw? || attempts[n].NotEvaluableYet? {
        AccountBacklogged(winners, attempts, n, before, Members(), backlog, pending);
        backlog' := backlog + [e];
      } else {
        AccountAdmitted(winners, attempts, n, before, Members(), backlog, pending);
        AddPending(e);
        pending' := pending + [e];
      }
    }

    /** Admit a snapshot's bundles one independently of the next. */
    method AdmitRestored(winners: seq<Entry>, attempts: seq<Attempt>) returns (pending: seq<Entry>)
      requires Valid()
      requires |attempts| == |winners|
      modifies `checks, `checkpointDirty, `restoreBacklog, crdt
      ensures Valid()
      ensures Accounted(winners, attempts, |attempts|, old(Members()), Members(), restoreBacklog, pending)
      ensures pending != [] ==> checkpointDirty
    {
      pending := [];
      var backlog: seq<Entry> := [];
      ghost var before := Members();
      var i := 0;
      while i < |winners|
        invariant 0 <= i <= |winners|
        invariant Valid()
        invariant Accounted(winners, attempts, i, before, Members(), backlog, pending)
      {
        backlog, pending := AdmitOne(winners, attempts, i, before, backlog, pending);
        i := i + 1;
      }
      restoreBacklog := backlog;
      if pending != [] {
        checkpointDirty := true;
      }
    }
  }

  function Pending(bundle: Bundle): Record {
    Record(bundle, InitialChecks(bundle, false, false))
  }

  predicate AttemptedAs(winners: seq<Entry>, attempts: seq<Attempt>, n: nat, e: Entry, passed: bool)
    requires n <= |winners| == |attempts|
  {
    exists i :: 0 <= i < n && winners[i] == e
                && if passed then attempts[i].Passed? else attempts[i].Threw? || attempts[i].NotEvaluableYet?
  }

  lemma AttemptedSoFar(winners: seq<Entry>, attempts: seq<Attempt>, n: nat, e: Entry, passed: bool)
    requires n < |winners| == |attempts|
    ensures AttemptedAs(winners, attempts, n, e, passed) ==> AttemptedAs(winners, attempts, n + 1, e, passed)
    ensures winners[n] == e && (if passed then attempts[n].Passed? else attempts[n].Threw? || attempts[n].NotEvaluableYet?)
            ==> AttemptedAs(winners, attempts, n + 1, e, passed)
  {
  }

  lemma AccountSkipped(winners: seq<Entry>, attempts: seq<Attempt>, n: nat, before: Members, after: Members,
                       backlog: seq<Entry>, pending: seq<Entry>)
    requires n < |winners| == |attempts|
    requires Accounted(winners, attempts, n, before, after, backlog, pending)
    requires winners[n].cid in after || attempts[n].Refused? || winners[n] in backlog
    ensures Accounted(winners, attempts, n + 1, before, after, backlog, pending)
  {
    forall e | e in pending ensures AttemptedAs(winners, attempts, n + 1, e, true) {
      AttemptedSoFar(winners, attempts, n, e, true);
    }
    forall e | e in backlog ensures AttemptedAs(winners, attempts, n + 1, e, false) {
      AttemptedSoFar(winners, attempts, n, e, false);
    }
  }

  lemma AccountBacklogged(winners: seq<Entry>, attempts: seq<Attempt>, n: nat, before: Members, after: Members,
                          backlog: seq<Entry>, pending: seq<Entry>)
    requires n < |winners| == |attempts|
    requires Accounted(winners, attempts, n, before, after, backlog, pending)
    requires attempts[n].Threw? || attempts[n].NotEvaluableYet?
    ensures Accounted(winners, attempts, n + 1, before, after, backlog + [winners[n]], pending)
  {
    forall e | e in pending ensures AttemptedAs(winners, attempts, n + 1, e, true) {
      AttemptedSoFar(winners, attempts, n, e, true);
    }
    forall e | e in backlog + [winners[n]] ensures AttemptedAs(winners, attempts, n + 1, e, false) {
      AttemptedSoFar(winners, attempts, n, e, false);
    }
  }

  lemma AccountAdmitted(winners: seq<Entry>, attempts: seq<Attempt>, n: nat, before: Members, after: Members,
                        backlog: seq<Entry>, pending: seq<Entry>)
    requires n < |winners| == |attempts|
    requires Accounted(winners, attempts, n, before, after, backlog, pending)
    requires winners[n].cid !in after && attempts[n].Passed?
    ensures var e := winners[n];
            Accounted(winners, attempts, n + 1, before, after[e.cid := Pending(e.bundle)], backlog, pending + [e])
  {
    var e := winners[n];
    var grown, admitted := after[e.cid := Pending(e.bundle)], pending + [e];
    forall f | f in admitted
      ensures AttemptedAs(winners, attempts, n + 1, f, true)
      ensures f.cid !in before && f.cid in grown && grown[f.cid] == Pending(f.bundle)
    {
      AttemptedSoFar(winners, attempts, n, f, true);
    }
    forall f | f in backlog ensures AttemptedAs(winners, attempts, n + 1, f, false) {
      AttemptedSoFar(winners, attempts, n, f, false);
    }
    forall c | c in grown && c !in before ensures Entry(c, grown[c].bundle) in admitted {
      assert c != e.cid ==> Entry(c, after[c].bundle) in pending;
      assert admitted[|pending|] == e;
    }
  }

  /**
   Every restored bundle is admitted, was refused by the offline check, or waits in the backlog;
   nothing already admitted changes, and exactly the newly admitted ones are pending.
   */
  ghost predicate Accounted(winners: seq<Entry>, attempts: seq<Attempt>, n: nat, before: Members, after: Members,
                            backlog: seq<Entry>, pending: seq<Entry>)
    requires n <= |winners| == |attempts|
  {
    && (forall i :: 0 <= i < n ==> winners[i].cid in after || attempts[i].Refused? || winners[i] in backlog)
    && (forall c :: c in before ==> c in after && after[c] == before[c])
    && (forall e :: e in pending ==> e.cid !in before && e.cid in after && after[e.cid] == Pending(e.bundle))
    && (forall c :: c in after && c !in before ==> Entry(c, after[c].bundle) in pending)
    && (forall e :: e in pending ==> AttemptedAs(winners, attempts, n, e, true))
    && (forall e :: e in backlog ==> AttemptedAs(winners, attempts, n, e, false))
  }

  /** Which bundles a prune drops depends on the bundles and on who is settled, nothing else. */
  lemma PrunedByFlags(clock: Clock, s: Members, t: Members, bucket: nat)
    requires s.Keys == t.Keys
    requires forall c :: c in s ==> s[c].bundle == t[c].bundle && (s[c].checks.Settled() <==> t[c].checks.Settled())
    ensures Pruned(clock, s, bucket).Keys == Pruned(clock, t, bucket).Keys
  {
    assert forall c :: c in s ==> At(s, c) == At(t, c);
    assert forall c :: IsWinner(s, s.Keys, c) <==> IsWinner(t, t.Keys, c);
    assert forall b :: ProvisionalWinner(s, b) <==> ProvisionalWinner(t, b);
  }

  predicate Confirmed(checks: Checks) {
    checks.chainVerified && checks.nameResolved != Some(false)
  }

  lemma CutMeans(clock: Clock, bundles: map<Cid, Bundle>, checks: map<Cid, Checks>, bucket: nat)
    requires bundles.Keys == checks.Keys
    ensures forall c :: c in CheckpointView(clock, Joined(bundles, checks), bucket) <==> ServesAt(clock, bundles, checks, bucket, c)
  {
    var s := Joined(bundles, checks);
    forall c ensures c in CheckpointView(clock, s, bucket) <==> ServesAt(clock, bundles, checks, bucket, c) {
      ViewsMean(clock, s, bucket, c);
      assert forall d <- bundles :: At(s, d) == Entry(d, bundles[d]) && s[d].checks == checks[d];
    }
  }

  /** Confirmed, still counting, and beaten by no confirmed bundle of its wallet. */
  ghost predicate ServesAt(clock: Clock, bundles: map<Cid, Bundle>, checks: map<Cid, Checks>, bucket: nat, c: Cid)
    requires bundles.Keys == checks.Keys
  {
    && c in bundles && Confirmed(checks[c]) && CountsIn(clock, bundles[c], bucket)
    && forall d | d in bundles && Confirmed(checks[d]) && ToLower(bundles[d].address) == ToLower(bundles[c].address) ::
         !Above(Entry(d, bundles[d]), Entry(c, bundles[c]))
  }

  /** Bundles and checks without the same CIDs are the pruned members. */
  lemma PrunedTogether(clock: Clock, bundles: map<Cid, Bundle>, checks: map<Cid, Checks>, provisional: set<Cid>, bucket: nat, removed: set<Cid>)
    requires bundles.Keys == checks.Keys && provisional == set c | c in checks && !checks[c].Settled()
    requires View(bundles - removed, provisional) == Pruned(clock, View(bundles, provisional), bucket)
    ensures Joined(bundles - removed, checks - removed) == Pruned(clock, Joined(bundles, checks), bucket)
  {
    PrunedByFlags(clock, Joined(bundles, checks), View(bundles, provisional), bucket);
    assert View(bundles - removed, provisional).Keys == (bundles - removed).Keys;
  }

  lemma CutIsCheckpoint(clock: Clock, bundles: map<Cid, Bundle>, s: Members, settled: set<Cid>, bucket: nat,
                        winners: set<Entry>, cut: map<Cid, Bundle>)
    requires s.Keys == bundles.Keys && forall c :: c in s ==> s[c].bundle == bundles[c]
    requires settled == SettledIn(s)
    requires forall e :: e in winners <==>
               e.cid in bundles && e.bundle == bundles[e.cid]
               && IsWinner(View(bundles, {}), settled, e.cid) && !clock.IsExpired(e.bundle, bucket)
    requires cut.Keys == set e | e in winners :: e.cid
    requires forall c :: c in cut ==> c in bundles && cut[c] == bundles[c]
    ensures cut == CheckpointView(clock, s, bucket)
  {
    SameWinners(bundles, s, settled);
    forall c | c in CheckpointView(clock, s, bucket) ensures c in set e | e in winners :: e.cid {
      assert Entry(c, bundles[c]) in winners;
    }
  }

  lemma SameWinners(bundles: map<Cid, Bundle>, s: Members, eligible: set<Cid>)
    requires s.Keys == bundles.Keys && forall c :: c in s ==> s[c].bundle == bundles[c]
    ensures forall c :: IsWinner(s, eligible, c) <==> IsWinner(View(bundles, {}), eligible, c)
  {
    var t := View(bundles, {});
    assert forall c :: c in s ==> At(s, c) == At(t, c);
  }
}
