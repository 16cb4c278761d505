/**
 What the background verifier tells its host, bundle by bundle: a protocol that every run follows,
 and what a cached verdict or an eviction is evidence of.
 */
module BackgroundSettlement {
  import opened Wrappers
  import opened Bundles
  import Gate
  import GateVerdicts
  import opened BackgroundModel
  import opened BackgroundSafety

  // ---- the protocol of one bundle ----

  /** Where one bundle stands, judged only by what the host has been told. */
  datatype Phase =
    | Settled
    | Waiting(bundle: Bundle, queuedAt: nat)
    | Notified(bundle: Bundle)
    | NamesDone(bundle: Bundle)
    | Rejecting(gate: Gate.Result)
    | Broken

  predicate About(e: Event, c: Cid) {
    !e.InfraFailed? && !e.IdleResolved? && e.cid == c
  }

  predicate Refused(gate: Gate.Result) {
    gate.satisfied != Gate.Yes
  }

  /** The key the first vote for `name` claims. */
  function FirstClaim(votes: seq<Vote>, name: string): Option<string> {
    if votes == [] then None
    else if votes[0].name == Some(name) then Some(votes[0].publicKey)
    else FirstClaim(votes[1..], name)
  }

  /** Every carried name is resolved, to what its first vote claims. */
  ghost predicate NamesSettled(bundle: Bundle, resolved: map<string, string>) {
    && (forall i :: 0 <= i < |bundle.votes| && bundle.votes[i].name.Some? ==> bundle.votes[i].name.value in resolved)
    && (forall name <- resolved :: FirstClaim(bundle.votes, name) == Some(resolved[name]))
  }

  ghost predicate Verified(bundle: Bundle, item: Item) {
    && item.bundle == bundle
    && item.gate.Some? && item.gate.value.satisfied == Gate.Yes
    && NamesSettled(bundle, item.resolvedNames)
  }

  ghost function Next(p: Phase, e: Event, grace: nat): Phase {
    match e
    case Enqueued(_, bundle, at) =>
      if p.Settled? then Waiting(bundle, at) else Broken
    case GateVerified(_) =>
      if p.Waiting? then Notified(p.bundle) else Broken
    case NameResolved(_) =>
      if p.Notified? && CarriesName(p.bundle) then NamesDone(p.bundle) else Broken
    case Cached(_, Valid(item)) =>
      if (p.NamesDone? || (p.Notified? && !CarriesName(p.bundle))) && Verified(p.bundle, item) then Settled else Broken
    case Cached(_, Reject(gate)) =>
      if p.Waiting? && Refused(gate) && GateVerdicts.GatePenalize(gate) then Rejecting(gate) else Broken
    case Evicted(_, Attributable(gate)) =>
      if p == Rejecting(gate) then Settled else Broken
    case Evicted(_, GraceOver(gate, since, at)) =>
      if p.Waiting? && since == p.queuedAt && since + grace <= at && Refused(gate) && !GateVerdicts.GatePenalize(gate)
      then Settled else Broken
    case Evicted(_, BadName(name)) =>
      if p.Notified? && FirstClaim(p.bundle.votes, name).Some? then Settled else Broken
    case _ => p
  }

  /** The phase a log leaves bundle `c` in. */
  ghost function Follow(log: seq<Event>, c: Cid, grace: nat): Phase {
    if log == [] then Settled
    else
      var p, e := Follow(log[..|log| - 1], c, grace), log[|log| - 1];
      if About(e, c) then Next(p, e, grace) else p
  }

  lemma FollowOne(log: seq<Event>, e: Event, c: Cid, grace: nat)
    ensures Follow(log + [e], c, grace)
         == if About(e, c) then Next(Follow(log, c, grace), e, grace) else Follow(log, c, grace)
  {
    assert (log + [e])[..|log|] == log;
  }

  lemma FollowTwo(log: seq<Event>, e: Event, f: Event, c: Cid, grace: nat)
    ensures Follow(log + [e, f], c, grace) == Follow((log + [e]) + [f], c, grace)
  {
    assert log + [e, f] == (log + [e]) + [f];
  }

  // ---- the invariant ----

  predicate Holds(s: State, item: Item) {
    || item in s.queue
    || (s.round.Some? && (item in s.round.value.batch || item in s.round.value.requeue || item in s.round.value.notYet))
  }

  /** An item held for a bundle agrees with what the host was told about it. */
  ghost predicate Tracks(s: State, item: Item, grace: nat) {
    && Follow(s.log, item.cid, grace) == (if item.gateNotified then Notified(item.bundle) else Waiting(item.bundle, item.queuedAt))
    && (item.gateDone ==> item.gate.Some?)
    && (item.gateNotified ==> item.gateDone && !Refused(item.gate.value))
    && item.queuedAt <= s.now
    && (forall name <- item.resolvedNames :: FirstClaim(item.bundle.votes, name) == Some(item.resolvedNames[name]))
  }

  ghost predicate Followed(s: State, c: Cid, grace: nat) {
    && (c !in s.inFlight ==> Follow(s.log, c, grace) == Settled)
    && (forall item :: Holds(s, item) && item.cid == c ==> Tracks(s, item, grace))
    && (s.round.Some? && s.round.value.stage.AwaitingName? && s.round.value.batch != [] && s.round.value.batch[0].cid == c
        ==> s.round.value.batch[0].gateNotified)
  }

  lemma {:induction false} CountZero(items: seq<Item>, c: Cid)
    ensures Count(items, c) == 0 <==> forall item <- items :: item.cid != c
  {
    if items != [] {
      CountZero(items[1..], c);
      assert items == [items[0]] + items[1..];
    }
  }

  lemma NotInFlightNotHeld(s: State, c: Cid)
    requires HeldOnce(s, c) && c !in s.inFlight
    ensures forall item :: Holds(s, item) ==> item.cid != c
  {
    CountZero(s.queue, c);
    if s.round.Some? {
      CountZero(s.round.value.batch, c);
      CountZero(s.round.value.requeue, c);
      CountZero(s.round.value.notYet, c);
    }
  }

  /** Nothing else in hand is for the bundle of the batch's first item. */
  lemma FirstIsAlone(s: State, r: Round)
    requires s.round == Some(r) && r.batch != [] && HeldOnce(s, r.batch[0].cid)
    ensures r.batch[0].cid in s.inFlight
    ensures forall item :: item in s.queue || item in r.batch[1..] || item in r.requeue || item in r.notYet
                       ==> item.cid != r.batch[0].cid
  {
    var c := r.batch[0].cid;
    FirstItemMoves(r, r.batch[0], c);
    CountZero(s.queue, c);
    CountZero(r.batch[1..], c);
    CountZero(r.requeue, c);
    CountZero(r.notYet, c);
  }

  // ---- steps ----

  /** The item of a bundle that is newly enqueued. */
  lemma EnqueuedTracks(s: State, e: Entry, grace: nat)
    requires e.cid !in s.inFlight && Follow(s.log, e.cid, grace).Settled?
    ensures Tracks(EnqueueOne(s, e), Item(e.cid, e.bundle, false, false, map[], None, s.now), grace)
  {
    FollowOne(s.log, Enqueued(e.cid, e.bundle, s.now), e.cid, grace);
  }

  /** Enqueuing another bundle adds only that one's item, and says nothing of this one. */
  lemma EnqueueAnotherFollowed(s: State, e: Entry, c: Cid, grace: nat)
    requires Followed(s, c, grace) && e.cid != c && e.cid !in s.inFlight
    ensures Followed(EnqueueOne(s, e), c, grace)
  {
    FollowOne(s.log, Enqueued(e.cid, e.bundle, s.now), c, grace);
    assert forall item :: Holds(EnqueueOne(s, e), item) && item.cid == c ==> Holds(s, item);
  }

  lemma EnqueueNewFollowed(s: State, e: Entry, grace: nat)
    requires HeldOnce(s, e.cid) && Followed(s, e.cid, grace) && e.cid !in s.inFlight
    ensures Followed(EnqueueOne(s, e), e.cid, grace)
  {
    NotInFlightNotHeld(s, e.cid);
    EnqueuedTracks(s, e, grace);
  }

  lemma EnqueueOneFollowed(s: State, e: Entry, c: Cid, grace: nat)
    requires HeldOnce(s, c) && Followed(s, c, grace)
    ensures Followed(EnqueueOne(s, e), c, grace)
  {
    if e.cid !in s.inFlight {
      if e.cid == c { EnqueueNewFollowed(s, e, grace); } else { EnqueueAnotherFollowed(s, e, c, grace); }
    }
  }

  lemma {:induction false} EnqueueAllFollowed(s: State, entries: seq<Entry>, c: Cid, grace: nat)
    requires HeldOnce(s, c) && Followed(s, c, grace)
    ensures Followed(EnqueueAll(s, entries), c, grace)
  {
    if entries != [] {
      var n := |entries| - 1;
      EnqueueAllWork(s, entries[..n], c);
      EnqueueAllFollowed(s, entries[..n], c, grace);
      EnqueueOneFollowed(EnqueueAll(s, entries[..n]), entries[n], c, grace);
    }
  }

  /** Emitting idleness, starting a round and rearranging the queue are silent for every bundle. */
  lemma SilentStep(s: State, t: State, c: Cid, grace: nat)
    requires Followed(s, c, grace) && t.inFlight == s.inFlight && t.now >= s.now
    requires t.log == s.log || t.log == s.log + [IdleResolved] || t.log == s.log + [InfraFailed]
             || t.log == s.log + [InfraFailed, IdleResolved]
    requires forall item :: Holds(t, item) ==> Holds(s, item)
    requires t.round.Some? && t.round.value.stage.AwaitingName? ==> t.round == s.round
    ensures Followed(t, c, grace)
  {
    FollowOne(s.log, IdleResolved, c, grace);
    FollowOne(s.log, InfraFailed, c, grace);
    FollowOne(s.log + [InfraFailed], IdleResolved, c, grace);
    FollowTwo(s.log, InfraFailed, IdleResolved, c, grace);
  }

  /** The first item settles: for its own bundle the log must end settled. */
  lemma SettleFollowed(s: State, r: Round, events: seq<Event>, c: Cid, grace: nat)
    requires s.round == Some(r) && r.batch != [] && HeldOnce(s, r.batch[0].cid)
    requires Followed(s, c, grace)
    requires Follow(s.log + events, c, grace) == if c == r.batch[0].cid then Settled else Follow(s.log, c, grace)
    ensures Followed(Settle(s, r, events), c, grace)
  {
    FirstIsAlone(s, r);
  }

  /** The first item moves on without being settled. */
  lemma MoveFollowed(s: State, t: State, r: Round, item: Item, c: Cid, grace: nat)
    requires s.round == Some(r) && r.batch != [] && item.cid == r.batch[0].cid && HeldOnce(s, r.batch[0].cid)
    requires Followed(s, c, grace) && t.inFlight == s.inFlight && t.queue == s.queue && t.now == s.now && t.round.Some?
    requires var q := t.round.value;
             || (q.batch == r.batch[1..] && q.requeue == r.requeue + [item] && q.notYet == r.notYet)
             || (q.batch == r.batch[1..] && q.requeue == r.requeue && q.notYet == r.notYet + [item])
             || (q.batch == [item] + r.batch[1..] && q.requeue == r.requeue && q.notYet == r.notYet)
    requires t.round.value.stage.AwaitingName? ==> t.round.value.batch == [item] + r.batch[1..] && item.gateNotified
    requires c != item.cid ==> Follow(t.log, c, grace) == Follow(s.log, c, grace)
    requires c == item.cid ==> Tracks(t, item, grace)
    ensures Followed(t, c, grace)
  {
    FirstIsAlone(s, r);
  }

  lemma RejectFollowed(s: State, r: Round, gate: Gate.Result, c: Cid, grace: nat)
    requires s.round == Some(r) && r.batch != [] && HeldOnce(s, r.batch[0].cid) && Followed(s, c, grace)
    requires Follow(s.log, r.batch[0].cid, grace).Waiting? && Refused(gate) && GateVerdicts.GatePenalize(gate)
    ensures var cid := r.batch[0].cid;
            Followed(Settle(s, r, [Cached(cid, Reject(gate)), Evicted(cid, Attributable(gate))]), c, grace)
  {
    var cached, evicted := Cached(r.batch[0].cid, Reject(gate)), Evicted(r.batch[0].cid, Attributable(gate));
    FollowTwo(s.log, cached, evicted, c, grace);
    FollowOne(s.log, cached, c, grace);
    FollowOne(s.log + [cached], evicted, c, grace);
    SettleFollowed(s, r, [cached, evicted], c, grace);
  }

  lemma GraceFollowed(s: State, r: Round, gate: Gate.Result, c: Cid, grace: nat)
    requires s.round == Some(r) && r.batch != [] && HeldOnce(s, r.batch[0].cid) && Followed(s, c, grace)
    requires Tracks(s, r.batch[0], grace) && !r.batch[0].gateNotified
    requires Refused(gate) && !GateVerdicts.GatePenalize(gate) && s.now - r.batch[0].queuedAt >= grace
    ensures var item := r.batch[0];
            Followed(Settle(s, r, [Evicted(item.cid, GraceOver(gate, item.queuedAt, s.now))]), c, grace)
  {
    var evicted := Evicted(r.batch[0].cid, GraceOver(gate, r.batch[0].queuedAt, s.now));
    FollowOne(s.log, evicted, c, grace);
    SettleFollowed(s, r, [evicted], c, grace);
  }

  lemma NotifyFollowed(s: State, t: State, r: Round, c: Cid, grace: nat)
    requires s.round == Some(r) && r.batch != [] && HeldOnce(s, r.batch[0].cid) && Followed(s, c, grace)
    requires var item := r.batch[0]; Tracks(s, item, grace) && item.gateDone && !Refused(item.gate.value)
    requires var item := r.batch[0];
             t == (if item.gateNotified then s else Emit(s, GateVerified(item.cid)))
                  .(round := Some(r.(batch := [item.(gateNotified := true)] + r.batch[1..], stage := AwaitingName)))
    ensures Followed(t, c, grace)
  {
    var item := r.batch[0];
    FollowOne(s.log, GateVerified(item.cid), c, grace);
    MoveFollowed(s, t, r, item.(gateNotified := true), c, grace);
  }

  lemma ProcessFollowed(s: State, r: Round, grace: nat, c: Cid)
    requires s.round == Some(r) && r.batch != [] && r.stage.BetweenItems? && HeldOnce(s, r.batch[0].cid)
    requires Followed(s, c, grace) && Tracks(s, r.batch[0], grace)
    ensures Followed(ProcessItem(s, r, grace), c, grace)
  {
    var item, t := r.batch[0], ProcessItem(s, r, grace);
    if !item.gateDone {
      MoveFollowed(s, t, r, item, c, grace);
    } else if !Refused(item.gate.value) {
      NotifyFollowed(s, t, r, c, grace);
    } else if GateVerdicts.GatePenalize(item.gate.value) {
      RejectFollowed(s, r, item.gate.value, c, grace);
    } else if s.now - item.queuedAt < grace {
      MoveFollowed(s, t, r, item.(gateDone := false), c, grace);
    } else {
      GraceFollowed(s, r, item.gate.value, c, grace);
    }
  }

  lemma {:induction false} FirstClaimFound(votes: seq<Vote>, i: nat)
    requires i < |votes| && votes[i].name.Some?
    requires forall k :: 0 <= k < i ==> votes[k].name != votes[i].name
    ensures FirstClaim(votes, votes[i].name.value) == Some(votes[i].publicKey)
  {
    if i > 0 { FirstClaimFound(votes[1..], i - 1); }
  }

  /** The name about to be resolved is claimed first by the vote at hand. */
  lemma NextNameIsFirst(item: Item)
    requires NextName(item, 0) < |item.bundle.votes|
    ensures var vote := item.bundle.votes[NextName(item, 0)];
            vote.name.Some? && FirstClaim(item.bundle.votes, vote.name.value) == Some(vote.publicKey)
  {
    var i := NextName(item, 0);
    forall k | 0 <= k < i ensures item.bundle.votes[k].name != item.bundle.votes[i].name {
      assert !Unresolved(item, k);
    }
    FirstClaimFound(item.bundle.votes, i);
  }

  lemma AllNamesSettled(item: Item)
    requires NextName(item, 0) == |item.bundle.votes|
    requires forall name <- item.resolvedNames :: FirstClaim(item.bundle.votes, name) == Some(item.resolvedNames[name])
    ensures NamesSettled(item.bundle, item.resolvedNames)
  {
    forall i | 0 <= i < |item.bundle.votes| && item.bundle.votes[i].name.Some?
      ensures item.bundle.votes[i].name.value in item.resolvedNames
    {
      assert !Unresolved(item, i);
    }
  }

  /** A notified bundle's last events: its names, if it carries any, and its valid verdict. */
  lemma VerifiedLog(log: seq<Event>, item: Item, c: Cid, grace: nat)
    requires Follow(log, item.cid, grace) == Notified(item.bundle) && Verified(item.bundle, item)
    ensures var last := (if CarriesName(item.bundle) then [NameResolved(item.cid)] else []) + [Cached(item.cid, Valid(item))];
            Follow(log + last, c, grace) == if c == item.cid then Settled else Follow(log, c, grace)
  {
    var named, cached := NameResolved(item.cid), Cached(item.cid, Valid(item));
    if CarriesName(item.bundle) {
      assert [named] + [cached] == [named, cached];
      FollowTwo(log, named, cached, c, grace);
      FollowOne(log, named, c, grace);
      FollowOne(log + [named], cached, c, grace);
    } else {
      assert [] + [cached] == [cached];
      FollowOne(log, cached, c, grace);
    }
  }

  lemma VerifiedFollowed(s: State, r: Round, c: Cid, grace: nat)
    requires s.round == Some(r) && r.batch != [] && HeldOnce(s, r.batch[0].cid)
    requires Followed(s, c, grace) && Tracks(s, r.batch[0], grace) && r.batch[0].gateNotified
    requires NextName(r.batch[0], 0) == |r.batch[0].bundle.votes|
    ensures Followed(AfterName(s, r, NoResolver), c, grace)
  {
    var item := r.batch[0];
    AllNamesSettled(item);
    VerifiedLog(s.log, item, c, grace);
    SettleFollowed(s, r, (if CarriesName(item.bundle) then [NameResolved(item.cid)] else []) + [Cached(item.cid, Valid(item))], c, grace);
  }

  lemma ResolvedFollowed(s: State, t: State, r: Round, name: string, key: string, c: Cid, grace: nat)
    requires s.round == Some(r) && r.batch != [] && r.stage.AwaitingName? && HeldOnce(s, r.batch[0].cid)
    requires Followed(s, c, grace) && Tracks(s, r.batch[0], grace) && r.batch[0].gateNotified
    requires FirstClaim(r.batch[0].bundle.votes, name) == Some(key)
    requires var resolved := r.batch[0].(resolvedNames := r.batch[0].resolvedNames[name := key]);
             t == s.(round := Some(r.(batch := [resolved] + r.batch[1..])))
    ensures Followed(t, c, grace)
  {
    var resolved := r.batch[0].(resolvedNames := r.batch[0].resolvedNames[name := key]);
    assert Tracks(t, resolved, grace);
    MoveFollowed(s, t, r, resolved, c, grace);
  }

  lemma BadNameFollowed(s: State, r: Round, name: string, c: Cid, grace: nat)
    requires s.round == Some(r) && r.batch != [] && HeldOnce(s, r.batch[0].cid) && Followed(s, c, grace)
    requires Tracks(s, r.batch[0], grace) && r.batch[0].gateNotified && FirstClaim(r.batch[0].bundle.votes, name).Some?
    ensures Followed(Settle(s, r, [Evicted(r.batch[0].cid, BadName(name))]), c, grace)
  {
    var evicted := Evicted(r.batch[0].cid, BadName(name));
    FollowOne(s.log, evicted, c, grace);
    SettleFollowed(s, r, [evicted], c, grace);
  }

  lemma NameFollowed(s: State, r: Round, resolution: Resolution, c: Cid, grace: nat)
    requires s.round == Some(r) && r.batch != [] && r.stage.AwaitingName? && HeldOnce(s, r.batch[0].cid)
    requires Followed(s, c, grace) && Followed(s, r.batch[0].cid, grace)
    ensures Followed(AfterName(s, r, resolution), c, grace)
  {
    var item, t := r.batch[0], AfterName(s, r, resolution);
    assert Holds(s, item);
    var i := NextName(item, 0);
    if i == |item.bundle.votes| {
      VerifiedFollowed(s, r, c, grace);
    } else {
      var vote := item.bundle.votes[i];
      NextNameIsFirst(item);
      if resolution.ResolverThrew? {
        MoveFollowed(s, t, r, item, c, grace);
      } else if resolution.ResolvesTo? && resolution.publicKey == vote.publicKey {
        ResolvedFollowed(s, t, r, vote.name.value, vote.publicKey, c, grace);
      } else {
        BadNameFollowed(s, r, vote.name.value, c, grace);
      }
    }
  }

  lemma GateFollowed(s: State, r: Round, scores: Option<Scores>, c: Cid, grace: nat)
    requires s.round == Some(r) && Followed(s, c, grace)
    ensures Followed(AfterGate(s, r, scores), c, grace)
  {
    var t := AfterGate(s, r, scores);
    forall item | Holds(t, item) && item.cid == c ensures Tracks(t, item, grace) {
      if item in t.round.value.batch && scores.Some? {
        var i :| 0 <= i < |r.batch| && item == Gated(r.batch[i], scores.value);
        assert Holds(s, r.batch[i]);
      } else {
        assert Holds(s, item);
      }
    }
  }

  lemma StepFollowed(s: State, op: Op, c: Cid, grace: nat)
    requires WorkInv(s) && DrainInv(s) && forall d :: Followed(s, d, grace)
    ensures Followed(Step(s, op, grace), c, grace)
  {
    if Enabled(s, op) {
      var t := Step(s, op, grace);
      assert HeldOnce(s, c) && Followed(s, c, grace);
      match op
      case Enqueue(entries) =>
        EnqueueAllDrain(s, entries);
        EnqueueAllFollowed(s, entries, c, grace);
        SilentStep(EnqueueAll(s, entries), t, c, grace);
      case GateReturns(scores) => GateFollowed(s, s.round.value, scores, c, grace);
      case NextItem =>
        var r := s.round.value;
        if r.batch == [] { SilentStep(s, t, c, grace); }
        else {
          assert HeldOnce(s, r.batch[0].cid) && Followed(s, r.batch[0].cid, grace) && Holds(s, r.batch[0]);
          ProcessFollowed(s, r, grace, c);
        }
      case NameReturns(resolution) =>
        var r := s.round.value;
        assert HeldOnce(s, r.batch[0].cid) && Followed(s, r.batch[0].cid, grace);
        NameFollowed(s, r, resolution, c, grace);
      case _ => SilentStep(s, t, c, grace);
    }
  }

  /**
   Main result on settlement. On every run, what the host is told of each bundle follows the protocol
   `Next`: enqueued, then refused (evicted with proof, or after its whole grace window) or gate-verified
   once, then its names once, then one valid verdict or one eviction, never both; and a bundle is still
   pending exactly when it is in flight.
   */
  lemma {:induction false} EveryBundleSettlesOnce(ops: seq<Op>, c: Cid, grace: nat)
    ensures var p := Follow(Run(ops, grace).log, c, grace);
            && !p.Broken?
            && (p.Waiting? || p.Notified? <==> c in Run(ops, grace).inFlight)
            && (p.Settled? <==> c !in Run(ops, grace).inFlight)
  {
    EveryRunFollowed(ops, grace);
    NothingIsStranded(ops, grace);
    var s := Run(ops, grace);
    assert HeldOnce(s, c) && Followed(s, c, grace);
    if c in s.inFlight {
      HeldIsTracked(s, c, grace);
    }
  }

  lemma HeldIsTracked(s: State, c: Cid, grace: nat)
    requires HeldOnce(s, c) && c in s.inFlight && Followed(s, c, grace)
    ensures exists item :: Holds(s, item) && item.cid == c && Tracks(s, item, grace)
  {
    CountZero(s.queue, c);
    if s.round.Some? {
      CountZero(s.round.value.batch, c);
      CountZero(s.round.value.requeue, c);
      CountZero(s.round.value.notYet, c);
    }
    assert exists item :: Holds(s, item) && item.cid == c;
  }

  lemma {:induction false} EveryRunFollowed(ops: seq<Op>, grace: nat)
    ensures forall c :: Followed(Run(ops, grace), c, grace)
  {
    if ops != [] {
      var n := |ops| - 1;
      EveryRunFollowed(ops[..n], grace);
      NothingIsStranded(ops[..n], grace);
      assert WorkInv(Run(ops[..n], grace));
      forall c ensures Followed(Run(ops, grace), c, grace) {
        StepFollowed(Run(ops[..n], grace), ops[n], c, grace);
      }
    }
  }

  // ---- what a step tells ----

  lemma {:induction false} EnqueueAllEvents(s: State, entries: seq<Entry>)
    ensures var t := EnqueueAll(s, entries);
            && s.log <= t.log
            && forall e <- t.log[|s.log|..] :: e.Enqueued? && Entry(e.cid, e.bundle) in entries
  {
    if entries != [] {
      var n := |entries| - 1;
      EnqueueAllEvents(s, entries[..n]);
      var t, u := EnqueueAll(s, entries[..n]), EnqueueAll(s, entries);
      forall e | e in u.log[|s.log|..] ensures e.Enqueued? && Entry(e.cid, e.bundle) in entries {
        assert entries == entries[..n] + [entries[n]];
        if e !in t.log[|s.log|..] {
          assert u.log == t.log + [Enqueued(entries[n].cid, entries[n].bundle, t.now)];
          assert u.log[|s.log|..] == t.log[|s.log|..] + [Enqueued(entries[n].cid, entries[n].bundle, t.now)];
        }
      }
    }
  }

  /** The log only grew, by events that enqueue nobody. */
  ghost predicate GrewQuietly(s: State, t: State) {
    s.log <= t.log && forall e <- t.log[|s.log|..] :: !e.Enqueued?
  }

  lemma ProcessIsQuiet(s: State, r: Round, grace: nat)
    requires r.batch != []
    ensures GrewQuietly(s, ProcessItem(s, r, grace))
  {
  }

  lemma EndIsQuiet(s: State, r: Round)
    ensures GrewQuietly(s, EndRound(s, r))
  {
  }

  lemma NameIsQuiet(s: State, r: Round, resolution: Resolution)
    requires r.batch != []
    ensures GrewQuietly(s, AfterName(s, r, resolution))
  {
  }

  lemma KickIsQuiet(s: State)
    ensures GrewQuietly(s, MaybeResolveIdle(s)) && GrewQuietly(s, DrainLoop(s))
    ensures KickDrain(s).log == s.log || KickDrain(s).log == s.log + [IdleResolved]
  {
  }

  lemma OthersAreQuiet(s: State, op: Op, grace: nat)
    requires !op.Enqueue?
    ensures GrewQuietly(s, Step(s, op, grace))
  {
    if Enabled(s, op) {
      match op
      case NextItem =>
        if s.round.value.batch == [] { EndIsQuiet(s, s.round.value); } else { ProcessIsQuiet(s, s.round.value, grace); }
      case NameReturns(resolution) => NameIsQuiet(s, s.round.value, resolution);
      case Stop => KickIsQuiet(s.(stopped := true, retryArmed := false));
      case Resume => KickIsQuiet(s.(stopped := false));
      case TimerFires => KickIsQuiet(s.(retryArmed := false));
      case RoundReturns => KickIsQuiet(s);
      case _ =>
    }
  }

  /** A step adds events; only enqueuing enqueues, and it rules on nobody. */
  lemma NewEvents(s: State, op: Op, grace: nat)
    ensures var t := Step(s, op, grace);
            && s.log <= t.log
            && (forall e <- t.log[|s.log|..] :: e.Enqueued? ==> op.Enqueue? && Entry(e.cid, e.bundle) in op.entries)
            && (op.Enqueue? ==> forall e <- t.log[|s.log|..] :: e.Enqueued? || e.IdleResolved?)
  {
    if op.Enqueue? {
      EnqueueAllEvents(s, op.entries);
      KickIsQuiet(EnqueueAll(s, op.entries));
    } else {
      OthersAreQuiet(s, op, grace);
    }
  }

  // ---- claims on names ----

  predicate SaysValid(log: seq<Event>, i: int) {
    0 <= i < |log| && log[i].Cached? && log[i].verdict.Valid?
  }

  /** One event of a log that never breaks the protocol keeps it. */
  lemma {:induction false} UnbrokenPrefix(log: seq<Event>, c: Cid, grace: nat, i: nat)
    requires i < |log| && !Follow(log, c, grace).Broken? && About(log[i], c)
    ensures !Follow(log[..i], c, grace).Broken?
    ensures !Next(Follow(log[..i], c, grace), log[i], grace).Broken?
  {
    var n := |log| - 1;
    if i < n {
      assert log[..n][..i] == log[..i];
      UnbrokenPrefix(log[..n], c, grace, i);
    }
  }

  predicate SameName(v: Vote, w: Vote) {
    v.name.Some? && v.name == w.name
  }

  /** Votes for one name that all claim one key. */
  ghost predicate NameConsistent(bundle: Bundle) {
    forall i, j :: 0 <= i < |bundle.votes| && 0 <= j < |bundle.votes| && SameName(bundle.votes[i], bundle.votes[j])
      ==> bundle.votes[i].publicKey == bundle.votes[j].publicKey
  }

  /** Every carried name was resolved to the key its vote claims. */
  ghost predicate AllClaimsResolved(bundle: Bundle, resolved: map<string, string>) {
    forall i :: 0 <= i < |bundle.votes| && bundle.votes[i].name.Some?
      ==> bundle.votes[i].name.value in resolved && resolved[bundle.votes[i].name.value] == bundle.votes[i].publicKey
  }

  lemma {:induction false} FirstClaimIsAVote(votes: seq<Vote>, name: string)
    requires FirstClaim(votes, name).Some?
    ensures exists i :: 0 <= i < |votes| && votes[i].name == Some(name) && FirstClaim(votes, name) == Some(votes[i].publicKey)
  {
    if votes[0].name != Some(name) {
      FirstClaimIsAVote(votes[1..], name);
      var i :| 0 <= i < |votes[1..]| && votes[1..][i].name == Some(name)
             && FirstClaim(votes[1..], name) == Some(votes[1..][i].publicKey);
      assert votes[i + 1] == votes[1..][i];
    }
  }

  lemma ClaimsResolvedExactly(bundle: Bundle, resolved: map<string, string>)
    requires NamesSettled(bundle, resolved)
    ensures AllClaimsResolved(bundle, resolved) <==> NameConsistent(bundle)
  {
    if NameConsistent(bundle) {
      forall i | 0 <= i < |bundle.votes| && bundle.votes[i].name.Some?
        ensures resolved[bundle.votes[i].name.value] == bundle.votes[i].publicKey
      {
        FirstClaimIsAVote(bundle.votes, bundle.votes[i].name.value);
      }
    }
  }

  const TWO_CLAIMS := Bundle("0xa", [Vote("k1", Some("n"), 1), Vote("k2", Some("n"), 1)], 0, [])

  function TwoClaimsRun(scores: Scores): seq<Op> {
    [Enqueue([Entry([1], TWO_CLAIMS)]), GateReturns(Some(scores)), NextItem,
     NameReturns(ResolvesTo("k1")), NameReturns(ResolvesTo("k1"))]
  }

  function TwoClaimsItem(scores: Scores, told: bool, names: map<string, string>): Item {
    Item([1], TWO_CLAIMS, told, told, names, if told then Some(scores(TWO_CLAIMS)) else None, 0)
  }

  /** Where that run stands while its bundle is alone in a round. */
  function TwoClaimsState(item: Item, stage: Stage, log: seq<Event>): State {
    State([], {[1]}, true, false, false, Some(Round([item], [], [], stage)), 0, 0, log)
  }

  lemma TwoClaimsQueued(scores: Scores)
    ensures Step(INITIAL, TwoClaimsRun(scores)[0], 0)
         == TwoClaimsState(TwoClaimsItem(scores, false, map[]), AwaitingGate, [Enqueued([1], TWO_CLAIMS, 0)])
  {
    var e := Entry([1], TWO_CLAIMS);
    assert [e][..0] == [] && EnqueueAll(INITIAL, [e]) == EnqueueOne(INITIAL, e);
    assert INITIAL.queue + [TwoClaimsItem(scores, false, map[])] == [TwoClaimsItem(scores, false, map[])];
    assert INITIAL.log + [Enqueued([1], TWO_CLAIMS, 0)] == [Enqueued([1], TWO_CLAIMS, 0)];
    assert INITIAL.inFlight + {[1]} == {[1]};
  }

  lemma TwoClaimsTold(scores: Scores, log: seq<Event>)
    requires scores(TWO_CLAIMS).satisfied == Gate.Yes
    ensures Step(Step(TwoClaimsState(TwoClaimsItem(scores, false, map[]), AwaitingGate, log), GateReturns(Some(scores)), 0), NextItem, 0)
         == TwoClaimsState(TwoClaimsItem(scores, true, map[]), AwaitingName, log + [GateVerified([1])])
  {
    var item := TwoClaimsItem(scores, false, map[]);
    var gated := item.(gate := Some(scores(TWO_CLAIMS)), gateDone := true);
    assert GatedAll([item], scores) == [gated];
    var told := gated.(gateNotified := true);
    assert [told] + [gated][1..] == [told];
    var between := TwoClaimsState(gated, BetweenItems, log);
    assert Step(TwoClaimsState(item, AwaitingGate, log), GateReturns(Some(scores)), 0) == between;
    assert ProcessItem(between, between.round.value, 0) == TwoClaimsState(told, AwaitingName, log + [GateVerified([1])]);
  }

  lemma TwoClaimsNamed(scores: Scores, log: seq<Event>)
    ensures var named := TwoClaimsItem(scores, true, map["n" := "k1"]);
            var s := TwoClaimsState(TwoClaimsItem(scores, true, map[]), AwaitingName, log);
            && Step(s, NameReturns(ResolvesTo("k1")), 0) == TwoClaimsState(named, AwaitingName, log)
            && Step(TwoClaimsState(named, AwaitingName, log), NameReturns(ResolvesTo("k1")), 0).log
               == log + [NameResolved([1]), Cached([1], Valid(named))]
  {
    var told, named := TwoClaimsItem(scores, true, map[]), TwoClaimsItem(scores, true, map["n" := "k1"]);
    assert Unresolved(told, 0) && !Unresolved(named, 0) && !Unresolved(named, 1);
    assert [named] + [told][1..] == [named] && NextName(told, 0) == 0 && NextName(named, 0) == 2;
    assert told.resolvedNames["n" := "k1"] == named.resolvedNames;
    var s, t := TwoClaimsState(told, AwaitingName, log), TwoClaimsState(named, AwaitingName, log);
    assert AfterName(s, s.round.value, ResolvesTo("k1")) == t;
    assert AfterName(t, t.round.value, ResolvesTo("k1"))
        == Settle(t, t.round.value, [NameResolved([1])] + [Cached([1], Valid(named))]);
    assert CarriesName(TWO_CLAIMS) by { assert TWO_CLAIMS.votes[0].name.Some?; }
    assert [NameResolved([1])] + [Cached([1], Valid(named))] == [NameResolved([1]), Cached([1], Valid(named))];
  }

  lemma RunOne(ops: seq<Op>, op: Op, grace: nat)
    ensures Run(ops + [op], grace) == Step(Run(ops, grace), op, grace)
  {
    assert (ops + [op])[..|ops|] == ops;
  }

  /** A bundle claiming one name with two keys, only the first of which the resolver confirms, is cached valid. */
  lemma SecondClaimIsNotCompared(scores: Scores)
    requires scores(TWO_CLAIMS).satisfied == Gate.Yes
    ensures var log := Run(TwoClaimsRun(scores), 0).log;
            && SaysValid(log, |log| - 1)
            && log[|log| - 1].verdict.item.bundle == TWO_CLAIMS
            && !AllClaimsResolved(TWO_CLAIMS, log[|log| - 1].verdict.item.resolvedNames)
  {
    var ops := TwoClaimsRun(scores);
    assert [] + [ops[0]] == ops[..1] && ops[..1] + [ops[1]] == ops[..2] && ops[..2] + [ops[2]] == ops[..3]
           && ops[..3] + [ops[3]] == ops[..4] && ops[..4] + [ops[4]] == ops;
    RunOne([], ops[0], 0);
    RunOne(ops[..1], ops[1], 0);
    RunOne(ops[..2], ops[2], 0);
    RunOne(ops[..3], ops[3], 0);
    RunOne(ops[..4], ops[4], 0);
    TwoClaimsQueued(scores);
    TwoClaimsTold(scores, [Enqueued([1], TWO_CLAIMS, 0)]);
    TwoClaimsNamed(scores, [Enqueued([1], TWO_CLAIMS, 0)] + [GateVerified([1])]);
    assert TWO_CLAIMS.votes[1].publicKey == "k2" && "k1"[1] != "k2"[1];
  }
}
