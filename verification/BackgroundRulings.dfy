/**
 What each answer brings about: the step at which the gate's result is looked at, and the step at which a name
 resolution comes back, rule on the bundle, keep it for later or let it go on, and leave it no other way.
 */
module BackgroundRulings {
  import opened Wrappers
  import opened Bundles
  import Gate
  import GateVerdicts
  import opened BackgroundModel
  import opened BackgroundSafety
  import opened BackgroundEvidence

  /** The first item of the batch is waiting in this stage. */
  predicate First(s: State, item: Item, stage: Stage) {
    s.round.Some? && s.round.value.stage == stage && s.round.value.batch != [] && s.round.value.batch[0] == item
  }

  /** The bundle is done with: told so, and no longer in flight. */
  predicate Closes(s: State, t: State, item: Item, events: seq<Event>) {
    && t.log == s.log + events && t.inFlight == s.inFlight - {item.cid} && t.queue == s.queue
    && s.round.Some? && s.round.value.batch != [] && t.round.Some? && t.round.value.batch == s.round.value.batch[1..]
    && t.round.value.requeue == s.round.value.requeue && t.round.value.notYet == s.round.value.notYet
  }

  /** Nobody is told anything, and everybody stays in flight. */
  predicate Silent(s: State, t: State) {
    t.log == s.log && t.inFlight == s.inFlight && t.queue == s.queue && t.round.Some?
  }

  /** The vote whose name is next: the first that carries one not yet resolved. */
  predicate NextVote(item: Item, i: nat) {
    && i < |item.bundle.votes| && item.bundle.votes[i].name.Some? && item.bundle.votes[i].name.value !in item.resolvedNames
    && forall k | 0 <= k < i && item.bundle.votes[k].name.Some? :: item.bundle.votes[k].name.value in item.resolvedNames
  }

  /**
   A resolution that comes back for the vote being waited for: no resolver, no record or another key than that
   vote claims evicts the bundle at once, and tells nothing else; a resolver that threw sets it aside as it is;
   the claimed key is remembered and the next name is waited for.
   */
  lemma NameAnswerDecides(s: State, item: Item, i: nat, resolution: Resolution, grace: nat)
    requires First(s, item, AwaitingName) && NextVote(item, i)
    ensures var t, name, claimed := Step(s, NameReturns(resolution), grace), item.bundle.votes[i].name.value, item.bundle.votes[i].publicKey;
            && (resolution.NoResolver? || resolution.DoesNotResolve? || (resolution.ResolvesTo? && resolution.publicKey != claimed) ==>
                  Closes(s, t, item, [Evicted(item.cid, BadName(name))]))
            && (resolution.ResolverThrew? ==>
                  Silent(s, t) && t.round.value.batch == s.round.value.batch[1..] && t.round.value.requeue == s.round.value.requeue + [item]
                  && t.round.value.notYet == s.round.value.notYet)
            && (resolution == ResolvesTo(claimed) ==>
                  Silent(s, t) && First(t, item.(resolvedNames := item.resolvedNames[name := claimed]), AwaitingName)
                  && t.round.value.batch[1..] == s.round.value.batch[1..] && t.round.value.requeue == s.round.value.requeue
                  && t.round.value.notYet == s.round.value.notYet)
  {
    NextIs(item, i);
  }

  lemma NextIs(item: Item, i: nat)
    requires NextVote(item, i)
    ensures NextName(item, 0) == i
  {
    assert Unresolved(item, i);
    assert forall k | 0 <= k < i :: !Unresolved(item, k);
  }

  /** Once every carried name is resolved the bundle is valid: the names are told of if there are any. */
  lemma NamesDoneConfirms(s: State, item: Item, resolution: Resolution, grace: nat)
    requires First(s, item, AwaitingName)
    requires forall v <- item.bundle.votes :: v.name.Some? ==> v.name.value in item.resolvedNames
    ensures var t := Step(s, NameReturns(resolution), grace);
            Closes(s, t, item, (if exists v <- item.bundle.votes :: v.name.Some? then [NameResolved(item.cid)] else [])
                               + [Cached(item.cid, Valid(item))])
  {
    assert forall k | 0 <= k < |item.bundle.votes| :: item.bundle.votes[k] in item.bundle.votes;
    assert forall k | 0 <= k < |item.bundle.votes| :: !Unresolved(item, k);
    if CarriesName(item.bundle) {
      var k :| 0 <= k < |item.bundle.votes| && item.bundle.votes[k].name.Some?;
      assert item.bundle.votes[k] in item.bundle.votes;
    }
  }

  /**
   The gate's result, when its item's turn comes. Ungated: set aside. Refused: cached and evicted at once if the
   refusal is attributable; else looked at again later while the grace window lasts, and evicted after it. Passed:
   confirmed, unless it was before, and the names are next.
   */
  lemma GateAnswerDecides(s: State, item: Item, grace: nat)
    requires First(s, item, BetweenItems)
    ensures var t := Step(s, NextItem, grace);
            && (!item.gateDone ==>
                  Silent(s, t) && t.round.value == s.round.value.(batch := s.round.value.batch[1..], requeue := s.round.value.requeue + [item]))
            && (item.gateDone && item.gate.Some? && item.gate.value.satisfied != Gate.Yes ==>
                  if GateVerdicts.GatePenalize(item.gate.value) then
                    Closes(s, t, item, [Cached(item.cid, Reject(item.gate.value)), Evicted(item.cid, Attributable(item.gate.value))])
                  else if s.now < item.queuedAt + grace then
                    Silent(s, t) && t.round.value == s.round.value.(batch := s.round.value.batch[1..],
                                                                    notYet := s.round.value.notYet + [item.(gateDone := false)])
                  else Closes(s, t, item, [Evicted(item.cid, GraceOver(item.gate.value, item.queuedAt, s.now))]))
            && (item.gateDone && item.gate.Some? && item.gate.value.satisfied == Gate.Yes ==>
                  && t.log == s.log + (if item.gateNotified then [] else [GateVerified(item.cid)])
                  && t.inFlight == s.inFlight && t.queue == s.queue
                  && First(t, item.(gateNotified := true), AwaitingName) && t.round.value.batch[1..] == s.round.value.batch[1..]
                  && t.round.value.requeue == s.round.value.requeue && t.round.value.notYet == s.round.value.notYet)
  {
  }

  /** A gate read that comes back gives every item without a result its own bundle's; one that threw gives none. */
  lemma GateReadReaches(s: State, scores: Option<Scores>, grace: nat, i: nat)
    requires s.round.Some? && s.round.value.stage == AwaitingGate && i < |s.round.value.batch|
    requires scores.None? ==> !s.round.value.batch[i].gateDone
    ensures var t, was := Step(s, GateReturns(scores), grace), s.round.value.batch[i];
            && Silent(s, t) && t.round.value.stage == BetweenItems && |t.round.value.batch| == |s.round.value.batch|
            && t.round.value.batch[i] == if scores.Some? && !was.gateDone
                                         then was.(gate := Some(scores.value(was.bundle)), gateDone := true) else was
  {
  }

  // ---- rounds, retries and idleness ----

  /** The end of a round: what was set aside is queued behind what came meanwhile, and looked at when the timer fires. */
  lemma RoundEnds(s: State, grace: nat)
    requires s.round.Some? && s.round.value.stage == BetweenItems && s.round.value.batch == []
    ensures var r, t := s.round.value, Step(s, NextItem, grace);
            && t.round.None? && t.queue == s.queue + r.requeue + r.notYet && t.inFlight == s.inFlight && t.draining == s.draining
            && t.log == s.log + (if r.requeue != [] then [InfraFailed] else [])
            && t.retryArmed == (s.retryArmed || (!s.stopped && (r.requeue != [] || r.notYet != [])))
  {
  }

  /** A stopped verifier begins no round and arms no timer until it is resumed. */
  lemma StoppedStaysQuiet(s: State, op: Op, grace: nat)
    requires s.stopped && !op.Resume?
    ensures var t := Step(s, op, grace); t.stopped && (s.round.None? ==> t.round.None?) && (t.retryArmed ==> s.retryArmed)
  {
    if op.Enqueue? { EnqueueKeeps(s, op.entries); }
  }

  lemma {:induction false} EnqueueKeeps(s: State, entries: seq<Entry>)
    ensures var t := EnqueueAll(s, entries);
            && t.(queue := s.queue, inFlight := s.inFlight, log := s.log) == s && s.queue <= t.queue && s.inFlight <= t.inFlight
            && forall e <- entries :: e.cid in t.inFlight
  {
    if entries != [] {
      var n := |entries| - 1;
      EnqueueKeeps(s, entries[..n]);
      assert entries == entries[..n] + [entries[n]];
    }
  }

  /** Whoever kicks an idle verifier that is not stopped, with work queued and no retry pending, begins a round with all of it. */
  lemma KickBeginsARound(s: State, op: Op, grace: nat)
    requires !s.draining && s.round.None? && (op.Resume? || (op.TimerFires? && s.retryArmed && !s.stopped))
    requires s.queue != [] && (op.Resume? ==> !s.retryArmed)
    ensures var t := Step(s, op, grace); t.round == Some(Round(s.queue, [], [], AwaitingGate)) && t.queue == [] && t.draining
  {
  }

  /** Bundles handed to an idle verifier are in its next round at once. */
  lemma EnqueueBeginsARound(s: State, entries: seq<Entry>, grace: nat)
    requires !s.draining && s.round.None? && !s.stopped && !s.retryArmed && exists e <- entries :: e.cid !in s.inFlight
    ensures var t := Step(s, Enqueue(entries), grace);
            && t.draining && t.queue == [] && t.round.Some? && t.round.value.stage == AwaitingGate && s.queue <= t.round.value.batch
            && forall e <- entries | e.cid !in s.inFlight :: exists item <- t.round.value.batch :: item.cid == e.cid && !item.gateDone
  {
    EnqueueKeeps(s, entries);
    EnqueueQueues(s, entries);
  }

  lemma {:induction false} EnqueueQueues(s: State, entries: seq<Entry>)
    ensures var t := EnqueueAll(s, entries);
            && (forall c <- t.inFlight :: c in s.inFlight || exists e <- entries :: e.cid == c)
            && forall e <- entries | e.cid !in s.inFlight :: exists item <- t.queue :: item.cid == e.cid && !item.gateDone
  {
    if entries != [] {
      var n := |entries| - 1;
      var u, t := EnqueueAll(s, entries[..n]), EnqueueAll(s, entries);
      EnqueueQueues(s, entries[..n]);
      EnqueueKeeps(s, entries[..n]);
      assert entries == entries[..n] + [entries[n]];
      forall e <- entries | e.cid !in s.inFlight ensures exists item <- t.queue :: item.cid == e.cid && !item.gateDone {
        if e.cid in u.inFlight {
          var f :| f in entries[..n] && f.cid == e.cid;
          var item :| item in u.queue && item.cid == f.cid && !item.gateDone;
          assert item in t.queue;
        } else {
          assert e == entries[n];
          var added := Item(e.cid, e.bundle, false, false, map[], None, u.now);
          assert t.queue == u.queue + [added] && added in t.queue;
        }
      }
    }
  }

  /** On every run nobody is left waiting for idleness once there is nothing to do. */
  lemma {:induction false} IdleIsAnswered(ops: seq<Op>, grace: nat)
    ensures var s := Run(ops, grace); s.queue == [] && !s.draining && !s.retryArmed ==> s.idleWaiters == 0
  {
    if ops != [] {
      var n := |ops| - 1;
      IdleIsAnswered(ops[..n], grace);
      if ops[n].Enqueue? { EnqueueKeeps(Run(ops[..n], grace), ops[n].entries); }
      NothingIsStranded(ops[..n], grace);
    }
  }

  // ---- over whole runs ----

  lemma {:induction false} ToldForEver(ops: seq<Op>, grace: nat, n: nat)
    requires n <= |ops|
    ensures Run(ops[..n], grace).log <= Run(ops, grace).log
  {
    if n == |ops| {
      assert ops[..n] == ops;
    } else {
      var last := |ops| - 1;
      assert ops[..last][..n] == ops[..n];
      ToldForEver(ops[..last], grace, n);
      LogGrows(Run(ops[..last], grace), ops[last], grace);
    }
  }

  /** A resolution that does not confirm what the vote claims. */
  predicate Denies(resolution: Resolution, claimed: string) {
    resolution.NoResolver? || resolution.DoesNotResolve? || (resolution.ResolvesTo? && resolution.publicKey != claimed)
  }

  /**
   On every run: each time a name being waited for is denied, the eviction is the one thing that step tells, and
   stays told; and at that moment the bundle leaves the in-flight set it was in.
   */
  lemma EveryDenialEvicts(ops: seq<Op>, grace: nat, n: nat, item: Item, i: nat)
    requires n < |ops| && ops[n].NameReturns? && First(Run(ops[..n], grace), item, AwaitingName) && NextVote(item, i)
    requires Denies(ops[n].resolution, item.bundle.votes[i].publicKey)
    ensures var s, t := Run(ops[..n], grace), Run(ops[..n + 1], grace);
            && t.log == s.log + [Evicted(item.cid, BadName(item.bundle.votes[i].name.value))] && t.log <= Run(ops, grace).log
            && item.cid in s.inFlight && item.cid !in t.inFlight
  {
    assert ops[..n + 1][..n] == ops[..n];
    NameAnswerDecides(Run(ops[..n], grace), item, i, ops[n].resolution, grace);
    ToldForEver(ops, grace, n + 1);
    HeldIsInFlight(ops[..n], grace, item);
  }

  /** And each time an attributable refusal has its turn, it is cached and the bundle evicted by that step. */
  lemma EveryAttributableRefusalEvicts(ops: seq<Op>, grace: nat, n: nat, item: Item)
    requires n < |ops| && ops[n].NextItem? && First(Run(ops[..n], grace), item, BetweenItems)
    requires item.gateDone && item.gate.Some? && item.gate.value.satisfied != Gate.Yes && GateVerdicts.GatePenalize(item.gate.value)
    ensures var s, t, gate := Run(ops[..n], grace), Run(ops[..n + 1], grace), item.gate.value;
            && t.log == s.log + [Cached(item.cid, Reject(gate)), Evicted(item.cid, Attributable(gate))] && t.log <= Run(ops, grace).log
            && item.cid in s.inFlight && item.cid !in t.inFlight
  {
    assert ops[..n + 1][..n] == ops[..n];
    GateAnswerDecides(Run(ops[..n], grace), item, grace);
    ToldForEver(ops, grace, n + 1);
    HeldIsInFlight(ops[..n], grace, item);
  }
}
