/**
 The background chain verifier itself: the closure's variables as fields, its callbacks as methods,
 each proved to take the model's step. Every method runs from one await to the next.
 */
module BackgroundVerifiers {
  import opened Wrappers
  import opened Bundles
  import Gate
  import GateVerdicts
  import BM = BackgroundModel
  import opened BackgroundSafety

  class BackgroundVerifier {
    const gateGrace: nat
    var queue: seq<BM.Item>
    var inFlight: set<Cid>
    var draining: bool
    var stopped: bool
    var retryArmed: bool
    var round: Option<BM.Round>
    var idleWaiters: nat
    var now: nat
    var log: seq<BM.Event>

    constructor (gateGrace: nat)
      ensures State() == BM.INITIAL && this.gateGrace == gateGrace
    {
      this.gateGrace := gateGrace;
      queue, inFlight, round, log := [], {}, None, [];
      draining, stopped, retryArmed, idleWaiters, now := false, false, false, 0, 0;
    }

    function State(): BM.State
      reads this
    {
      BM.State(queue, inFlight, draining, stopped, retryArmed, round, idleWaiters, now, log)
    }

    method Tell(e: BM.Event)
      modifies `log
      ensures State() == BM.Emit(old(State()), e)
    {
      log := log + [e];
    }

    method MaybeResolveIdle()
      modifies `idleWaiters, `log
      ensures State() == BM.MaybeResolveIdle(old(State()))
    {
      if |queue| == 0 && !draining && !retryArmed {
        if idleWaiters > 0 { Tell(BM.IdleResolved); }
        idleWaiters := 0;
      }
    }

    method DrainLoop()
      modifies `queue, `round, `draining, `idleWaiters, `log
      ensures State() == BM.DrainLoop(old(State()))
    {
      if |queue| > 0 && !stopped && !retryArmed {
        round := Some(BM.Round(queue, [], [], BM.AwaitingGate));
        queue := [];
      } else {
        draining := false;
        MaybeResolveIdle();
      }
    }

    method KickDrain()
      modifies `queue, `round, `draining, `idleWaiters, `log
      ensures State() == BM.KickDrain(old(State()))
    {
      if draining || stopped || |queue| == 0 {
        MaybeResolveIdle();
        return;
      }
      draining := true;
      DrainLoop();
    }

    method ArmRetry()
      modifies `retryArmed
      ensures State() == BM.ArmRetry(old(State()))
    {
      if stopped || retryArmed { return; }
      retryArmed := true;
    }

    /** Queue bundles that are not pending already, in order, and drain. */
    method Enqueue(entries: seq<Entry>)
      modifies this
      ensures State() == BM.Step(old(State()), BM.Enqueue(entries), gateGrace)
    {
      for i := 0 to |entries|
        invariant State() == BM.EnqueueAll(old(State()), entries[..i])
      {
        assert entries[..i + 1][..i] == entries[..i];
        var e := entries[i];
        if e.cid in inFlight { continue; }
        inFlight := inFlight + {e.cid};
        queue := queue + [BM.Item(e.cid, e.bundle, false, false, map[], None, now)];
        Tell(BM.Enqueued(e.cid, e.bundle, now));
      }
      assert entries[..|entries|] == entries;
      KickDrain();
    }

    /** How much is queued, in the current round, or waiting for its retry; zero exactly when nothing is. */
    method PendingCount() returns (count: nat)
      ensures count == |inFlight|
      ensures WorkInv(State()) ==> count == |Work(State())|
    {
      count := |inFlight|;
      if WorkInv(State()) {
        PendingIsTheWork(State());
      }
    }

    /** Asked to wait for idleness: true when it is already here. */
    method Idle() returns (resolved: bool)
      modifies `idleWaiters
      ensures State() == BM.Step(old(State()), BM.AskIdle, gateGrace)
      ensures resolved == BM.NothingToDo(old(State()))
    {
      resolved := |queue| == 0 && !draining && !retryArmed;
      if !resolved { idleWaiters := idleWaiters + 1; }
    }

    method Stop()
      modifies this
      ensures State() == BM.Step(old(State()), BM.Stop, gateGrace)
    {
      stopped := true;
      retryArmed := false;
      MaybeResolveIdle();
    }

    method Resume()
      modifies this
      ensures State() == BM.Step(old(State()), BM.Resume, gateGrace)
    {
      stopped := false;
      KickDrain();
    }

    method TimerFires()
      requires retryArmed
      modifies this
      ensures State() == BM.Step(old(State()), BM.TimerFires, gateGrace)
    {
      retryArmed := false;
      KickDrain();
    }

    /** The gate stage is back. A batch with nothing left to gate never asks, so it cannot fail. */
    method GateReturns(scores: Option<BM.Scores>)
      requires BM.Enabled(State(), BM.GateReturns(scores))
      modifies `round
      ensures State() == BM.Step(old(State()), BM.GateReturns(scores), gateGrace)
    {
      var r := round.value;
      if scores.Some? {
        var batch: seq<BM.Item> := [];
        for i := 0 to |r.batch|
          invariant |batch| == i
          invariant forall k :: 0 <= k < i ==> batch[k] == BM.Gated(r.batch[k], scores.value)
        {
          var item := r.batch[i];
          if !item.gateDone {
            item := item.(gate := Some(scores.value(item.bundle)), gateDone := true);
          }
          batch := batch + [item];
        }
        assert batch == BM.GatedAll(r.batch, scores.value);
        r := r.(batch := batch);
      }
      round := Some(r.(stage := BM.BetweenItems));
    }

    /** The round's loop, from one item's end to the next item's first await, or to the end of the round. */
    method NextItem()
      requires BM.Enabled(State(), BM.NextItem)
      modifies this
      ensures State() == BM.Step(old(State()), BM.NextItem, gateGrace)
    {
      var r := round.value;
      if |r.batch| == 0 {
        EndRound();
        return;
      }
      var item := r.batch[0];
      r := r.(batch := r.batch[1..]);
      if !item.gateDone {
        round := Some(r.(requeue := r.requeue + [item]));
        return;
      }
      if item.gate.Some? && item.gate.value.satisfied != Gate.Yes {
        RefuseItem(item, r);
        return;
      }
      if !item.gateNotified {
        item := item.(gateNotified := true);
        Tell(BM.GateVerified(item.cid));
      }
      round := Some(r.(batch := [item] + r.batch, stage := BM.AwaitingName));
    }

    method RefuseItem(item: BM.Item, r: BM.Round)
      requires item.gate.Some? && r.stage == BM.BetweenItems
      modifies `round, `inFlight, `log
      ensures var s, whole := old(State()), r.(batch := [item] + r.batch);
              State() ==
              if GateVerdicts.GatePenalize(item.gate.value) then
                BM.Settle(s, whole, [BM.Cached(item.cid, BM.Reject(item.gate.value)),
                                     BM.Evicted(item.cid, BM.Attributable(item.gate.value))])
              else if s.now - item.queuedAt < gateGrace then
                s.(round := Some(r.(notYet := r.notYet + [item.(gateDone := false)])))
              else
                BM.Settle(s, whole, [BM.Evicted(item.cid, BM.GraceOver(item.gate.value, item.queuedAt, s.now))])
    {
      var gate := item.gate.value;
      ghost var whole := r.(batch := [item] + r.batch);
      assert whole.batch[1..] == r.batch;
      if GateVerdicts.GatePenalize(gate) {
        Tell(BM.Cached(item.cid, BM.Reject(gate)));
        Tell(BM.Evicted(item.cid, BM.Attributable(gate)));
        SettleItem(item);
        round := Some(r);
      } else if now - item.queuedAt < gateGrace {
        round := Some(r.(notYet := r.notYet + [item.(gateDone := false)]));
      } else {
        Tell(BM.Evicted(item.cid, BM.GraceOver(gate, item.queuedAt, now)));
        SettleItem(item);
        round := Some(r);
      }
    }

    method SettleItem(item: BM.Item)
      modifies `inFlight
      ensures inFlight == old(inFlight) - {item.cid}
    {
      inFlight := inFlight - {item.cid};
    }

    /** A name resolution (or the empty wait of a bundle without names) is back. */
    method NameReturns(resolution: BM.Resolution)
      requires BM.Enabled(State(), BM.NameReturns(resolution))
      modifies this
      ensures State() == BM.Step(old(State()), BM.NameReturns(resolution), gateGrace)
    {
      var r := round.value;
      var item, rest := r.batch[0], r.(batch := r.batch[1..], stage := BM.BetweenItems);
      var i := FindName(item);
      if i == |item.bundle.votes| {
        var named := HasName(item.bundle);
        if named { Tell(BM.NameResolved(item.cid)); }
        Tell(BM.Cached(item.cid, BM.Valid(item)));
        SettleItem(item);
        round := Some(rest);
        return;
      }
      var vote := item.bundle.votes[i];
      var name := vote.name.value;
      if resolution == BM.ResolverThrew {
        round := Some(rest.(requeue := rest.requeue + [item]));
      } else if resolution == BM.ResolvesTo(vote.publicKey) {
        item := item.(resolvedNames := item.resolvedNames[name := vote.publicKey]);
        round := Some(r.(batch := [item] + r.batch[1..]));
      } else {
        Tell(BM.Evicted(item.cid, BM.BadName(name)));
        SettleItem(item);
        round := Some(rest);
      }
    }

    static method FindName(item: BM.Item) returns (i: nat)
      ensures i == BM.NextName(item, 0)
    {
      i := 0;
      while i < |item.bundle.votes|
        invariant i <= |item.bundle.votes| && BM.NextName(item, 0) == BM.NextName(item, i)
      {
        var name := item.bundle.votes[i].name;
        if name.Some? && name.value !in item.resolvedNames { return; }
        i := i + 1;
      }
    }

    static method HasName(bundle: Bundle) returns (named: bool)
      ensures named == CarriesName(bundle)
    {
      named := false;
      for i := 0 to |bundle.votes|
        invariant !named && forall k :: 0 <= k < i ==> bundle.votes[k].name.None?
      {
        if bundle.votes[i].name.Some? { return true; }
      }
    }

    method EndRound()
      requires round.Some?
      modifies `queue, `round, `retryArmed, `log
      ensures State() == BM.EndRound(old(State()), old(round.value))
    {
      var r := round.value;
      round := None;
      if |r.requeue| > 0 {
        queue := queue + r.requeue + r.notYet;
        Tell(BM.InfraFailed);
        ArmRetry();
      } else if |r.notYet| > 0 {
        queue := queue + r.notYet;
        ArmRetry();
      }
    }

    method RoundReturns()
      requires BM.Enabled(State(), BM.RoundReturns)
      modifies this
      ensures State() == BM.Step(old(State()), BM.RoundReturns, gateGrace)
    {
      DrainLoop();
    }
  }
}
