/** What the background verifier keeps on every run. */
module BackgroundSafety {
  import opened Wrappers
  import opened Bundles
  import Gate
  import GateVerdicts
  import opened BackgroundModel

  // ---- no work is stranded or duplicated ----

  /** How often `items` hold the bundle `c`. */
  function Count(items: seq<Item>, c: Cid): nat {
    if items == [] then 0 else (if items[0].cid == c then 1 else 0) + Count(items[1..], c)
  }

  /** How often `c` is queued, in the current batch, or set aside by the current round. */
  function Held(s: State, c: Cid): nat {
    Count(s.queue, c) + if s.round.None? then 0
    else Count(s.round.value.batch, c) + Count(s.round.value.requeue, c) + Count(s.round.value.notYet, c)
  }

  /** Each bundle is held once if in flight, else not at all. */
  predicate HeldOnce(s: State, c: Cid) {
    Held(s, c) == if c in s.inFlight then 1 else 0
  }

  /** The in-flight set is exactly the work, each bundle once. */
  ghost predicate WorkInv(s: State) {
    forall c :: HeldOnce(s, c)
  }

  predicate DrainInv(s: State) {
    && (s.round.Some? ==> s.draining && !s.retryArmed)
    && (s.retryArmed ==> s.queue != [] && !s.stopped)
    && (s.queue != [] && !s.draining && !s.stopped ==> s.retryArmed)
    && (s.idleWaiters > 0 ==> !NothingToDo(s))
  }

  lemma {:induction false} EnqueueAllDrain(s: State, entries: seq<Entry>)
    ensures var t := EnqueueAll(s, entries);
            && t.(queue := s.queue, inFlight := s.inFlight, log := s.log) == s
            && s.queue <= t.queue
    ensures forall e :: e in entries ==> e.cid in EnqueueAll(s, entries).inFlight
  {
    if entries != [] {
      var n := |entries| - 1;
      EnqueueAllDrain(s, entries[..n]);
      forall e | e in entries ensures e.cid in EnqueueAll(s, entries).inFlight {
        assert entries == entries[..n] + [entries[n]];
      }
    }
  }

  /** Within a round nothing but the round, the log and what is in flight moves. */
  lemma RoundKeepsDrainInv(s: State, op: Op, grace: nat)
    requires DrainInv(s) && Enabled(s, op) && (op.NextItem? || op.NameReturns?) && s.round.value.batch != []
    ensures DrainInv(Step(s, op, grace))
  {
    var t := Step(s, op, grace);
    assert t.round.Some? && t.(round := s.round, log := s.log, inFlight := s.inFlight) == s;
  }

  lemma StepKeepsDrainInv(s: State, op: Op, grace: nat)
    requires DrainInv(s)
    ensures DrainInv(Step(s, op, grace))
  {
    if Enabled(s, op) {
      if op.Enqueue? {
        EnqueueAllDrain(s, op.entries);
      } else if (op.NextItem? || op.NameReturns?) && s.round.value.batch != [] {
        RoundKeepsDrainInv(s, op, grace);
      }
    }
  }

  lemma {:induction false} CountConcat(a: seq<Item>, b: seq<Item>, c: Cid)
    ensures Count(a + b, c) == Count(a, c) + Count(b, c)
  {
    if a == [] {
      assert a + b == b;
    } else {
      assert (a + b)[1..] == a[1..] + b;
      CountConcat(a[1..], b, c);
    }
  }

  lemma CountOne(item: Item, c: Cid)
    ensures Count([item], c) == if item.cid == c then 1 else 0
  {
  }

  lemma {:induction false} GatedAllCount(batch: seq<Item>, scores: Scores, c: Cid)
    ensures Count(GatedAll(batch, scores), c) == Count(batch, c)
  {
    if batch != [] {
      assert GatedAll(batch, scores)[1..] == GatedAll(batch[1..], scores);
      GatedAllCount(batch[1..], scores, c);
    }
  }

  lemma {:induction false} EnqueueAllWork(s: State, entries: seq<Entry>, c: Cid)
    requires HeldOnce(s, c)
    ensures HeldOnce(EnqueueAll(s, entries), c)
  {
    if entries != [] {
      var n := |entries| - 1;
      EnqueueAllWork(s, entries[..n], c);
      var t, e := EnqueueAll(s, entries[..n]), entries[n];
      var item := Item(e.cid, e.bundle, false, false, map[], None, t.now);
      CountConcat(t.queue, [item], c);
      CountOne(item, c);
    }
  }

  lemma EndRoundWork(s: State, r: Round, c: Cid)
    requires s.round == Some(r) && r.batch == []
    ensures Held(EndRound(s, r), c) == Held(s, c) && EndRound(s, r).inFlight == s.inFlight
  {
    CountConcat(s.queue + r.requeue, r.notYet, c);
    CountConcat(s.queue, r.requeue, c);
    CountConcat(s.queue, r.notYet, c);
  }

  /** The first item of the batch may change, but not its CID, wherever in the round it goes. */
  lemma FirstItemMoves(r: Round, item: Item, c: Cid)
    requires r.batch != [] && item.cid == r.batch[0].cid
    ensures var one := if item.cid == c then 1 else 0;
            && Count(r.batch, c) == one + Count(r.batch[1..], c)
            && Count(r.requeue + [item], c) == Count(r.requeue, c) + one
            && Count(r.notYet + [item], c) == Count(r.notYet, c) + one
            && Count([item] + r.batch[1..], c) == Count(r.batch, c)
  {
    CountConcat(r.requeue, [item], c);
    CountConcat(r.notYet, [item], c);
    CountConcat([item], r.batch[1..], c);
    CountOne(item, c);
  }

  lemma SettleWork(s: State, r: Round, events: seq<Event>, c: Cid)
    requires s.round == Some(r) && r.batch != [] && HeldOnce(s, c)
    ensures HeldOnce(Settle(s, r, events), c)
  {
    FirstItemMoves(r, r.batch[0], c);
  }

  /** Moving the first item elsewhere in the round loses and repeats nothing. */
  lemma MoveWork(s: State, t: State, r: Round, item: Item, c: Cid)
    requires s.round == Some(r) && r.batch != [] && item.cid == r.batch[0].cid && HeldOnce(s, c)
    requires t.queue == s.queue && t.inFlight == s.inFlight && t.round.Some?
    requires var q := t.round.value;
             || (q.batch == r.batch[1..] && q.requeue == r.requeue + [item] && q.notYet == r.notYet)
             || (q.batch == r.batch[1..] && q.requeue == r.requeue && q.notYet == r.notYet + [item])
             || (q.batch == [item] + r.batch[1..] && q.requeue == r.requeue && q.notYet == r.notYet)
    ensures HeldOnce(t, c)
  {
    FirstItemMoves(r, item, c);
  }

  lemma ProcessWork(s: State, r: Round, grace: nat, c: Cid)
    requires s.round == Some(r) && r.batch != [] && HeldOnce(s, c)
    ensures HeldOnce(ProcessItem(s, r, grace), c)
  {
    var item, t := r.batch[0], ProcessItem(s, r, grace);
    if !item.gateDone {
      MoveWork(s, t, r, item, c);
    } else if item.gate.Some? && item.gate.value.satisfied != Gate.Yes {
      var gate := item.gate.value;
      if GateVerdicts.GatePenalize(gate) {
        SettleWork(s, r, [Cached(item.cid, Reject(gate)), Evicted(item.cid, Attributable(gate))], c);
      } else if s.now - item.queuedAt < grace {
        MoveWork(s, t, r, item.(gateDone := false), c);
      } else {
        SettleWork(s, r, [Evicted(item.cid, GraceOver(gate, item.queuedAt, s.now))], c);
      }
    } else {
      MoveWork(s, t, r, item.(gateNotified := true), c);
    }
  }

  lemma NameWork(s: State, r: Round, resolution: Resolution, c: Cid)
    requires s.round == Some(r) && r.batch != [] && HeldOnce(s, c)
    ensures HeldOnce(AfterName(s, r, resolution), c)
  {
    var item, t := r.batch[0], AfterName(s, r, resolution);
    var i := NextName(item, 0);
    if i == |item.bundle.votes| {
      SettleWork(s, r, (if CarriesName(item.bundle) then [NameResolved(item.cid)] else []) + [Cached(item.cid, Valid(item))], c);
    } else {
      var vote := item.bundle.votes[i];
      if resolution.ResolverThrew? {
        MoveWork(s, t, r, item, c);
      } else if resolution.ResolvesTo? && resolution.publicKey == vote.publicKey {
        MoveWork(s, t, r, item.(resolvedNames := item.resolvedNames[vote.name.value := vote.publicKey]), c);
      } else {
        SettleWork(s, r, [Evicted(item.cid, BadName(vote.name.value))], c);
      }
    }
  }

  lemma StepKeepsWorkInv(s: State, op: Op, grace: nat)
    requires WorkInv(s) && DrainInv(s)
    ensures WorkInv(Step(s, op, grace))
  {
    if Enabled(s, op) {
      forall c ensures HeldOnce(Step(s, op, grace), c) {
        assert HeldOnce(s, c);
        match op
        case Enqueue(entries) =>
          EnqueueAllDrain(s, entries);
          EnqueueAllWork(s, entries, c);
        case GateReturns(scores) =>
          if scores.Some? { GatedAllCount(s.round.value.batch, scores.value, c); }
        case NextItem =>
          if s.round.value.batch == [] { EndRoundWork(s, s.round.value, c); }
          else { ProcessWork(s, s.round.value, grace, c); }
        case NameReturns(resolution) => NameWork(s, s.round.value, resolution, c);
        case _ =>
      }
    }
  }

  /**
   Main result on scheduling. On every run: the in-flight set is exactly the queue and the unsettled
   part of the current round, each bundle once; work that is queued, not draining and not stopped has
   a retry armed; an armed retry has work to do; and nobody waits for idleness that is already here.
   */
  lemma {:induction false} NothingIsStranded(ops: seq<Op>, grace: nat)
    ensures var s := Run(ops, grace);
            && (forall c :: HeldOnce(s, c))
            && (s.queue != [] && !s.draining && !s.stopped ==> s.retryArmed)
            && (s.retryArmed ==> s.queue != [] && !s.stopped)
            && (s.idleWaiters > 0 ==> !NothingToDo(s))
    ensures DrainInv(Run(ops, grace))
  {
    if ops != [] {
      var n := |ops| - 1;
      NothingIsStranded(ops[..n], grace);
      StepKeepsDrainInv(Run(ops[..n], grace), ops[n], grace);
      StepKeepsWorkInv(Run(ops[..n], grace), ops[n], grace);
    }
  }

  /** Everything queued, in the current batch, or set aside by the current round. */
  function Work(s: State): seq<Item> {
    s.queue + if s.round.None? then [] else s.round.value.batch + s.round.value.requeue + s.round.value.notYet
  }

  lemma WorkIsHeld(s: State, c: Cid)
    ensures Count(Work(s), c) == Held(s, c)
  {
    if s.round.Some? {
      var r := s.round.value;
      CountConcat(r.batch, r.requeue, c);
      CountConcat(r.batch + r.requeue, r.notYet, c);
      CountConcat(s.queue, r.batch + r.requeue + r.notYet, c);
    } else {
      CountConcat(s.queue, [], c);
    }
  }

  lemma {:induction false} CidsOnce(items: seq<Item>, cids: set<Cid>)
    requires forall c :: Count(items, c) == if c in cids then 1 else 0
    ensures |items| == |cids|
  {
    if items == [] {
      assert forall c :: Count(items, c) == 0;
      assert cids == {};
    } else {
      var first := items[0].cid;
      assert Count(items, first) == 1 + Count(items[1..], first);
      forall c ensures Count(items[1..], c) == if c in cids - {first} then 1 else 0 {
        assert Count(items, c) == (if first == c then 1 else 0) + Count(items[1..], c);
      }
      CidsOnce(items[1..], cids - {first});
    }
  }

  /** As many bundles are in flight as there is work, none twice. */
  lemma PendingIsTheWork(s: State)
    requires WorkInv(s)
    ensures |s.inFlight| == |Work(s)|
    ensures |s.inFlight| == 0 <==> s.queue == [] && (s.round.Some? ==> s.round.value.batch == s.round.value.requeue == s.round.value.notYet == [])
  {
    forall c ensures Count(Work(s), c) == if c in s.inFlight then 1 else 0 {
      WorkIsHeld(s, c);
      assert HeldOnce(s, c);
    }
    CidsOnce(Work(s), s.inFlight);
  }

  lemma DoneMeansEmpty(s: State)
    requires WorkInv(s) && DrainInv(s) && NothingToDo(s)
    ensures s.inFlight == {}
  {
    forall c ensures c !in s.inFlight {
      assert HeldOnce(s, c);
    }
  }

  lemma IdleResolvedWhenDone(s: State, op: Op, grace: nat)
    requires DrainInv(s) && s.idleWaiters > 0 && Step(s, op, grace).idleWaiters == 0
    ensures NothingToDo(Step(s, op, grace))
  {
    if op.Enqueue? { EnqueueAllDrain(s, op.entries); }
  }

  /** `idle` is answered only when no bundle is pending: at once, or by the step that resolves it. */
  lemma IdleMeansSettled(ops: seq<Op>, op: Op, grace: nat)
    ensures var s := Run(ops, grace); NothingToDo(s) ==> s.inFlight == {}
    ensures var s, t := Run(ops, grace), Run(ops + [op], grace);
            s.idleWaiters > 0 && t.idleWaiters == 0 ==> t.inFlight == {}
  {
    NothingIsStranded(ops, grace);
    NothingIsStranded(ops + [op], grace);
    var s, t := Run(ops, grace), Run(ops + [op], grace);
    assert (ops + [op])[..|ops|] == ops;
    assert WorkInv(s) && WorkInv(t);
    if NothingToDo(s) { DoneMeansEmpty(s); }
    if s.idleWaiters > 0 && t.idleWaiters == 0 {
      IdleResolvedWhenDone(s, op, grace);
      DoneMeansEmpty(t);
    }
  }
}
