/**
 What each verdict and each eviction rests on: the very steps at which the gate, or a resolver, answered
 for that bundle while it was pending.
 */
module BackgroundEvidence {
  import opened Wrappers
  import opened Bundles
  import Gate
  import GateVerdicts
  import opened BackgroundModel
  import opened BackgroundSafety
  import opened BackgroundSettlement

  predicate Ungated(item: Item, c: Cid, bundle: Bundle) {
    item.cid == c && item.bundle == bundle && !item.gateDone
  }

  predicate AwaitsGate(s: State, c: Cid, bundle: Bundle) {
    s.round.Some? && exists i :: 0 <= i < |s.round.value.batch| && Ungated(s.round.value.batch[i], c, bundle)
  }

  /** The bundle is first in the batch, and `name` is the next one it needs resolved. */
  predicate AwaitsName(s: State, c: Cid, bundle: Bundle, name: string) {
    && s.round.Some? && s.round.value.batch != []
    && var item := s.round.value.batch[0];
       && item.cid == c && item.bundle == bundle
       && var i := NextName(item, 0);
          i < |item.bundle.votes| && item.bundle.votes[i].name == Some(name)
  }

  /** At step `k` the gate stage came back for this bundle, which was waiting for it, with this result. */
  ghost predicate GateSaid(ops: seq<Op>, grace: nat, k: nat, c: Cid, bundle: Bundle, gate: Gate.Result) {
    && k < |ops| && ops[k].GateReturns? && Enabled(Run(ops[..k], grace), ops[k])
    && ops[k].scores.Some? && ops[k].scores.value(bundle) == gate
    && AwaitsGate(Run(ops[..k], grace), c, bundle)
  }

  /** At step `k` the resolution of this name came back for this bundle, which was waiting for it. */
  ghost predicate NameSaid(ops: seq<Op>, grace: nat, k: nat, c: Cid, bundle: Bundle, name: string, resolution: Resolution) {
    && k < |ops| && ops[k] == NameReturns(resolution) && Enabled(Run(ops[..k], grace), ops[k])
    && AwaitsName(Run(ops[..k], grace), c, bundle, name)
  }

  ghost predicate InFlightAt(ops: seq<Op>, grace: nat, c: Cid, m: nat) {
    m <= |ops| && c in Run(ops[..m], grace).inFlight
  }

  /** In flight ever since step `k`: what was answered then belongs to this admission, not to an earlier one. */
  ghost predicate InFlightSince(ops: seq<Op>, grace: nat, c: Cid, k: nat) {
    forall m: nat :: k <= m <= |ops| ==> InFlightAt(ops, grace, c, m)
  }

  ghost predicate GateEvidence(ops: seq<Op>, grace: nat, k: nat, item: Item) {
    && item.gate.Some? && GateSaid(ops, grace, k, item.cid, item.bundle, item.gate.value)
    && InFlightSince(ops, grace, item.cid, k)
  }

  ghost predicate NameEvidence(ops: seq<Op>, grace: nat, k: nat, item: Item, name: string) {
    && name in item.resolvedNames
    && NameSaid(ops, grace, k, item.cid, item.bundle, name, ResolvesTo(item.resolvedNames[name]))
    && InFlightSince(ops, grace, item.cid, k)
  }

  /** The gate result and every resolved name of an item were answered for it, during this admission. */
  ghost predicate Answered(ops: seq<Op>, grace: nat, item: Item) {
    && (item.gate.Some? ==> exists k: nat :: GateEvidence(ops, grace, k, item))
    && (forall name <- item.resolvedNames :: exists k: nat :: NameEvidence(ops, grace, k, item, name))
    && Enqueued(item.cid, item.bundle, item.queuedAt) in Run(ops, grace).log
  }

  // ---- evidence lasts ----

  lemma PrefixOf(ops: seq<Op>, op: Op, k: nat)
    requires k <= |ops|
    ensures (ops + [op])[..k] == ops[..k]
    ensures k < |ops| ==> (ops + [op])[k] == ops[k]
  {
  }

  lemma InFlightLater(ops: seq<Op>, op: Op, grace: nat, c: Cid, k: nat)
    requires InFlightSince(ops, grace, c, k) && c in Run(ops + [op], grace).inFlight
    ensures InFlightSince(ops + [op], grace, c, k)
  {
    var more := ops + [op];
    forall m: nat | k <= m <= |more| ensures InFlightAt(more, grace, c, m) {
      if m <= |ops| {
        PrefixOf(ops, op, m);
        assert InFlightAt(ops, grace, c, m);
      } else {
        assert more[..m] == more;
      }
    }
  }

  lemma LogGrows(s: State, op: Op, grace: nat)
    ensures s.log <= Step(s, op, grace).log
  {
    NewEvents(s, op, grace);
  }

  lemma AnsweredLater(ops: seq<Op>, op: Op, grace: nat, item: Item)
    requires Answered(ops, grace, item) && item.cid in Run(ops + [op], grace).inFlight
    ensures Answered(ops + [op], grace, item)
  {
    var more := ops + [op];
    RunOne(ops, op, grace);
    LogGrows(Run(ops, grace), op, grace);
    if item.gate.Some? {
      var k: nat :| GateEvidence(ops, grace, k, item);
      PrefixOf(ops, op, k);
      InFlightLater(ops, op, grace, item.cid, k);
      assert GateEvidence(more, grace, k, item);
    }
    forall name <- item.resolvedNames ensures exists k: nat :: NameEvidence(more, grace, k, item, name) {
      var k: nat :| NameEvidence(ops, grace, k, item, name);
      PrefixOf(ops, op, k);
      InFlightLater(ops, op, grace, item.cid, k);
      assert NameEvidence(more, grace, k, item, name);
    }
  }

  lemma AnsweredAlike(ops: seq<Op>, grace: nat, was: Item, item: Item)
    requires Answered(ops, grace, was)
    requires item.(gateDone := was.gateDone, gateNotified := was.gateNotified) == was
    ensures Answered(ops, grace, item)
  {
    if item.gate.Some? {
      var k: nat :| GateEvidence(ops, grace, k, was);
      assert GateEvidence(ops, grace, k, item);
    }
    forall name <- item.resolvedNames ensures exists k: nat :: NameEvidence(ops, grace, k, item, name) {
      var k: nat :| NameEvidence(ops, grace, k, was, name);
      assert NameEvidence(ops, grace, k, item, name);
    }
  }

  lemma FreshEvidence(ops: seq<Op>, op: Op, grace: nat, c: Cid)
    requires c in Run(ops, grace).inFlight && c in Run(ops + [op], grace).inFlight
    ensures InFlightSince(ops + [op], grace, c, |ops|)
  {
    var more := ops + [op];
    assert more[..|ops|] == ops && more[..|ops| + 1] == more;
    forall m: nat | |ops| <= m <= |more| ensures InFlightAt(more, grace, c, m) {
    }
  }

  // ---- held items, step by step ----

  ghost predicate AllAnswered(ops: seq<Op>, grace: nat) {
    forall item :: Holds(Run(ops, grace), item) ==> Answered(ops, grace, item)
  }

  lemma {:induction false} EnqueueOnlyEnqueues(s: State, entries: seq<Entry>)
    ensures var t := EnqueueAll(s, entries);
            && t.round == s.round && s.log <= t.log
            && (forall i :: |s.log| <= i < |t.log| ==> t.log[i].Enqueued?)
            && forall item <- t.queue :: item in s.queue
                 || (item.gate.None? && item.resolvedNames == map[] && Enqueued(item.cid, item.bundle, item.queuedAt) in t.log)
  {
    if entries != [] {
      var n := |entries| - 1;
      EnqueueOnlyEnqueues(s, entries[..n]);
      var u, t := EnqueueAll(s, entries[..n]), EnqueueAll(s, entries);
      forall item | item in t.queue && item !in s.queue
        ensures item.gate.None? && item.resolvedNames == map[] && Enqueued(item.cid, item.bundle, item.queuedAt) in t.log
      {
        if item !in u.queue {
          assert t.log[|u.log|] == Enqueued(item.cid, item.bundle, item.queuedAt);
        }
      }
    }
  }

  predicate Ruling(e: Event) {
    e.Evicted? || e.Cached?
  }

  /** A step that creates no item and rules on none. */
  ghost predicate NothingNew(s: State, t: State) {
    && (forall item :: Holds(t, item) ==> Holds(s, item))
    && s.log <= t.log && forall i :: |s.log| <= i < |t.log| ==> !Ruling(t.log[i])
  }

  lemma KickIsNothingNew(s: State)
    ensures NothingNew(s, KickDrain(s)) && NothingNew(s, MaybeResolveIdle(s))
    ensures s.round.None? ==> NothingNew(s, DrainLoop(s))
  {
  }

  /** Stopping, resuming, the timer, the clock, the drain loop and the end of a round bring nothing new. */
  lemma QuietStep(s: State, op: Op, grace: nat)
    requires op.Stop? || op.Resume? || op.TimerFires? || op.Tick? || op.AskIdle? || op.RoundReturns?
             || (op.NextItem? && s.round.Some? && s.round.value.batch == [])
    requires s.round.Some? ==> !op.RoundReturns?
    ensures NothingNew(s, Step(s, op, grace))
  {
    if Enabled(s, op) {
      match op
      case Stop => KickIsNothingNew(s.(stopped := true, retryArmed := false));
      case Resume => KickIsNothingNew(s.(stopped := false));
      case TimerFires => KickIsNothingNew(s.(retryArmed := false));
      case RoundReturns => KickIsNothingNew(s);
      case _ =>
    }
  }

  lemma HeldIsInFlight(ops: seq<Op>, grace: nat, item: Item)
    requires Holds(Run(ops, grace), item)
    ensures item.cid in Run(ops, grace).inFlight
  {
    NothingIsStranded(ops, grace);
    assert HeldOnce(Run(ops, grace), item.cid);
    if item.cid !in Run(ops, grace).inFlight {
      NotInFlightNotHeld(Run(ops, grace), item.cid);
    }
  }

  lemma EnqueuedAnswered(ops: seq<Op>, entries: seq<Entry>, grace: nat, item: Item)
    requires var t := Run(ops + [Enqueue(entries)], grace); Holds(t, item) && !Holds(Run(ops, grace), item)
    ensures Answered(ops + [Enqueue(entries)], grace, item)
  {
    var s := Run(ops, grace);
    RunOne(ops, Enqueue(entries), grace);
    EnqueueOnlyEnqueues(s, entries);
    KickIsNothingNew(EnqueueAll(s, entries));
  }

  lemma GatedAnswered(ops: seq<Op>, scores: Option<Scores>, grace: nat, item: Item)
    requires var op := GateReturns(scores);
             && AllAnswered(ops, grace) && Enabled(Run(ops, grace), op)
             && Holds(Run(ops + [op], grace), item) && !Holds(Run(ops, grace), item)
    ensures Answered(ops + [GateReturns(scores)], grace, item)
  {
    var s, op := Run(ops, grace), GateReturns(scores);
    var more := ops + [op];
    RunOne(ops, op, grace);
    var batch := s.round.value.batch;
    var i :| 0 <= i < |batch| && item == Gated(batch[i], scores.value);
    var was := batch[i];
    assert Holds(s, was) && !was.gateDone && Ungated(was, item.cid, item.bundle);
    HeldIsInFlight(ops, grace, was);
    HeldIsInFlight(more, grace, item);
    AnsweredLater(ops, op, grace, was);
    FreshEvidence(ops, op, grace, item.cid);
    assert more[..|ops|] == ops && more[|ops|] == op;
    assert GateEvidence(more, grace, |ops|, item);
    forall name <- item.resolvedNames ensures exists k: nat :: NameEvidence(more, grace, k, item, name) {
      var k: nat :| NameEvidence(more, grace, k, was, name);
      assert NameEvidence(more, grace, k, item, name);
    }
  }

  lemma ProcessedItems(s: State, r: Round, grace: nat)
    requires s.round == Some(r) && r.batch != []
    ensures var t, was := ProcessItem(s, r, grace), r.batch[0];
            forall item :: Holds(t, item) && !Holds(s, item)
              ==> item.(gateDone := was.gateDone, gateNotified := was.gateNotified) == was
  {
    assert forall other <- r.batch[1..] :: other in r.batch;
  }

  lemma ProcessedAnswered(ops: seq<Op>, grace: nat, item: Item)
    requires AllAnswered(ops, grace) && Enabled(Run(ops, grace), NextItem) && Run(ops, grace).round.value.batch != []
    requires Holds(Run(ops + [NextItem], grace), item) && !Holds(Run(ops, grace), item)
    ensures Answered(ops + [NextItem], grace, item)
  {
    var s := Run(ops, grace);
    var was := s.round.value.batch[0];
    RunOne(ops, NextItem, grace);
    assert Holds(s, was);
    ProcessedItems(s, s.round.value, grace);
    HeldIsInFlight(ops + [NextItem], grace, item);
    AnsweredLater(ops, NextItem, grace, was);
    AnsweredAlike(ops + [NextItem], grace, was, item);
  }

  /** A resolution creates at most one item: the one that waited for it, with the name it confirmed. */
  lemma NamedItems(s: State, r: Round, resolution: Resolution, item: Item)
    requires s.round == Some(r) && r.batch != [] && Holds(AfterName(s, r, resolution), item) && !Holds(s, item)
    ensures var was, i := r.batch[0], NextName(r.batch[0], 0);
            && i < |was.bundle.votes| && resolution == ResolvesTo(was.bundle.votes[i].publicKey)
            && item == was.(resolvedNames := was.resolvedNames[was.bundle.votes[i].name.value := was.bundle.votes[i].publicKey])
  {
    assert forall other <- r.batch[1..] :: other in r.batch;
  }

  lemma NamedAnswered(ops: seq<Op>, resolution: Resolution, grace: nat, item: Item)
    requires var op := NameReturns(resolution);
             && AllAnswered(ops, grace) && Enabled(Run(ops, grace), op)
             && Holds(Run(ops + [op], grace), item) && !Holds(Run(ops, grace), item)
    ensures Answered(ops + [NameReturns(resolution)], grace, item)
  {
    var s, op := Run(ops, grace), NameReturns(resolution);
    var more, was := ops + [op], s.round.value.batch[0];
    RunOne(ops, op, grace);
    NamedItems(s, s.round.value, resolution, item);
    assert Holds(s, was);
    HeldIsInFlight(ops, grace, was);
    HeldIsInFlight(more, grace, item);
    AnsweredLater(ops, op, grace, was);
    FreshEvidence(ops, op, grace, item.cid);
    assert more[..|ops|] == ops && more[|ops|] == op;
    if item.gate.Some? {
      var k: nat :| GateEvidence(more, grace, k, was);
      assert GateEvidence(more, grace, k, item);
    }
    var resolved := was.bundle.votes[NextName(was, 0)].name.value;
    forall name <- item.resolvedNames ensures exists k: nat :: NameEvidence(more, grace, k, item, name) {
      if name == resolved {
        assert NameEvidence(more, grace, |ops|, item, name);
      } else {
        var k: nat :| NameEvidence(more, grace, k, was, name);
        assert NameEvidence(more, grace, k, item, name);
      }
    }
  }

  lemma NewItemAnswered(ops: seq<Op>, op: Op, grace: nat, item: Item)
    requires AllAnswered(ops, grace) && Holds(Run(ops + [op], grace), item) && !Holds(Run(ops, grace), item)
    ensures Answered(ops + [op], grace, item)
  {
    var s := Run(ops, grace);
    RunOne(ops, op, grace);
    NothingIsStranded(ops, grace);
    match op
    case Enqueue(entries) => EnqueuedAnswered(ops, entries, grace, item);
    case GateReturns(scores) => GatedAnswered(ops, scores, grace, item);
    case NextItem =>
      if s.round.Some? && s.round.value.batch == [] { QuietStep(s, op, grace); }
      else { ProcessedAnswered(ops, grace, item); }
    case NameReturns(resolution) => NamedAnswered(ops, resolution, grace, item);
    case _ => if Enabled(s, op) { QuietStep(s, op, grace); }
  }

  lemma {:induction false} EveryItemAnswered(ops: seq<Op>, grace: nat)
    ensures AllAnswered(ops, grace)
  {
    if ops != [] {
      var n := |ops| - 1;
      EveryItemAnswered(ops[..n], grace);
      assert ops == ops[..n] + [ops[n]];
      forall item | Holds(Run(ops, grace), item) ensures Answered(ops, grace, item) {
        if Holds(Run(ops[..n], grace), item) {
          HeldIsInFlight(ops, grace, item);
          AnsweredLater(ops[..n], ops[n], grace, item);
        } else {
          NewItemAnswered(ops[..n], ops[n], grace, item);
        }
      }
    }
  }

  // ---- every ruling ----

  /** No resolver, no record, or another key than the first vote for this name claims; a resolver that threw refuses nothing. */
  predicate RefusesName(bundle: Bundle, name: string, resolution: Resolution) {
    match resolution
    case NoResolver => true
    case DoesNotResolve => true
    case ResolvesTo(key) => FirstClaim(bundle.votes, name).Some? && FirstClaim(bundle.votes, name) != Some(key)
    case ResolverThrew => false
  }

  /** Step `n` of the run put the event into the log. */
  ghost predicate ToldBy(ops: seq<Op>, grace: nat, n: nat, i: nat) {
    n < |ops| && |Run(ops[..n], grace).log| <= i < |Run(ops[..n + 1], grace).log|
  }

  /** What the host is told of `item`, when step `op` rules on it. */
  ghost predicate RulesOn(s: State, op: Op, grace: nat, item: Item, e: Event) {
    match e
    case Evicted(c, Attributable(gate)) =>
      c == item.cid && item.gate == Some(gate) && Refused(gate) && GateVerdicts.GatePenalize(gate)
    case Evicted(c, GraceOver(gate, since, at)) =>
      && c == item.cid && item.gate == Some(gate) && Refused(gate) && !GateVerdicts.GatePenalize(gate)
      && since == item.queuedAt && at == s.now && since + grace <= at
    case Evicted(c, BadName(name)) =>
      && c == item.cid && op.NameReturns? && Enabled(s, op) && AwaitsName(s, c, item.bundle, name)
      && RefusesName(item.bundle, name, op.resolution)
    case Cached(c, Reject(gate)) =>
      c == item.cid && item.gate == Some(gate) && Refused(gate) && GateVerdicts.GatePenalize(gate)
    case Cached(c, Valid(verified)) => c == item.cid && verified == item
    case _ => false
  }

  /** The event was told by step `n`, of an item then held and answered for. */
  ghost predicate RestsOn(ops: seq<Op>, grace: nat, n: nat, item: Item, i: nat, e: Event) {
    && ToldBy(ops, grace, n, i)
    && Holds(Run(ops[..n], grace), item) && Answered(ops[..n], grace, item)
    && RulesOn(Run(ops[..n], grace), ops[n], grace, item, e)
  }

  lemma ProcessRules(s: State, r: Round, grace: nat, i: nat)
    requires s.round == Some(r) && r.batch != [] && |s.log| <= i < |ProcessItem(s, r, grace).log|
    requires Ruling(ProcessItem(s, r, grace).log[i]) && s.now >= r.batch[0].queuedAt
    ensures RulesOn(s, NextItem, grace, r.batch[0], ProcessItem(s, r, grace).log[i])
  {
  }

  lemma NameRules(s: State, r: Round, resolution: Resolution, grace: nat, i: nat)
    requires s.round == Some(r) && r.batch != [] && Enabled(s, NameReturns(resolution))
    requires |s.log| <= i < |AfterName(s, r, resolution).log| && Ruling(AfterName(s, r, resolution).log[i])
    ensures RulesOn(s, NameReturns(resolution), grace, r.batch[0], AfterName(s, r, resolution).log[i])
  {
    if NextName(r.batch[0], 0) < |r.batch[0].bundle.votes| {
      NextNameIsFirst(r.batch[0]);
    }
  }

  lemma NewRuling(ops: seq<Op>, op: Op, grace: nat, i: nat)
    requires |Run(ops, grace).log| <= i < |Run(ops + [op], grace).log| && Ruling(Run(ops + [op], grace).log[i])
    ensures exists item :: RestsOn(ops + [op], grace, |ops|, item, i, Run(ops + [op], grace).log[i])
  {
    var s, more := Run(ops, grace), ops + [op];
    RunOne(ops, op, grace);
    NothingIsStranded(ops, grace);
    EveryItemAnswered(ops, grace);
    EveryRunFollowed(ops, grace);
    assert more[..|ops|] == ops && more[|ops|] == op && more[..|ops| + 1] == more;
    if op.Enqueue? {
      EnqueueOnlyEnqueues(s, op.entries);
      KickIsNothingNew(EnqueueAll(s, op.entries));
    } else if (op.NextItem? || op.NameReturns?) && s.round.Some? && s.round.value.batch != [] {
      var item := s.round.value.batch[0];
      assert Holds(s, item) && Followed(s, item.cid, grace) && Tracks(s, item, grace);
      if op.NextItem? { ProcessRules(s, s.round.value, grace, i); }
      else { NameRules(s, s.round.value, op.resolution, grace, i); }
      assert RestsOn(more, grace, |ops|, item, i, Run(more, grace).log[i]);
    } else if Enabled(s, op) && !op.GateReturns? {
      QuietStep(s, op, grace);
    }
  }

  lemma RestsOnLater(ops: seq<Op>, op: Op, grace: nat, n: nat, item: Item, i: nat, e: Event)
    requires RestsOn(ops, grace, n, item, i, e)
    ensures RestsOn(ops + [op], grace, n, item, i, e)
  {
    PrefixOf(ops, op, n);
    PrefixOf(ops, op, n + 1);
  }

  /**
   Main result on evidence. Every verdict cached and every eviction told on any run was told of an item
   whose gate result and whose resolved names had been answered for this very bundle while it waited for
   them, and since when it was never out of flight. A refusal is a gate result that refused, or the
   refusing resolution of the name being waited for: never a gate read or a resolver that failed.
   */
  lemma {:induction false} EveryRulingIsAnswered(ops: seq<Op>, grace: nat, i: nat)
    requires i < |Run(ops, grace).log| && Ruling(Run(ops, grace).log[i])
    ensures exists n: nat, item :: RestsOn(ops, grace, n, item, i, Run(ops, grace).log[i])
  {
    if ops != [] {
      var last := |ops| - 1;
      var before, op := ops[..last], ops[last];
      assert ops == before + [op];
      RunOne(before, op, grace);
      LogGrows(Run(before, grace), op, grace);
      if i < |Run(before, grace).log| {
        EveryRulingIsAnswered(before, grace, i);
        var n: nat, item :| RestsOn(before, grace, n, item, i, Run(before, grace).log[i]);
        RestsOnLater(before, op, grace, n, item, i, Run(before, grace).log[i]);
      } else {
        NewRuling(before, op, grace, i);
        var item :| RestsOn(ops, grace, last, item, i, Run(ops, grace).log[i]);
      }
    }
  }

  /**
   A valid verdict is only cached for a bundle whose gate was read as passing and whose every carried name
   a resolver answered, for this bundle, with what the FIRST vote for that name claims. So all votes got the
   key they claim if and only if no name is claimed with two keys: the name stage skips a name it has
   already resolved without comparing the second vote's key.
   */
  lemma ValidVerdictMeans(ops: seq<Op>, grace: nat, i: int)
    requires SaysValid(Run(ops, grace).log, i)
    ensures var item := Run(ops, grace).log[i].verdict.item;
            && item.gate.Some? && item.gate.value.satisfied == Gate.Yes
            && (exists n: nat :: RestsOn(ops, grace, n, item, i, Run(ops, grace).log[i]))
            && NamesSettled(item.bundle, item.resolvedNames)
            && (AllClaimsResolved(item.bundle, item.resolvedNames) <==> NameConsistent(item.bundle))
  {
    var log := Run(ops, grace).log;
    EveryRulingIsAnswered(ops, grace, i);
    var n: nat, item :| RestsOn(ops, grace, n, item, i, log[i]);
    EveryBundleSettlesOnce(ops, log[i].cid, grace);
    UnbrokenPrefix(log, log[i].cid, grace, i);
    ClaimsResolvedExactly(log[i].verdict.item.bundle, log[i].verdict.item.resolvedNames);
  }

  ghost predicate GateEverSaid(ops: seq<Op>, grace: nat, c: Cid) {
    exists k: nat, bundle, gate :: GateSaid(ops, grace, k, c, bundle, gate)
  }

  /** Whatever is ruled on has a gate result: it is refused by it, or it was let through to its names by it. */
  lemma RuledHasGate(ops: seq<Op>, grace: nat, n: nat, item: Item, i: nat, e: Event)
    requires RestsOn(ops, grace, n, item, i, e) && !(e.Cached? && e.verdict.Valid?)
    ensures item.gate.Some?
  {
    if e.Evicted? && e.why.BadName? {
      EveryRunFollowed(ops[..n], grace);
      var s := Run(ops[..n], grace);
      NothingIsStranded(ops[..n], grace);
      assert Followed(s, item.cid, grace) && Tracks(s, item, grace);
      assert HeldOnce(s, item.cid);
      FirstIsAlone(s, s.round.value);
    }
  }

  /**
   On every run: a bundle that no gate read has answered for, because every read failed or none came back,
   is neither evicted nor given a verdict; and no failing step evicts anybody.
   */
  lemma InfraFailureEvictsNobody(ops: seq<Op>, grace: nat, c: Cid, op: Op)
    requires op == GateReturns(None) || op == NameReturns(ResolverThrew)
    ensures !GateEverSaid(ops, grace, c) ==>
              forall i :: 0 <= i < |Run(ops, grace).log| && Ruling(Run(ops, grace).log[i]) ==> Run(ops, grace).log[i].cid != c
    ensures var s, t := Run(ops, grace), Run(ops + [op], grace);
            forall i :: |s.log| <= i < |t.log| ==> !t.log[i].Evicted? && (t.log[i].Cached? ==> t.log[i].verdict.Valid?)
  {
    FailureRulesOnNobody(Run(ops, grace), op, grace);
    RunOne(ops, op, grace);
    forall i: nat | i < |Run(ops, grace).log| && Ruling(Run(ops, grace).log[i]) ensures GateEverSaid(ops, grace, Run(ops, grace).log[i].cid) {
      RulingHasGate(ops, grace, i);
    }
  }

  lemma FailureRulesOnNobody(s: State, op: Op, grace: nat)
    requires op == GateReturns(None) || op == NameReturns(ResolverThrew)
    ensures var t := Step(s, op, grace);
            forall i :: |s.log| <= i < |t.log| ==> !t.log[i].Evicted? && (t.log[i].Cached? ==> t.log[i].verdict.Valid?)
  {
  }

  lemma RulingHasGate(ops: seq<Op>, grace: nat, i: nat)
    requires i < |Run(ops, grace).log| && Ruling(Run(ops, grace).log[i])
    ensures GateEverSaid(ops, grace, Run(ops, grace).log[i].cid)
  {
    var e := Run(ops, grace).log[i];
    EveryRulingIsAnswered(ops, grace, i);
    var n: nat, item :| RestsOn(ops, grace, n, item, i, e);
    if e.Cached? && e.verdict.Valid? {
      ValidVerdictMeans(ops, grace, i);
    } else {
      RuledHasGate(ops, grace, n, item, i, e);
    }
    var k: nat :| GateEvidence(ops[..n], grace, k, item);
    assert ops[..n][..k] == ops[..k] && ops[..n][k] == ops[k];
    assert GateSaid(ops, grace, k, item.cid, item.bundle, item.gate.value);
  }
}
