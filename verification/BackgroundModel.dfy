/**
 The background chain verifier as a state machine. A drain round is cut at its awaits (the batched
 gate read, each name resolution, the return of a round), and `enqueue`, `stop`, `resume`, the retry
 timer and the clock may act between any two of its steps.
 */
module BackgroundModel {
  import opened Wrappers
  import opened Bundles
  import Gate
  import GateVerdicts

  /** One provisionally admitted bundle; its gate answer and resolved names survive a retry. */
  datatype Item = Item(
    cid: Cid,
    bundle: Bundle,
    gateDone: bool,
    gateNotified: bool,
    resolvedNames: map<string, string>,
    gate: Option<Gate.Result>,
    queuedAt: nat)

  datatype Stage = AwaitingGate | BetweenItems | AwaitingName

  /** A round under way: what is left of its batch, and what it will queue again. */
  datatype Round = Round(batch: seq<Item>, requeue: seq<Item>, notYet: seq<Item>, stage: Stage)

  datatype Why =
    | Attributable(gate: Gate.Result)
    | GraceOver(gate: Gate.Result, queuedAt: nat, at: nat)
    | BadName(name: string)

  datatype Verdict = Valid(item: Item) | Reject(gate: Gate.Result)

  /** What the verifier tells its host. */
  datatype Event =
    | Enqueued(cid: Cid, bundle: Bundle, at: nat)
    | GateVerified(cid: Cid)
    | NameResolved(cid: Cid)
    | Evicted(cid: Cid, why: Why)
    | Cached(cid: Cid, verdict: Verdict)
    | InfraFailed
    | IdleResolved

  datatype State = State(
    queue: seq<Item>,
    inFlight: set<Cid>,
    draining: bool,
    stopped: bool,
    retryArmed: bool,
    round: Option<Round>,
    idleWaiters: nat,
    now: nat,
    log: seq<Event>)

  /** How a name resolution comes back. */
  datatype Resolution = NoResolver | DoesNotResolve | ResolvesTo(publicKey: string) | ResolverThrew

  type Scores = Bundle -> Gate.Result

  datatype Op =
    | Enqueue(entries: seq<Entry>)
    | Stop
    | Resume
    | TimerFires
    | Tick(elapsed: nat)
    | AskIdle
    | GateReturns(scores: Option<Scores>)
    | NextItem
    | NameReturns(resolution: Resolution)
    | RoundReturns

  function Emit(s: State, e: Event): State {
    s.(log := s.log + [e])
  }

  // ---- draining ----

  predicate NothingToDo(s: State) {
    s.queue == [] && !s.draining && !s.retryArmed
  }

  function MaybeResolveIdle(s: State): State {
    if NothingToDo(s) && s.idleWaiters > 0 then Emit(s.(idleWaiters := 0), IdleResolved) else s
  }

  /** The drain loop's test: start another round, or stop draining. */
  function DrainLoop(s: State): State {
    if s.queue != [] && !s.stopped && !s.retryArmed then
      s.(queue := [], round := Some(Round(s.queue, [], [], AwaitingGate)))
    else
      MaybeResolveIdle(s.(draining := false))
  }

  function KickDrain(s: State): State {
    if s.draining || s.stopped || s.queue == [] then MaybeResolveIdle(s)
    else DrainLoop(s.(draining := true))
  }

  function ArmRetry(s: State): State {
    if s.stopped || s.retryArmed then s else s.(retryArmed := true)
  }

  function EnqueueOne(s: State, e: Entry): State {
    if e.cid in s.inFlight then s
    else
      Emit(s.(inFlight := s.inFlight + {e.cid},
              queue := s.queue + [Item(e.cid, e.bundle, false, false, map[], None, s.now)]),
           Enqueued(e.cid, e.bundle, s.now))
  }

  function EnqueueAll(s: State, entries: seq<Entry>): State {
    if entries == [] then s else EnqueueOne(EnqueueAll(s, entries[..|entries| - 1]), entries[|entries| - 1])
  }

  // ---- one round ----

  function Gated(item: Item, scores: Scores): Item {
    if item.gateDone then item else item.(gate := Some(scores(item.bundle)), gateDone := true)
  }

  function GatedAll(batch: seq<Item>, scores: Scores): seq<Item> {
    seq(|batch|, i requires 0 <= i < |batch| => Gated(batch[i], scores))
  }

  /** The gate read came back: every ungated item is gated, or (it threw) none is. */
  function AfterGate(s: State, r: Round, scores: Option<Scores>): State {
    var batch := if scores.Some? then GatedAll(r.batch, scores.value) else r.batch;
    s.(round := Some(r.(batch := batch, stage := BetweenItems)))
  }

  /** The first item of the batch is finished, with these last events. */
  function Settle(s: State, r: Round, events: seq<Event>): State
    requires r.batch != []
  {
    s.(inFlight := s.inFlight - {r.batch[0].cid},
       round := Some(r.(batch := r.batch[1..], stage := BetweenItems)),
       log := s.log + events)
  }

  /** The next item of the batch, up to its first await. */
  function ProcessItem(s: State, r: Round, grace: nat): State
    requires r.batch != []
  {
    var item, rest := r.batch[0], r.(batch := r.batch[1..]);
    if !item.gateDone then
      s.(round := Some(rest.(requeue := r.requeue + [item])))
    else if item.gate.Some? && item.gate.value.satisfied != Gate.Yes then
      if GateVerdicts.GatePenalize(item.gate.value) then
        Settle(s, r, [Cached(item.cid, Reject(item.gate.value)), Evicted(item.cid, Attributable(item.gate.value))])
      else if s.now - item.queuedAt < grace then
        s.(round := Some(rest.(notYet := r.notYet + [item.(gateDone := false)])))
      else
        Settle(s, r, [Evicted(item.cid, GraceOver(item.gate.value, item.queuedAt, s.now))])
    else
      var told := if item.gateNotified then s else Emit(s, GateVerified(item.cid));
      told.(round := Some(r.(batch := [item.(gateNotified := true)] + r.batch[1..], stage := AwaitingName)))
  }

  /** The first vote whose name still has to be resolved; a name resolved once is not asked again. */
  function NextName(item: Item, from: nat): (i: nat)
    requires from <= |item.bundle.votes|
    ensures from <= i <= |item.bundle.votes|
    ensures i < |item.bundle.votes| ==> Unresolved(item, i)
    ensures forall k :: from <= k < i ==> !Unresolved(item, k)
    decreases |item.bundle.votes| - from
  {
    if from == |item.bundle.votes| then from
    else
      if Unresolved(item, from) then from else NextName(item, from + 1)
  }

  predicate Unresolved(item: Item, i: nat)
    requires i < |item.bundle.votes|
  {
    item.bundle.votes[i].name.Some? && item.bundle.votes[i].name.value !in item.resolvedNames
  }

  function AfterName(s: State, r: Round, resolution: Resolution): State
    requires r.batch != []
  {
    var item := r.batch[0];
    var i := NextName(item, 0);
    if i == |item.bundle.votes| then
      Settle(s, r, (if CarriesName(item.bundle) then [NameResolved(item.cid)] else []) + [Cached(item.cid, Valid(item))])
    else
      var vote := item.bundle.votes[i];
      match resolution
        case ResolverThrew =>
          s.(round := Some(r.(batch := r.batch[1..], requeue := r.requeue + [item], stage := BetweenItems)))
        case ResolvesTo(key) =>
          if key == vote.publicKey then
            var resolved := item.(resolvedNames := item.resolvedNames[vote.name.value := key]);
            s.(round := Some(r.(batch := [resolved] + r.batch[1..])))
          else Settle(s, r, [Evicted(item.cid, BadName(vote.name.value))])
        case _ => Settle(s, r, [Evicted(item.cid, BadName(vote.name.value))])
  }

  /** The batch is done: queue what must be looked at again and arm the timer. */
  function EndRound(s: State, r: Round): State {
    if r.requeue != [] then
      ArmRetry(Emit(s.(queue := s.queue + r.requeue + r.notYet, round := None), InfraFailed))
    else if r.notYet != [] then
      ArmRetry(s.(queue := s.queue + r.notYet, round := None))
    else s.(round := None)
  }

  // ---- the whole machine ----

  predicate Enabled(s: State, op: Op) {
    match op
    case TimerFires => s.retryArmed
    case GateReturns(scores) =>
      s.round.Some? && s.round.value.stage.AwaitingGate?
      && (scores.None? ==> exists i :: 0 <= i < |s.round.value.batch| && !s.round.value.batch[i].gateDone)
    case NextItem => s.round.Some? && s.round.value.stage.BetweenItems?
    case NameReturns(_) => s.round.Some? && s.round.value.stage.AwaitingName? && s.round.value.batch != []
    case RoundReturns => s.draining && s.round.None?
    case _ => true
  }

  /** One step; an operation that is not enabled does nothing. */
  function Step(s: State, op: Op, grace: nat): State {
    if !Enabled(s, op) then s
    else match op
      case Enqueue(entries) => KickDrain(EnqueueAll(s, entries))
      case Stop => MaybeResolveIdle(s.(stopped := true, retryArmed := false))
      case Resume => KickDrain(s.(stopped := false))
      case TimerFires => KickDrain(s.(retryArmed := false))
      case Tick(elapsed) => s.(now := s.now + elapsed)
      case AskIdle => if NothingToDo(s) then s else s.(idleWaiters := s.idleWaiters + 1)
      case GateReturns(scores) => AfterGate(s, s.round.value, scores)
      case NextItem => if s.round.value.batch == [] then EndRound(s, s.round.value) else ProcessItem(s, s.round.value, grace)
      case NameReturns(resolution) => AfterName(s, s.round.value, resolution)
      case RoundReturns => DrainLoop(s)
  }

  const INITIAL := State([], {}, false, false, false, None, 0, 0, [])

  /** Any sequence of operations, from the start. */
  function Run(ops: seq<Op>, grace: nat): State {
    if ops == [] then INITIAL else Step(Run(ops[..|ops| - 1], grace), ops[|ops| - 1], grace)
  }
}
