/**
 The shared chain-read pool as a state machine: pinned reads are deduplicated, grouped per block,
 cut into multicall chunks and run under one budget of round trips. Timers firing and calls coming
 back are steps of their own, so anything may happen between them.
 */
module CoalescerModel {
  import opened Wrappers
  import opened Bundles

  /** A contract read as a rule states it; the ABI also says how the result is decoded. */
  datatype Contract = Contract(address: string, abi: string, functionName: string, args: seq<string>)

  datatype Answer = Success(value: string) | Failure(error: string)

  datatype Outcome = Settled(answer: Answer) | NoResult | TransportFailed

  datatype Key = Key(block: nat, address: string, calldata: seq<Byte>)

  /** The client's limits, how a read is encoded (if it can be), and what the chain answers. */
  datatype World = World(
    readsPerCall: Positive,
    concurrency: Positive,
    encode: Contract -> Option<seq<Byte>>,
    answer: (nat, Contract) -> Answer)

  /** One shared promise: opened by the read stated here, settled at most once. */
  datatype Promise = Promise(key: Key, contract: Contract, outcome: Option<Outcome>)

  datatype Phase = Waiting | Calling | Pausing | Retrying

  /** A unit that needs a permit: a coalesced chunk, or a multicall passed through as it is. */
  datatype Job =
    | Chunk(block: nat, batch: seq<nat>, phase: Phase)
    | PassThrough(phase: Phase)

  /** What a caller asked for, and the promise it was handed (none: read directly). */
  datatype Asked = Asked(block: nat, contract: Contract, promise: Option<nat>)

  datatype State = State(
    active: nat,
    waiters: seq<nat>,
    jobs: map<nat, Job>,
    nextJob: nat,
    groups: map<nat, seq<nat>>,
    inFlight: map<Key, nat>,
    promises: seq<Promise>,
    asked: seq<Asked>,
    direct: nat)

  /** A read of another shape than a plain pinned one goes to the client as it is, outside the budget. */
  datatype Op =
    | Read(block: nat, contract: Contract)
    | DirectRead
    | DirectReturns
    | RawMulticall
    | WindowCloses(block: nat)
    | CallReturns(job: nat, results: Option<seq<Answer>>)
    | PauseOver(job: nat)

  const INITIAL := State(0, [], map[], 0, map[], map[], [], [], 0)

  // ---- permits ----

  function InPhase(s: State, j: nat, phase: Phase): State {
    if j in s.jobs then s.(jobs := s.jobs[j := s.jobs[j].(phase := phase)]) else s
  }

  /** Take a permit, or stand in line. */
  function Attempt(s: State, j: nat, w: World): State {
    if s.active < w.concurrency then InPhase(s.(active := s.active + 1), j, Calling)
    else s.(waiters := s.waiters + [j])
  }

  function Start(s: State, job: Job, w: World): State {
    Attempt(s.(jobs := s.jobs[s.nextJob := job], nextJob := s.nextJob + 1), s.nextJob, w)
  }

  function LetGo(s: State, j: nat): State {
    s.(active := if s.active > 0 then s.active - 1 else 0, jobs := s.jobs - {j})
  }

  /** Give the permit of job `j` back; the first in line tries again. */
  function Release(s: State, j: nat, w: World): State {
    var t := LetGo(s, j);
    if t.waiters == [] then t else Attempt(t.(waiters := t.waiters[1..]), t.waiters[0], w)
  }

  // ---- groups and chunks ----

  function StartChunks(s: State, block: nat, batch: seq<nat>, w: World): State
    decreases |batch|
  {
    if batch == [] then s
    else
      var k := if |batch| < w.readsPerCall then |batch| else w.readsPerCall;
      StartChunks(Start(s, Chunk(block, batch[..k], Waiting), w), block, batch[k..], w)
  }

  function Flush(s: State, block: nat, w: World): State {
    if block !in s.groups then s
    else StartChunks(s.(groups := s.groups - {block}), block, s.groups[block], w)
  }

  function KeyOf(block: nat, c: Contract, calldata: seq<Byte>): Key {
    Key(block, ToLower(c.address), calldata)
  }

  function GroupOf(s: State, block: nat): seq<nat> {
    if block in s.groups then s.groups[block] else []
  }

  /** A read nobody is waiting for yet joins its block's group. */
  function Join(s: State, block: nat, c: Contract, key: Key): State {
    var id := |s.promises|;
    s.(promises := s.promises + [Promise(key, c, None)],
       inFlight := s.inFlight[key := id],
       groups := s.groups[block := GroupOf(s, block) + [id]])
  }

  /** A group that fills one call does not wait for its window. */
  function FlushIfFull(s: State, block: nat, w: World): State {
    if |GroupOf(s, block)| >= w.readsPerCall then Flush(s, block, w) else s
  }

  /** The promise a read is handed. */
  function Ticket(s: State, block: nat, c: Contract, w: World): Option<nat> {
    match w.encode(c)
    case None => None
    case Some(calldata) =>
      var key := KeyOf(block, c, calldata);
      Some(if key in s.inFlight then s.inFlight[key] else |s.promises|)
  }

  function Enqueue(s: State, block: nat, c: Contract, w: World): State {
    var t := s.(asked := s.asked + [Asked(block, c, Ticket(s, block, c, w))]);
    match w.encode(c)
    case None => t.(direct := s.direct + 1)
    case Some(calldata) =>
      var key := KeyOf(block, c, calldata);
      if key in s.inFlight then t else FlushIfFull(Join(t, block, c, key), block, w)
  }

  // ---- settling ----

  /** Settling a promise a second time has no effect. */
  function SettleOne(s: State, id: nat, outcome: Outcome): State {
    if id >= |s.promises| then s
    else
      var p := s.promises[id];
      s.(promises := s.promises[id := if p.outcome.None? then p.(outcome := Some(outcome)) else p],
         inFlight := s.inFlight - {p.key})
  }

  function SettleAll(s: State, batch: seq<nat>, outcomes: seq<Outcome>): State
    requires |batch| == |outcomes|
    decreases |batch|
  {
    if batch == [] then s
    else
      var n := |batch| - 1;
      SettleOne(SettleAll(s, batch[..n], outcomes[..n]), batch[n], outcomes[n])
  }

  function OutcomeAt(results: seq<Answer>, i: nat): Outcome {
    if i < |results| then Settled(results[i]) else NoResult
  }

  function Outcomes(batch: seq<nat>, results: seq<Answer>): seq<Outcome> {
    seq(|batch|, i requires 0 <= i < |batch| => OutcomeAt(results, i))
  }

  function Failures(batch: seq<nat>): seq<Outcome> {
    seq(|batch|, _ => TransportFailed)
  }

  /** A round trip comes back; a failed first trip pauses, a failed second one fails its batch. */
  function Returned(s: State, j: nat, results: Option<seq<Answer>>, w: World): State
    requires j in s.jobs
  {
    var job := s.jobs[j];
    if job.PassThrough? then Release(s, j, w)
    else if results.Some? then Release(SettleAll(s, job.batch, Outcomes(job.batch, results.value)), j, w)
    else if job.phase == Calling then InPhase(s, j, Pausing)
    else Release(SettleAll(s, job.batch, Failures(job.batch)), j, w)
  }

  // ---- the whole machine ----

  predicate Enabled(s: State, op: Op) {
    match op
    case CallReturns(j, _) => j in s.jobs && s.jobs[j].phase in {Calling, Retrying}
    case PauseOver(j) => j in s.jobs && s.jobs[j].phase == Pausing
    case WindowCloses(block) => block in s.groups
    case DirectReturns => s.direct > 0
    case _ => true
  }

  /** One step; an operation that is not enabled does nothing. */
  function Step(s: State, op: Op, w: World): State {
    if !Enabled(s, op) then s
    else match op
      case Read(block, c) => Enqueue(s, block, c, w)
      case DirectRead => s.(direct := s.direct + 1)
      case DirectReturns => s.(direct := s.direct - 1)
      case RawMulticall => Start(s, PassThrough(Waiting), w)
      case WindowCloses(block) => Flush(s, block, w)
      case CallReturns(j, results) => Returned(s, j, results, w)
      case PauseOver(j) => InPhase(s, j, Retrying)
  }

  function Run(ops: seq<Op>, w: World): State {
    if ops == [] then INITIAL else Step(Run(ops[..|ops| - 1], w), ops[|ops| - 1], w)
  }

  /** What the chain answers the reads of a chunk, in order. */
  function ChainAnswers(s: State, job: Job, w: World): seq<Answer>
    requires job.Chunk?
  {
    seq(|job.batch|, i requires 0 <= i < |job.batch| =>
      if job.batch[i] < |s.promises| then w.answer(job.block, s.promises[job.batch[i]].contract) else Failure(""))
  }

  /** A multicall that comes back carries the chain's answers, at the chunk's block. */
  predicate Honest(s: State, op: Op, w: World) {
    op.CallReturns? && op.job in s.jobs && s.jobs[op.job].Chunk? && op.results.Some?
    ==> op.results.value == ChainAnswers(s, s.jobs[op.job], w)
  }

  predicate HonestRun(ops: seq<Op>, w: World) {
    ops == [] || (HonestRun(ops[..|ops| - 1], w) && Honest(Run(ops[..|ops| - 1], w), ops[|ops| - 1], w))
  }
}
