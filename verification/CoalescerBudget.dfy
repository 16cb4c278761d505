/** Round trips against the budget: what passes through singly is not counted by it. */
module CoalescerBudget {
  import opened Wrappers
  import opened Bundles
  import opened CoalescerModel
  import opened CoalescerSafety
  import opened CoalescerRefinement
  import Runs

  /** The permitted jobs whose call is with the chain, and those pausing before their retry. */
  function OnTheWire(s: State): set<nat> {
    set j | j in s.jobs && s.jobs[j].phase in {Calling, Retrying}
  }

  function Resting(s: State): set<nat> {
    set j | j in s.jobs && s.jobs[j].phase == Pausing
  }

  /** All the calls that the client is answering. */
  function RoundTrips(s: State): nat {
    |OnTheWire(s)| + s.direct
  }

  lemma RunningSplits(s: State)
    ensures |Running(s)| == |OnTheWire(s)| + |Resting(s)|
  {
    assert Running(s) == OnTheWire(s) + Resting(s) && OnTheWire(s) !! Resting(s);
  }

  /** On every run the calls under the budget never exceed it, and permits are calls, or are held through a pause. */
  lemma BudgetAccounts(ops: seq<Op>, w: World)
    ensures var s := Run(ops, w);
            && |OnTheWire(s)| <= w.concurrency
            && RoundTrips(s) + |Resting(s)| == s.active + s.direct
            && (RoundTrips(s) <= w.concurrency <==> s.direct <= (w.concurrency - s.active) + |Resting(s)|)
  {
    PoolInvariant(ops, w);
    RunningSplits(Run(ops, w));
  }

  // ---- how many calls a step puts on the wire ----

  function Free(s: State, w: World): nat {
    if s.active < w.concurrency then w.concurrency - s.active else 0
  }

  function AtMost(n: nat, limit: nat): nat {
    if n < limit then n else limit
  }

  /** Into how many calls `reads` reads are cut. */
  function Chunks(count: nat, w: World): nat {
    if count == 0 then 0
    else 1 + Chunks(count - AtMost(count, w.readsPerCall), w)
  }

  /** The calls that would go out at once with a permit for each: by the guards of the step alone. */
  function Wants(s: State, op: Op, w: World): nat {
    match op
    case Read(block, c) => if ReadFlushes(s, block, c, w) then Chunks(|GroupOf(s, block)| + 1, w) else 0
    case RawMulticall => 1
    case WindowCloses(block) => if block in s.groups then Chunks(|s.groups[block]|, w) else 0
    case _ => 0
  }

  /** A read that nobody has asked for yet and that fills its block's group. */
  predicate ReadFlushes(s: State, block: nat, c: Contract, w: World) {
    && w.encode(c).Some? && KeyOf(block, c, w.encode(c).value) !in s.inFlight
    && |GroupOf(s, block)| + 1 >= w.readsPerCall
  }

  /**
   The calls a step puts on the wire: as many as want out and find a permit free; and, whatever the budget,
   one for a read passed through singly and one for a retry, which has kept its permit.
   */
  function PutsOut(s: State, op: Op, w: World): nat {
    if IsDirect(op, w) || (op.PauseOver? && Enabled(s, op)) then 1 else AtMost(Wants(s, op, w), Free(s, w))
  }

  /** A read that goes straight to the client: of another shape, or one that cannot be encoded. */
  predicate IsDirect(op: Op, w: World) {
    op.DirectRead? || (op.Read? && w.encode(op.contract).None?)
  }

  /** Pooled work leaves the direct calls alone. */
  lemma PooledKeepsDirect(s: State, op: Op, w: World)
    requires !IsDirect(op, w) && !op.DirectReturns?
    ensures Step(s, op, w).direct == s.direct
  {
    if Enabled(s, op) {
      match op
      case Read(block, c) =>
        var t := s.(asked := s.asked + [Asked(block, c, Ticket(s, block, c, w))]);
        var u := Join(t, block, c, KeyOf(block, c, w.encode(c).value));
        ChunksKeepDirect(u.(groups := u.groups - {block}), block, GroupOf(u, block), w);
      case WindowCloses(block) => ChunksKeepDirect(s.(groups := s.groups - {block}), block, s.groups[block], w);
      case CallReturns(j, results) =>
        var job := s.jobs[j];
        if job.Chunk? {
          SettleKeepsDirect(s, job.batch, if results.Some? then Outcomes(job.batch, results.value) else Failures(job.batch));
        }
      case _ =>
    }
  }

  lemma {:induction false} ChunksKeepDirect(s: State, block: nat, batch: seq<nat>, w: World)
    ensures StartChunks(s, block, batch, w).direct == s.direct
    decreases |batch|
  {
    if batch != [] {
      var k := if |batch| < w.readsPerCall then |batch| else w.readsPerCall;
      ChunksKeepDirect(Start(s, Chunk(block, batch[..k], Waiting), w), block, batch[k..], w);
    }
  }

  lemma {:induction false} SettleKeepsDirect(s: State, batch: seq<nat>, outcomes: seq<Outcome>)
    requires |batch| == |outcomes|
    ensures SettleAll(s, batch, outcomes).direct == s.direct
    decreases |batch|
  {
    if batch != [] {
      SettleKeepsDirect(s, batch[..|batch| - 1], outcomes[..|batch| - 1]);
    }
  }

  predicate AllPooled(ops: seq<Op>, w: World) {
    forall op <- ops :: !IsDirect(op, w)
  }

  /** A run that reads everything through the pool is within the budget throughout. */
  lemma {:induction false} PooledRunsStayWithin(ops: seq<Op>, w: World)
    requires AllPooled(ops, w)
    ensures Run(ops, w).direct == 0 && RoundTrips(Run(ops, w)) <= w.concurrency
  {
    if ops != [] {
      var n := |ops| - 1;
      assert forall op <- ops[..n] :: op in ops;
      PooledRunsStayWithin(ops[..n], w);
      if !ops[n].DirectReturns? { PooledKeepsDirect(Run(ops[..n], w), ops[n], w); }
    }
    BudgetAccounts(ops, w);
  }

  /** As many reads passed through singly as one likes are with the client at once. */
  lemma {:induction false} SingleReadsExceed(n: nat, w: World)
    ensures RoundTrips(Run(seq(n, _ => DirectRead), w)) == n
    ensures n > w.concurrency ==> RoundTrips(Run(seq(n, _ => DirectRead), w)) > w.concurrency
  {
    DirectReadsPile(n, w);
    assert OnTheWire(Run(seq(n, _ => DirectRead), w)) == {};
  }

  lemma {:induction false} DirectReadsPile(n: nat, w: World)
    ensures Run(seq(n, _ => DirectRead), w) == INITIAL.(direct := n)
  {
    if n > 0 {
      var ops := seq(n, _ => DirectRead);
      assert ops[..n - 1] == seq(n - 1, _ => DirectRead);
      DirectReadsPile(n - 1, w);
    }
  }

  // ---- exactly which steps leave the budget ----

  lemma AttemptPutsOut(s: State, j: nat, w: World)
    requires j in s.jobs && s.jobs[j].phase == Waiting
    ensures |OnTheWire(Attempt(s, j, w))| == |OnTheWire(s)| + AtMost(1, Free(s, w))
    ensures Free(Attempt(s, j, w), w) == Free(s, w) - AtMost(1, Free(s, w))
  {
    var t := Attempt(s, j, w);
    if s.active < w.concurrency {
      assert OnTheWire(t) == OnTheWire(s) + {j};
    } else {
      assert OnTheWire(t) == OnTheWire(s);
    }
  }

  lemma StartPutsOut(s: State, job: Job, w: World)
    requires Budget(s, w) && job.phase == Waiting
    ensures |OnTheWire(Start(s, job, w))| == |OnTheWire(s)| + AtMost(1, Free(s, w))
    ensures Free(Start(s, job, w), w) == Free(s, w) - AtMost(1, Free(s, w))
  {
    var t := s.(jobs := s.jobs[s.nextJob := job], nextJob := s.nextJob + 1);
    assert OnTheWire(t) == OnTheWire(s);
    AttemptPutsOut(t, s.nextJob, w);
  }

  lemma {:induction false} ChunksPutOut(s: State, block: nat, batch: seq<nat>, w: World)
    requires Budget(s, w)
    ensures |OnTheWire(StartChunks(s, block, batch, w))| == |OnTheWire(s)| + AtMost(Chunks(|batch|, w), Free(s, w))
    decreases |batch|
  {
    if batch != [] {
      var k := if |batch| < w.readsPerCall then |batch| else w.readsPerCall;
      var job := Chunk(block, batch[..k], Waiting);
      StartBudget(s, job, w);
      StartPutsOut(s, job, w);
      ChunksPutOut(Start(s, job, w), block, batch[k..], w);
    }
  }

  lemma FlushPutsOut(s: State, block: nat, w: World)
    requires Budget(s, w) && block in s.groups
    ensures RoundTrips(Flush(s, block, w)) == RoundTrips(s) + AtMost(Chunks(|s.groups[block]|, w), Free(s, w))
  {
    var t := s.(groups := s.groups - {block});
    assert Running(t) == Running(s) && OnTheWire(t) == OnTheWire(s);
    ChunksPutOut(t, block, s.groups[block], w);
    ChunksKeepDirect(t, block, s.groups[block], w);
  }

  lemma ReadPutsOut(s: State, block: nat, c: Contract, w: World)
    requires Budget(s, w)
    ensures RoundTrips(Enqueue(s, block, c, w)) == RoundTrips(s) + PutsOut(s, Read(block, c), w)
  {
    var t := s.(asked := s.asked + [Asked(block, c, Ticket(s, block, c, w))]);
    assert OnTheWire(t) == OnTheWire(s) && OnTheWire(t.(direct := s.direct + 1)) == OnTheWire(s);
    if w.encode(c).Some? && KeyOf(block, c, w.encode(c).value) !in s.inFlight {
      var u := Join(t, block, c, KeyOf(block, c, w.encode(c).value));
      assert Running(u) == Running(s) && OnTheWire(u) == OnTheWire(s);
      assert u.groups[block] == GroupOf(s, block) + [|s.promises|];
      if ReadFlushes(s, block, c, w) { FlushPutsOut(u, block, w); }
    }
  }

  /** A call that comes back makes room for at most one that stands in line. */
  lemma ReleaseTakesOff(s: State, j: nat, w: World)
    requires Budget(s, w) && j in OnTheWire(s)
    ensures |OnTheWire(Release(s, j, w))| <= |OnTheWire(s)|
  {
    var t := LetGo(s, j);
    assert OnTheWire(t) == OnTheWire(s) - {j};
    if t.waiters != [] {
      var u, first := t.(waiters := t.waiters[1..]), t.waiters[0];
      assert first in s.waiters && OnTheWire(u) == OnTheWire(t);
      AttemptPutsOut(u, first, w);
    }
  }

  lemma ChunkTakesOff(s: State, j: nat, outcomes: seq<Outcome>, w: World)
    requires Budget(s, w) && j in OnTheWire(s) && s.jobs[j].Chunk? && |outcomes| == |s.jobs[j].batch|
    ensures RoundTrips(Release(SettleAll(s, s.jobs[j].batch, outcomes), j, w)) <= RoundTrips(s)
  {
    var batch := s.jobs[j].batch;
    var t := SettleAll(s, batch, outcomes);
    SettleAllBudget(s, batch, outcomes);
    SettleKeepsDirect(s, batch, outcomes);
    assert OnTheWire(t) == OnTheWire(s);
    ReleaseTakesOff(t, j, w);
  }

  lemma ReturnTakesOff(s: State, j: nat, results: Option<seq<Answer>>, w: World)
    requires Budget(s, w) && j in OnTheWire(s)
    ensures RoundTrips(Returned(s, j, results, w)) <= RoundTrips(s)
  {
    var job := s.jobs[j];
    if job.Chunk? {
      ChunkTakesOff(s, j, if results.Some? then Outcomes(job.batch, results.value) else Failures(job.batch), w);
      assert OnTheWire(InPhase(s, j, Pausing)) == OnTheWire(s) - {j};
    } else {
      ReleaseTakesOff(s, j, w);
    }
  }

  /** Every step puts out what its guards say, or only takes calls off the wire. */
  lemma StepPutsOut(s: State, op: Op, w: World)
    requires Budget(s, w)
    ensures if op.CallReturns? || op.DirectReturns? then RoundTrips(Step(s, op, w)) <= RoundTrips(s)
            else RoundTrips(Step(s, op, w)) == RoundTrips(s) + PutsOut(s, op, w)
  {
    if Enabled(s, op) {
      match op
      case Read(block, c) => ReadPutsOut(s, block, c, w);
      case DirectRead => assert OnTheWire(Step(s, op, w)) == OnTheWire(s);
      case DirectReturns => assert OnTheWire(Step(s, op, w)) == OnTheWire(s);
      case RawMulticall => StartPutsOut(s, PassThrough(Waiting), w);
      case WindowCloses(block) => FlushPutsOut(s, block, w);
      case CallReturns(j, results) => ReturnTakesOff(s, j, results, w);
      case PauseOver(j) => assert OnTheWire(Step(s, op, w)) == OnTheWire(s) + {j};
    }
  }

  ghost predicate WithinAt(ops: seq<Op>, w: World, i: nat) {
    i <= |ops| && RoundTrips(Run(ops[..i], w)) <= w.concurrency
  }

  /** Step `i` puts more calls on the wire than are left of the bound, though each pooled one of them has its permit. */
  ghost predicate LeavesAt(ops: seq<Op>, w: World, i: nat) {
    && i < |ops| && !ops[i].CallReturns? && !ops[i].DirectReturns?
    && RoundTrips(Run(ops[..i], w)) + PutsOut(Run(ops[..i], w), ops[i], w) > w.concurrency
  }

  lemma WithinNext(ops: seq<Op>, w: World, i: nat)
    requires i < |ops| && WithinAt(ops, w, i)
    ensures WithinAt(ops, w, i + 1) <==> !LeavesAt(ops, w, i)
  {
    assert ops[..i + 1][..i] == ops[..i];
    PoolInvariant(ops[..i], w);
    StepPutsOut(Run(ops[..i], w), ops[i], w);
  }

  /**
   Main result on the bound of all round trips: a run keeps it throughout if and only if none of its steps
   puts more calls on the wire than are left of it. A step puts out one call for a read passed through singly
   and for a retry, and for pooled work as many as want out and find a permit: permits do not look at the
   reads passed through singly, so pooled work may be what breaks the bound.
   */
  lemma WithinBudgetExactly(ops: seq<Op>, w: World)
    ensures (forall i: nat :: i <= |ops| ==> WithinAt(ops, w, i)) <==> forall i: nat :: i < |ops| ==> !LeavesAt(ops, w, i)
  {
    var holds, breaks := (i: nat) => WithinAt(ops, w, i), (i: nat) => LeavesAt(ops, w, i);
    assert ops[..0] == [] && OnTheWire(INITIAL) == {};
    forall i: nat | i < |ops| && holds(i) ensures holds(i + 1) <==> !breaks(i) { WithinNext(ops, w, i); }
    Runs.ThroughoutExactly(holds, breaks, |ops|);
    assert forall i: nat | i <= |ops| :: holds(i) == WithinAt(ops, w, i);
    assert forall i: nat | i < |ops| :: breaks(i) == LeavesAt(ops, w, i);
  }

  /** With the client full of reads passed through singly, a multicall is still given a permit, and breaks the bound. */
  lemma PooledGrantExceeds(w: World)
    ensures var ops := seq(w.concurrency, _ => DirectRead);
            && RoundTrips(Run(ops, w)) == w.concurrency
            && RoundTrips(Run(ops + [RawMulticall], w)) == w.concurrency + 1
  {
    var ops := seq(w.concurrency, _ => DirectRead);
    SingleReadsExceed(w.concurrency, w);
    DirectReadsPile(w.concurrency, w);
    PoolInvariant(ops, w);
    assert (ops + [RawMulticall])[..|ops|] == ops;
    StepPutsOut(Run(ops, w), RawMulticall, w);
  }
}
