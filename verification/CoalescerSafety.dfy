/** What the chain-read pool keeps on every run. */
module CoalescerSafety {
  import opened Wrappers
  import opened Bundles
  import opened CoalescerModel
  import opened Sequences

  // ---- the budget ----

  function Running(s: State): set<nat> {
    set j | j in s.jobs && s.jobs[j].phase != Waiting
  }

  /** Permits taken are running jobs; jobs stand in line exactly when they wait, and only while the budget is full. */
  ghost predicate Budget(s: State, w: World) {
    && s.active == |Running(s)| <= w.concurrency
    && (s.waiters != [] ==> s.active == w.concurrency)
    && Distinct(s.waiters)
    && (forall j :: j in s.waiters <==> j in s.jobs && s.jobs[j].phase == Waiting)
    && (forall j <- s.jobs :: j < s.nextJob)
  }

  lemma AttemptBudget(s: State, j: nat, w: World)
    requires s.active == |Running(s)| <= w.concurrency
    requires s.waiters != [] ==> s.active + 1 >= w.concurrency
    requires Distinct(s.waiters) && j !in s.waiters && j in s.jobs && s.jobs[j].phase == Waiting
    requires forall k :: k in s.waiters <==> k != j && k in s.jobs && s.jobs[k].phase == Waiting
    requires forall k <- s.jobs :: k < s.nextJob
    ensures Budget(Attempt(s, j, w), w)
  {
    var t := Attempt(s, j, w);
    if s.active < w.concurrency {
      assert Running(t) == Running(s) + {j};
    } else {
      assert Running(t) == Running(s);
    }
  }

  lemma StartBudget(s: State, job: Job, w: World)
    requires Budget(s, w) && job.phase == Waiting
    ensures Budget(Start(s, job, w), w)
  {
    var t := s.(jobs := s.jobs[s.nextJob := job], nextJob := s.nextJob + 1);
    assert Running(t) == Running(s);
    AttemptBudget(t, s.nextJob, w);
  }

  lemma ReleaseBudget(s: State, j: nat, w: World)
    requires Budget(s, w) && j in s.jobs && s.jobs[j].phase != Waiting
    ensures Budget(Release(s, j, w), w)
  {
    var t := LetGo(s, j);
    assert j in Running(s) && Running(t) == Running(s) - {j};
    if t.waiters != [] {
      var u, first := t.(waiters := t.waiters[1..]), t.waiters[0];
      assert t.waiters == [first] + u.waiters;
      assert Running(u) == Running(t);
      AttemptBudget(u, first, w);
    }
  }

  lemma PhaseBudget(s: State, j: nat, phase: Phase, w: World)
    requires Budget(s, w) && j in s.jobs && s.jobs[j].phase != Waiting && phase != Waiting
    ensures Budget(InPhase(s, j, phase), w)
  {
    assert Running(InPhase(s, j, phase)) == Running(s);
  }

  lemma {:induction false} StartChunksBudget(s: State, block: nat, batch: seq<nat>, w: World)
    requires Budget(s, w)
    ensures Budget(StartChunks(s, block, batch, w), w)
    decreases |batch|
  {
    if batch != [] {
      var k := if |batch| < w.readsPerCall then |batch| else w.readsPerCall;
      StartBudget(s, Chunk(block, batch[..k], Waiting), w);
      StartChunksBudget(Start(s, Chunk(block, batch[..k], Waiting), w), block, batch[k..], w);
    }
  }

  predicate SameBudget(s: State, t: State) {
    s.active == t.active && s.waiters == t.waiters && s.jobs == t.jobs && s.nextJob == t.nextJob
  }

  lemma {:induction false} SettleAllBudget(s: State, batch: seq<nat>, outcomes: seq<Outcome>)
    requires |batch| == |outcomes|
    ensures SameBudget(s, SettleAll(s, batch, outcomes))
    decreases |batch|
  {
    if batch != [] {
      SettleAllBudget(s, batch[..|batch| - 1], outcomes[..|batch| - 1]);
    }
  }

  lemma FlushBudget(s: State, block: nat, w: World)
    requires Budget(s, w)
    ensures Budget(Flush(s, block, w), w)
  {
    if block in s.groups {
      var t := s.(groups := s.groups - {block});
      assert Running(t) == Running(s);
      StartChunksBudget(t, block, s.groups[block], w);
    }
  }

  lemma EnqueueBudget(s: State, block: nat, c: Contract, w: World)
    requires Budget(s, w)
    ensures Budget(Enqueue(s, block, c, w), w)
  {
    var t := s.(asked := s.asked + [Asked(block, c, Ticket(s, block, c, w))]);
    assert Running(t) == Running(s);
    if w.encode(c).Some? {
      var key := KeyOf(block, c, w.encode(c).value);
      var u := Join(t, block, c, key);
      assert Running(u) == Running(s);
      FlushBudget(u, block, w);
    }
  }

  lemma ReturnedBudget(s: State, j: nat, results: Option<seq<Answer>>, w: World)
    requires Budget(s, w) && j in s.jobs && s.jobs[j].phase != Waiting
    ensures Budget(Returned(s, j, results, w), w)
  {
    var job := s.jobs[j];
    if job.Chunk? {
      var outcomes := if results.Some? then Outcomes(job.batch, results.value) else Failures(job.batch);
      var t := SettleAll(s, job.batch, outcomes);
      SettleAllBudget(s, job.batch, outcomes);
      assert Running(t) == Running(s);
      ReleaseBudget(t, j, w);
      PhaseBudget(s, j, Pausing, w);
    } else {
      ReleaseBudget(s, j, w);
    }
  }

  lemma StepKeepsBudget(s: State, op: Op, w: World)
    requires Budget(s, w)
    ensures Budget(Step(s, op, w), w)
  {
    if Enabled(s, op) {
      match op
      case Read(block, c) => EnqueueBudget(s, block, c, w);
      case RawMulticall => StartBudget(s, PassThrough(Waiting), w);
      case DirectRead => assert Running(Step(s, op, w)) == Running(s);
      case DirectReturns => assert Running(Step(s, op, w)) == Running(s);
      case WindowCloses(block) => FlushBudget(s, block, w);
      case CallReturns(j, results) => ReturnedBudget(s, j, results, w);
      case PauseOver(j) => PhaseBudget(s, j, Retrying, w);
    }
  }

  // ---- where the reads are ----

  datatype Place = InGroup(block: nat) | InJob(job: nat)

  function At(s: State, p: Place): seq<nat> {
    match p
    case InGroup(block) => GroupOf(s, block)
    case InJob(j) => if j in s.jobs && s.jobs[j].Chunk? then s.jobs[j].batch else []
  }

  function BlockAt(s: State, p: Place): nat {
    match p
    case InGroup(block) => block
    case InJob(j) => if j in s.jobs && s.jobs[j].Chunk? then s.jobs[j].block else 0
  }

  /** An unsettled promise, known under its key. */
  predicate Pending(s: State, id: nat) {
    && id < |s.promises| && s.promises[id].outcome.None?
    && s.promises[id].key in s.inFlight && s.inFlight[s.promises[id].key] == id
  }

  /** One block's reads, each once, and no more than fit one call. */
  predicate PlaceOk(s: State, p: Place, w: World) {
    && Distinct(At(s, p))
    && (if p.InGroup? then |At(s, p)| < w.readsPerCall && (p.block in s.groups ==> At(s, p) != [])
        else |At(s, p)| <= w.readsPerCall)
    && (forall id <- At(s, p) :: Pending(s, id) && s.promises[id].key.block == BlockAt(s, p))
  }

  predicate Apart(s: State, p: Place, q: Place) {
    p != q ==> forall id <- At(s, p) :: id !in At(s, q)
  }

  ghost predicate Placed(s: State, id: nat) {
    exists p :: id in At(s, p)
  }

  predicate KeysMatch(s: State) {
    forall key <- s.inFlight :: Pending(s, s.inFlight[key]) && s.promises[s.inFlight[key]].key == key
  }

  ghost predicate ReadsInv(s: State, w: World) {
    && (forall p :: PlaceOk(s, p, w))
    && (forall p, q :: Apart(s, p, q))
    && (forall id :: 0 <= id < |s.promises| && s.promises[id].outcome.None? ==> Pending(s, id) && Placed(s, id))
    && KeysMatch(s)
  }

  /** Only permits, phases and the order of waiting changed. */
  ghost predicate SameReads(s: State, t: State) {
    && t.groups == s.groups && t.inFlight == s.inFlight && t.promises == s.promises
    && (forall p :: At(t, p) == At(s, p) && (At(s, p) != [] ==> BlockAt(t, p) == BlockAt(s, p)))
  }

  lemma SameReadsInv(s: State, t: State, w: World)
    requires SameReads(s, t) && ReadsInv(s, w)
    ensures ReadsInv(t, w)
  {
    forall p ensures PlaceOk(t, p, w) {
      assert PlaceOk(s, p, w);
    }
    forall p, q ensures Apart(t, p, q) {
      assert Apart(s, p, q);
    }
    forall id | 0 <= id < |t.promises| && t.promises[id].outcome.None? ensures Pending(t, id) && Placed(t, id) {
      assert Pending(s, id) && Placed(s, id);
      var p :| id in At(s, p);
      assert id in At(t, p);
    }
  }

  lemma AttemptReads(s: State, j: nat, w: World)
    ensures SameReads(s, Attempt(s, j, w))
  {
  }

  /** The group of `block` becomes the chunk of job `j`. */
  ghost predicate GroupMoves(s: State, t: State, block: nat, j: nat) {
    && j !in s.jobs && block in s.groups
    && t.inFlight == s.inFlight && t.promises == s.promises && t.groups == s.groups - {block}
    && At(t, InJob(j)) == s.groups[block] && BlockAt(t, InJob(j)) == block
    && (forall p :: p != InJob(j) && p != InGroup(block)
          ==> At(t, p) == At(s, p) && (At(s, p) != [] ==> BlockAt(t, p) == BlockAt(s, p)))
  }

  lemma FlushMoves(s: State, block: nat, w: World)
    requires block in s.groups && 0 < |s.groups[block]| <= w.readsPerCall && s.nextJob !in s.jobs
    ensures GroupMoves(s, Flush(s, block, w), block, s.nextJob)
  {
    var u, batch := s.(groups := s.groups - {block}), s.groups[block];
    assert batch[..|batch|] == batch && batch[|batch|..] == [];
    var v := u.(jobs := u.jobs[u.nextJob := Chunk(block, batch, Waiting)], nextJob := u.nextJob + 1);
    assert Flush(s, block, w) == StartChunks(Start(u, Chunk(block, batch, Waiting), w), block, [], w);
    AttemptReads(v, u.nextJob, w);
  }

  /** All of `ReadsInv` but the bound on the group of `block`, which may have just filled up. */
  ghost predicate ReadsInvFull(s: State, block: nat, w: World) {
    && (forall p :: p != InGroup(block) ==> PlaceOk(s, p, w))
    && block in s.groups && 0 < |s.groups[block]| <= w.readsPerCall && Distinct(s.groups[block])
    && (forall id <- s.groups[block] :: Pending(s, id) && s.promises[id].key.block == block)
    && (forall p, q :: Apart(s, p, q))
    && (forall id :: 0 <= id < |s.promises| && s.promises[id].outcome.None? ==> Pending(s, id) && Placed(s, id))
    && KeysMatch(s)
  }

  lemma FlushReads(s: State, block: nat, w: World)
    requires ReadsInvFull(s, block, w) && s.nextJob !in s.jobs
    ensures ReadsInv(Flush(s, block, w), w)
  {
    var t, j := Flush(s, block, w), s.nextJob;
    FlushMoves(s, block, w);
    assert At(s, InGroup(block)) == s.groups[block] && At(s, InJob(j)) == [] && At(t, InGroup(block)) == [];
    forall p ensures PlaceOk(t, p, w) {
      assert p != InGroup(block) ==> PlaceOk(s, p, w);
    }
    forall p, q ensures Apart(t, p, q) {
      var from := map[InJob(j) := InGroup(block)];
      assert Apart(s, if p in from then from[p] else p, if q in from then from[q] else q);
    }
    forall id | 0 <= id < |t.promises| && t.promises[id].outcome.None? ensures Pending(t, id) && Placed(t, id) {
      assert Pending(s, id) && Placed(s, id);
      var p :| id in At(s, p);
      assert id in At(t, if p == InGroup(block) then InJob(j) else p);
    }
  }

  /** A read that joins a group disturbs nothing that was placed. */
  lemma JoinAdds(s: State, block: nat, c: Contract, key: Key, w: World)
    requires ReadsInv(s, w) && key !in s.inFlight
    ensures var t, home := Join(s, block, c, key), InGroup(block);
            && At(t, home) == At(s, home) + [|s.promises|]
            && (forall p :: p != home ==> At(t, p) == At(s, p) && BlockAt(t, p) == BlockAt(s, p))
    ensures forall x :: Pending(s, x) ==> Pending(Join(s, block, c, key), x)
    ensures forall p :: |s.promises| !in At(s, p)
  {
    forall p ensures |s.promises| !in At(s, p) {
      assert PlaceOk(s, p, w);
    }
  }

  lemma JoinPlaces(s: State, block: nat, c: Contract, key: Key, w: World, p: Place)
    requires ReadsInv(s, w) && key !in s.inFlight && key.block == block
    ensures p != InGroup(block) ==> PlaceOk(Join(s, block, c, key), p, w)
    ensures p == InGroup(block) ==>
              var t := Join(s, block, c, key);
              && Distinct(At(t, p)) && |At(t, p)| <= w.readsPerCall
              && (forall id <- At(t, p) :: Pending(t, id) && t.promises[id].key.block == block)
  {
    var t := Join(s, block, c, key);
    assert PlaceOk(s, p, w);
    JoinAdds(s, block, c, key, w);
    forall id <- At(t, p) ensures Pending(t, id) && t.promises[id].key.block == BlockAt(t, p) {
      assert id == |s.promises| || (id in At(s, p) && Pending(s, id));
    }
  }

  lemma JoinPlaced(s: State, block: nat, c: Contract, key: Key, w: World, x: nat)
    requires ReadsInv(s, w) && key !in s.inFlight
    requires x < |Join(s, block, c, key).promises| && Join(s, block, c, key).promises[x].outcome.None?
    ensures Pending(Join(s, block, c, key), x) && Placed(Join(s, block, c, key), x)
  {
    var t := Join(s, block, c, key);
    JoinAdds(s, block, c, key, w);
    if x == |s.promises| {
      assert x in At(t, InGroup(block));
    } else {
      assert Pending(s, x) && Placed(s, x);
      var p :| x in At(s, p);
      assert x in At(t, p);
    }
  }

  lemma JoinReads(s: State, block: nat, c: Contract, key: Key, w: World)
    requires ReadsInv(s, w) && key !in s.inFlight && key.block == block
    ensures ReadsInvFull(Join(s, block, c, key), block, w)
  {
    var t := Join(s, block, c, key);
    JoinAdds(s, block, c, key, w);
    JoinPlaces(s, block, c, key, w, InGroup(block));
    assert At(t, InGroup(block)) == t.groups[block];
    forall p ensures p != InGroup(block) ==> PlaceOk(t, p, w) { JoinPlaces(s, block, c, key, w, p); }
    forall p, q ensures Apart(t, p, q) { assert Apart(s, p, q); }
    forall x | 0 <= x < |t.promises| && t.promises[x].outcome.None? ensures Pending(t, x) && Placed(t, x) {
      JoinPlaced(s, block, c, key, w, x);
    }
    forall k <- t.inFlight ensures Pending(t, t.inFlight[k]) && t.promises[t.inFlight[k]].key == k {
      assert k != key ==> Pending(s, s.inFlight[k]);
    }
  }

  lemma FullReads(s: State, block: nat, w: World)
    requires ReadsInvFull(s, block, w) && s.nextJob !in s.jobs
    ensures ReadsInv(FlushIfFull(s, block, w), w)
  {
    if |s.groups[block]| >= w.readsPerCall {
      FlushReads(s, block, w);
    } else {
      assert PlaceOk(s, InGroup(block), w);
    }
  }

  // ---- settling ----

  /** `t` is `s` with exactly the promises of `batch` settled, in order, and no longer in flight. */
  ghost predicate SettledBatch(s: State, t: State, batch: seq<nat>, outcomes: seq<Outcome>)
    requires |batch| == |outcomes|
  {
    && |t.promises| == |s.promises| && t.groups == s.groups && t.jobs == s.jobs && t.asked == s.asked
    && (forall id :: 0 <= id < |s.promises| && id !in batch ==> t.promises[id] == s.promises[id])
    && (forall i :: 0 <= i < |batch| ==>
          batch[i] < |s.promises| && t.promises[batch[i]] == s.promises[batch[i]].(outcome := Some(outcomes[i])))
    && (forall key :: key in t.inFlight <==> key in s.inFlight && s.inFlight[key] !in batch)
    && (forall key <- t.inFlight :: t.inFlight[key] == s.inFlight[key])
  }

  predicate AllPending(s: State, batch: seq<nat>) {
    forall id <- batch :: Pending(s, id)
  }

  lemma SettleOneMore(s: State, t: State, batch: seq<nat>, outcomes: seq<Outcome>, id: nat, outcome: Outcome)
    requires |batch| == |outcomes| && KeysMatch(s) && Pending(s, id) && id !in batch
    requires SettledBatch(s, t, batch, outcomes)
    ensures SettledBatch(s, SettleOne(t, id, outcome), batch + [id], outcomes + [outcome])
  {
    var u := SettleOne(t, id, outcome);
    assert t.promises[id] == s.promises[id];
    forall key ensures key in u.inFlight <==> key in s.inFlight && s.inFlight[key] !in batch + [id] {
      assert key in s.inFlight ==> (key == s.promises[id].key <==> s.inFlight[key] == id);
    }
  }

  lemma {:induction false} SettleAllSettles(s: State, batch: seq<nat>, outcomes: seq<Outcome>)
    requires |batch| == |outcomes| && Distinct(batch) && AllPending(s, batch) && KeysMatch(s)
    ensures SettledBatch(s, SettleAll(s, batch, outcomes), batch, outcomes)
    decreases |batch|
  {
    if batch != [] {
      var n := |batch| - 1;
      SettleAllSettles(s, batch[..n], outcomes[..n]);
      assert batch == batch[..n] + [batch[n]] && outcomes == outcomes[..n] + [outcomes[n]];
      SettleOneMore(s, SettleAll(s, batch[..n], outcomes[..n]), batch[..n], outcomes[..n], batch[n], outcomes[n]);
    }
  }

  /** Settling a chunk and letting its job go. */
  lemma SettledReads(s: State, t: State, j: nat, outcomes: seq<Outcome>, w: World)
    requires ReadsInv(s, w) && j in s.jobs && s.jobs[j].Chunk? && |outcomes| == |s.jobs[j].batch|
    requires SettledBatch(s, t.(jobs := s.jobs), s.jobs[j].batch, outcomes) && t.jobs == s.jobs - {j}
    ensures ReadsInv(t, w)
  {
    var home, batch := InJob(j), s.jobs[j].batch;
    assert PlaceOk(s, home, w) && At(s, home) == batch;
    assert At(t, home) == [] && forall p :: p != home ==> At(t, p) == At(s, p) && BlockAt(t, p) == BlockAt(s, p);
    forall p | p != home ensures forall x <- At(s, p) :: x !in batch && Pending(s, x) && Pending(t, x) {
      assert Apart(s, p, home) && PlaceOk(s, p, w);
    }
    forall p ensures PlaceOk(t, p, w) {
      assert PlaceOk(s, p, w);
    }
    forall p, q ensures Apart(t, p, q) {
      assert Apart(s, p, q);
    }
    forall x | 0 <= x < |t.promises| && t.promises[x].outcome.None? ensures Pending(t, x) && Placed(t, x) {
      assert x !in batch;
      assert Pending(s, x) && Placed(s, x);
      var p :| x in At(s, p);
      assert x in At(t, p);
    }
    forall key <- t.inFlight ensures Pending(t, t.inFlight[key]) && t.promises[t.inFlight[key]].key == key {
      assert Pending(s, s.inFlight[key]);
    }
  }

  lemma ReleaseReads(s: State, j: nat, w: World)
    ensures SameReads(s.(jobs := s.jobs - {j}), Release(s, j, w))
    ensures Release(s, j, w).asked == s.asked
  {
  }

  lemma ReturnedReads(s: State, j: nat, results: Option<seq<Answer>>, w: World)
    requires ReadsInv(s, w) && j in s.jobs
    ensures ReadsInv(Returned(s, j, results, w), w)
  {
    var job, t := s.jobs[j], Returned(s, j, results, w);
    if job.PassThrough? {
      ReleaseReads(s, j, w);
      SameReadsInv(s, t, w);
    } else if results.None? && job.phase == Calling {
      SameReadsInv(s, t, w);
    } else {
      var outcomes := if results.Some? then Outcomes(job.batch, results.value) else Failures(job.batch);
      assert PlaceOk(s, InJob(j), w);
      SettleAllSettles(s, job.batch, outcomes);
      var u := SettleAll(s, job.batch, outcomes);
      SettledReads(s, u.(jobs := u.jobs - {j}), j, outcomes, w);
      ReleaseReads(u, j, w);
      SameReadsInv(u.(jobs := u.jobs - {j}), t, w);
    }
  }

  lemma EnqueueReads(s: State, block: nat, c: Contract, w: World)
    requires ReadsInv(s, w) && Budget(s, w)
    ensures ReadsInv(Enqueue(s, block, c, w), w)
  {
    var u := s.(asked := s.asked + [Asked(block, c, Ticket(s, block, c, w))]);
    SameReadsInv(s, u, w);
    SameReadsInv(s, u.(direct := s.direct + 1), w);
    if w.encode(c).Some? && KeyOf(block, c, w.encode(c).value) !in s.inFlight {
      var key := KeyOf(block, c, w.encode(c).value);
      JoinReads(u, block, c, key, w);
      FullReads(Join(u, block, c, key), block, w);
    }
  }

  lemma WindowReads(s: State, block: nat, w: World)
    requires ReadsInv(s, w) && Budget(s, w) && block in s.groups
    ensures ReadsInv(Flush(s, block, w), w)
  {
    assert PlaceOk(s, InGroup(block), w) && At(s, InGroup(block)) == s.groups[block];
    FlushReads(s, block, w);
  }

  lemma StepKeepsReads(s: State, op: Op, w: World)
    requires ReadsInv(s, w) && Budget(s, w)
    ensures ReadsInv(Step(s, op, w), w)
  {
    if Enabled(s, op) {
      match op
      case Read(block, c) => EnqueueReads(s, block, c, w);
      case DirectRead => SameReadsInv(s, Step(s, op, w), w);
      case DirectReturns => SameReadsInv(s, Step(s, op, w), w);
      case RawMulticall => SameReadsInv(s, Start(s, PassThrough(Waiting), w), w);
      case WindowCloses(block) => WindowReads(s, block, w);
      case CallReturns(j, results) => ReturnedReads(s, j, results, w);
      case PauseOver(j) => SameReadsInv(s, InPhase(s, j, Retrying), w);
    }
  }
}
