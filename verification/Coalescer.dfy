/** The wrapped chain client: the pool's variables as fields, each method proved to take the model's step. */
module Coalescers {
  import opened Wrappers
  import opened Bundles
  import M = CoalescerModel
  import R = CoalescerRefinement
  import S = CoalescerSafety

  class Coalescer {
    const world: M.World
    var active: nat
    var waiters: seq<nat>
    var jobs: map<nat, M.Job>
    var nextJob: nat
    var groups: map<nat, seq<nat>>
    var inFlight: map<M.Key, nat>
    var promises: seq<M.Promise>
    var asked: seq<M.Asked>
    /** Reads the client is answering outside the budget. */
    var direct: nat

    constructor (world: M.World)
      ensures State() == M.INITIAL && this.world == world
    {
      this.world := world;
      active, nextJob, direct := 0, 0, 0;
      waiters, promises, asked := [], [], [];
      jobs, groups, inFlight := map[], map[], map[];
    }

    ghost function State(): M.State
      reads this
    {
      M.State(active, waiters, jobs, nextJob, groups, inFlight, promises, asked, direct)
    }

    method Attempt(j: nat)
      requires j in jobs
      modifies `active, `jobs, `waiters
      ensures State() == M.Attempt(old(State()), j, world)
    {
      if active < world.concurrency {
        active := active + 1;
        jobs := jobs[j := jobs[j].(phase := M.Calling)];
      } else {
        waiters := waiters + [j];
      }
    }

    /** Begin a job: it takes a permit or stands in line. */
    method Start(job: M.Job)
      modifies `active, `jobs, `waiters, `nextJob
      ensures State() == M.Start(old(State()), job, world)
    {
      var j := nextJob;
      jobs := jobs[j := job];
      nextJob := nextJob + 1;
      Attempt(j);
    }

    /** A job ends: its permit goes to the first in line. */
    method Release(j: nat)
      requires active > 0 && forall k <- waiters :: k in jobs && k != j
      modifies `active, `jobs, `waiters
      ensures State() == M.Release(old(State()), j, world)
    {
      active := active - 1;
      jobs := jobs - {j};
      if |waiters| > 0 {
        var first := waiters[0];
        waiters := waiters[1..];
        Attempt(first);
      }
    }

    /** A block's group leaves as chunks of at most `readsPerCall` reads. */
    method FlushGroup(block: nat)
      modifies this
      ensures State() == M.Flush(old(State()), block, world)
    {
      if block !in groups { return; }
      var batch := groups[block];
      groups := groups - {block};
      var at := 0;
      assert batch[0..] == batch;
      while at < |batch|
        invariant at <= |batch|
        invariant M.StartChunks(State(), block, batch[at..], world) == M.Flush(old(State()), block, world)
      {
        var end := if at + world.readsPerCall < |batch| then at + world.readsPerCall else |batch|;
        assert batch[at..][..end - at] == batch[at..end] && batch[at..][end - at..] == batch[end..];
        Start(M.Chunk(block, batch[at..end], M.Waiting));
        at := end;
      }
    }

    /** One pinned read: share the promise already in flight under its key, or open one. */
    method EnqueueRead(block: nat, contract: M.Contract) returns (promise: Option<nat>)
      modifies this
      ensures State() == M.Enqueue(old(State()), block, contract, world)
      ensures asked == old(asked) + [M.Asked(block, contract, promise)]
    {
      var calldata := world.encode(contract);
      if calldata.None? {
        promise := None;
        asked := asked + [M.Asked(block, contract, promise)];
        direct := direct + 1;
        return;
      }
      var key := M.KeyOf(block, contract, calldata.value);
      if key in inFlight {
        promise := Some(inFlight[key]);
        asked := asked + [M.Asked(block, contract, promise)];
        return;
      }
      var id := |promises|;
      promise := Some(id);
      asked := asked + [M.Asked(block, contract, promise)];
      inFlight := inFlight[key := id];
      promises := promises + [M.Promise(key, contract, None)];
      if block !in groups { groups := groups[block := []]; }
      groups := groups[block := groups[block] + [id]];
      ghost var joined := M.Join(old(State()).(asked := asked), block, contract, key);
      assert groups == joined.groups;
      assert State() == joined;
      if |groups[block]| >= world.readsPerCall { FlushGroup(block); }
      R.StartChunksReads(joined.(groups := joined.groups - {block}), block, M.GroupOf(joined, block), world);
    }

    /** A read of any other shape keeps its own semantics: straight to the client, whatever the budget. */
    method ReadDirectly()
      modifies `direct
      ensures State() == M.Step(old(State()), M.DirectRead, world)
    {
      direct := direct + 1;
    }

    method DirectReturns()
      requires direct > 0
      modifies `direct
      ensures State() == M.Step(old(State()), M.DirectReturns, world)
    {
      direct := direct - 1;
    }

    /** A round trip is back: settle its reads and let the permit go, or pause before the one retry. */
    method CallReturns(j: nat, results: Option<seq<M.Answer>>)
      requires M.Enabled(State(), M.CallReturns(j, results))
      requires S.Budget(State(), world)
      modifies this
      ensures State() == M.Step(old(State()), M.CallReturns(j, results), world)
    {
      var job := jobs[j];
      assert j in S.Running(State());
      if job.PassThrough? {
        Release(j);
        return;
      }
      if results.None? && job.phase == M.Calling {
        jobs := jobs[j := job.(phase := M.Pausing)];
        return;
      }
      ghost var outcomes := if results.Some? then M.Outcomes(job.batch, results.value) else M.Failures(job.batch);
      for i := 0 to |job.batch|
        invariant jobs == old(jobs) && active == old(active) && waiters == old(waiters)
        invariant State() == M.SettleAll(old(State()), job.batch[..i], outcomes[..i])
      {
        var outcome := if results.None? then M.TransportFailed
                       else if i < |results.value| then M.Settled(results.value[i]) else M.NoResult;
        assert job.batch[..i + 1][..i] == job.batch[..i] && outcomes[..i + 1][..i] == outcomes[..i];
        Settle(job.batch[i], outcome);
      }
      assert job.batch[..|job.batch|] == job.batch && outcomes[..|job.batch|] == outcomes;
      Release(j);
    }

    method Settle(id: nat, outcome: M.Outcome)
      modifies `promises, `inFlight
      ensures State() == M.SettleOne(old(State()), id, outcome)
    {
      if id < |promises| {
        var p := promises[id];
        if p.outcome.None? { promises := promises[id := p.(outcome := Some(outcome))]; }
        inFlight := inFlight - {p.key};
      }
    }

    method PauseOver(j: nat)
      requires M.Enabled(State(), M.PauseOver(j))
      modifies `jobs
      ensures State() == M.Step(old(State()), M.PauseOver(j), world)
    {
      jobs := jobs[j := jobs[j].(phase := M.Retrying)];
    }

    /** A pinned multicall hands each entry to the pool, in order. */
    method Decompose(block: nat, contracts: seq<M.Contract>)
      modifies this
      ensures State() == R.EnqueueEach(old(State()), block, contracts, world)
    {
      for i := 0 to |contracts|
        invariant State() == R.EnqueueEach(old(State()), block, contracts[..i], world)
      {
        assert contracts[..i + 1][..i] == contracts[..i];
        var _ := EnqueueRead(block, contracts[i]);
      }
      assert contracts[..|contracts|] == contracts;
    }
  }

  /** Put a taken-apart multicall together again once every entry has settled. */
  method Combine(outcomes: seq<M.Outcome>, allowFailure: bool) returns (result: R.Multicalled)
    ensures result == R.Combined(outcomes, allowFailure)
    ensures allowFailure ==> result == R.Entries(outcomes)
    ensures forall i | !allowFailure && 0 <= i < |outcomes| && !(outcomes[i].Settled? && outcomes[i].answer.Success?)
                       && (forall k :: 0 <= k < i ==> outcomes[k].Settled? && outcomes[k].answer.Success?) :: result == R.Threw(outcomes[i])
    ensures !allowFailure && (forall i :: 0 <= i < |outcomes| ==> outcomes[i].Settled? && outcomes[i].answer.Success?) ==>
              && result.Values? && |result.values| == |outcomes|
              && forall i :: 0 <= i < |outcomes| ==> outcomes[i] == M.Settled(M.Success(result.values[i]))
  {
    R.CombinedMeans(outcomes, allowFailure);
    if allowFailure { return R.Entries(outcomes); }
    var i := 0;
    assert outcomes[0..] == outcomes;
    while i < |outcomes|
      invariant i <= |outcomes| && R.FirstRejected(outcomes) == i + R.FirstRejected(outcomes[i..])
    {
      if !(outcomes[i].Settled? && outcomes[i].answer.Success?) { return R.Threw(outcomes[i]); }
      assert outcomes[i..][1..] == outcomes[i + 1..];
      i := i + 1;
    }
    var values: seq<string> := [];
    for k := 0 to |outcomes|
      invariant |values| == k && forall m :: 0 <= m < k ==> values[m] == R.ValueOf(outcomes[m])
    {
      values := values + [R.ValueOf(outcomes[k])];
    }
    return R.Values(values);
  }
}
