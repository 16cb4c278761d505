/** Reading through the pool against reading directly. */
module CoalescerRefinement {
  import opened Wrappers
  import opened Bundles
  import opened CoalescerModel
  import opened CoalescerSafety

  // ---- the invariants of a run ----

  /**
   Main result on scheduling. On every run of the pool: permits never exceed the budget and equal the
   running jobs; jobs stand in line only while the budget is full; every chunk and group holds reads of
   one block, no more than fit one call, none twice and none in two places; and the reads still in flight
   are exactly the unsettled promises, each of them in a group or a chunk.
   */
  lemma {:induction false} PoolInvariant(ops: seq<Op>, w: World)
    ensures Budget(Run(ops, w), w) && ReadsInv(Run(ops, w), w)
  {
    if ops == [] {
      assert Running(INITIAL) == {};
      assert forall p :: At(INITIAL, p) == [];
    } else {
      PoolInvariant(ops[..|ops| - 1], w);
      StepKeepsBudget(Run(ops[..|ops| - 1], w), ops[|ops| - 1], w);
      StepKeepsReads(Run(ops[..|ops| - 1], w), ops[|ops| - 1], w);
    }
  }

  /** While any promise is unsettled, a window can close, a call can come back, or a pause can end. */
  lemma NeverStuck(ops: seq<Op>, w: World, id: nat)
    requires id < |Run(ops, w).promises| && Run(ops, w).promises[id].outcome.None?
    ensures var s := Run(ops, w);
            || (exists block :: Enabled(s, WindowCloses(block)))
            || (exists j :: Enabled(s, CallReturns(j, None)))
            || (exists j :: Enabled(s, PauseOver(j)))
  {
    var s := Run(ops, w);
    PoolInvariant(ops, w);
    var p :| id in At(s, p);
    if p.InGroup? {
      assert Enabled(s, WindowCloses(p.block));
    } else {
      assert s.jobs[p.job].phase == Waiting ==> p.job in s.waiters && s.active > 0;
      var j := if s.jobs[p.job].phase == Waiting then RunningJob(s) else p.job;
      assert Enabled(s, CallReturns(j, None)) || Enabled(s, PauseOver(j));
    }
  }

  ghost function RunningJob(s: State): (j: nat)
    requires |Running(s)| > 0
    ensures j in Running(s)
  {
    var j :| j in Running(s);
    j
  }

  // ---- a promise is settled once, with the chain's answer ----

  /** Promises are only ever added, and a settled one never changes. */
  predicate Later(s: State, t: State) {
    && |s.promises| <= |t.promises|
    && s.asked <= t.asked
    && (forall id :: 0 <= id < |s.promises| ==>
          t.promises[id].(outcome := None) == s.promises[id].(outcome := None)
          && (s.promises[id].outcome.Some? ==> t.promises[id] == s.promises[id]))
  }

  lemma {:induction false} StartChunksReads(s: State, block: nat, batch: seq<nat>, w: World)
    ensures var t := StartChunks(s, block, batch, w);
            t.promises == s.promises && t.asked == s.asked && t.inFlight == s.inFlight
    decreases |batch|
  {
    if batch != [] {
      var k := if |batch| < w.readsPerCall then |batch| else w.readsPerCall;
      StartChunksReads(Start(s, Chunk(block, batch[..k], Waiting), w), block, batch[k..], w);
    }
  }

  lemma {:induction false} SettleAllLater(s: State, batch: seq<nat>, outcomes: seq<Outcome>)
    requires |batch| == |outcomes|
    ensures Later(s, SettleAll(s, batch, outcomes)) && SettleAll(s, batch, outcomes).asked == s.asked
    decreases |batch|
  {
    if batch != [] {
      SettleAllLater(s, batch[..|batch| - 1], outcomes[..|batch| - 1]);
    }
  }

  lemma EnqueueLater(s: State, block: nat, c: Contract, w: World)
    ensures Later(s, Enqueue(s, block, c, w))
  {
    if w.encode(c).Some? {
      var u := Join(s.(asked := s.asked + [Asked(block, c, Ticket(s, block, c, w))]), block, c, KeyOf(block, c, w.encode(c).value));
      StartChunksReads(u.(groups := u.groups - {block}), block, GroupOf(u, block), w);
    }
  }

  lemma ReturnedLater(s: State, j: nat, results: Option<seq<Answer>>, w: World)
    requires j in s.jobs
    ensures Later(s, Returned(s, j, results, w))
  {
    var job := s.jobs[j];
    if job.Chunk? && (results.Some? || job.phase != Calling) {
      var outcomes := if results.Some? then Outcomes(job.batch, results.value) else Failures(job.batch);
      SettleAllLater(s, job.batch, outcomes);
      ReleaseReads(SettleAll(s, job.batch, outcomes), j, w);
    }
  }

  /** No step reopens, replaces or drops a promise. */
  lemma SettledForever(s: State, op: Op, w: World)
    ensures Later(s, Step(s, op, w))
  {
    if Enabled(s, op) {
      match op
      case Read(block, c) => EnqueueLater(s, block, c, w);
      case WindowCloses(block) =>
        StartChunksReads(s.(groups := s.groups - {block}), block, s.groups[block], w);
      case CallReturns(j, results) => ReturnedLater(s, j, results, w);
      case _ =>
    }
  }

  /**
   How a chunk's round trip ends. With results: each read settles with its own, in order, and one past their end
   with none. A first failure settles nobody and pauses; a second one fails every read of the chunk.
   */
  lemma ReturnSettles(s: State, j: nat, results: Option<seq<Answer>>, w: World)
    requires ReadsInv(s, w) && j in s.jobs && s.jobs[j].Chunk?
    ensures var job, t := s.jobs[j], Returned(s, j, results, w);
            if results.None? && job.phase == Calling then
              t.promises == s.promises && j in t.jobs && t.jobs[j] == job.(phase := Pausing)
            else
              && |t.promises| == |s.promises| && (forall i :: 0 <= i < |job.batch| ==> job.batch[i] < |s.promises|)
              && (forall i :: 0 <= i < |job.batch| ==>
                    t.promises[job.batch[i]].outcome
                    == Some(if results.None? then TransportFailed
                            else if i < |results.value| then Settled(results.value[i]) else NoResult))
              && (forall id :: 0 <= id < |s.promises| && id !in job.batch ==> t.promises[id] == s.promises[id])
  {
    var job := s.jobs[j];
    if !(results.None? && job.phase == Calling) {
      var outcomes := if results.Some? then Outcomes(job.batch, results.value) else Failures(job.batch);
      assert PlaceOk(s, InJob(j), w) && At(s, InJob(j)) == job.batch;
      assert forall i | 0 <= i < |job.batch| :: job.batch[i] in job.batch;
      SettleAllSettles(s, job.batch, outcomes);
      SettleAllOpensNone(s, job.batch, outcomes);
      ReleaseReads(SettleAll(s, job.batch, outcomes), j, w);
    }
  }

  /** What a settled promise may hold: the chain's answer to the read that opened it, or a lost connection. */
  predicate OutcomeOk(p: Promise, w: World) {
    p.outcome.Some? ==> p.outcome.value == TransportFailed || p.outcome.value == Settled(w.answer(p.key.block, p.contract))
  }

  predicate HasKey(w: World, block: nat, c: Contract, key: Key) {
    w.encode(c).Some? && key == KeyOf(block, c, w.encode(c).value)
  }

  predicate PromiseOk(p: Promise, w: World) {
    HasKey(w, p.key.block, p.contract, p.key) && OutcomeOk(p, w)
  }

  predicate AskedOk(s: State, a: Asked, w: World) {
    if a.promise.None? then w.encode(a.contract).None?
    else a.promise.value < |s.promises| && HasKey(w, a.block, a.contract, s.promises[a.promise.value].key)
  }

  predicate Answers(s: State, w: World) {
    && (forall p <- s.promises :: PromiseOk(p, w))
    && (forall a <- s.asked :: AskedOk(s, a, w))
  }

  lemma EnqueueAnswers(s: State, block: nat, c: Contract, w: World)
    requires Answers(s, w) && ReadsInv(s, w)
    ensures Answers(Enqueue(s, block, c, w), w)
  {
    var a, t := Asked(block, c, Ticket(s, block, c, w)), Enqueue(s, block, c, w);
    if w.encode(c).Some? {
      var u := Join(s.(asked := s.asked + [a]), block, c, KeyOf(block, c, w.encode(c).value));
      StartChunksReads(u.(groups := u.groups - {block}), block, GroupOf(u, block), w);
    }
    assert t.asked == s.asked + [a];
    assert AskedOk(t, a, w);
    forall b <- t.asked ensures AskedOk(t, b, w) {
      assert b == a || b in s.asked;
    }
  }

  /** What a chunk's reads settle with is what the chain answers them at their block. */
  lemma BatchAnswers(s: State, t: State, j: nat, results: Option<seq<Answer>>, w: World, id: nat)
    requires ReadsInv(s, w) && j in s.jobs && s.jobs[j].Chunk? && Honest(s, CallReturns(j, results), w)
    requires var batch := s.jobs[j].batch;
             SettledBatch(s, t, batch, if results.Some? then Outcomes(batch, results.value) else Failures(batch))
    requires id < |s.promises| && PromiseOk(s.promises[id], w)
    ensures PromiseOk(t.promises[id], w)
  {
    var batch := s.jobs[j].batch;
    if id in batch {
      var i :| 0 <= i < |batch| && batch[i] == id;
      assert PlaceOk(s, InJob(j), w);
      assert At(s, InJob(j)) == batch && s.promises[id].key.block == s.jobs[j].block;
    }
  }

  lemma SettledAnswers(s: State, t: State, j: nat, results: Option<seq<Answer>>, w: World)
    requires Answers(s, w) && ReadsInv(s, w) && j in s.jobs && s.jobs[j].Chunk? && Honest(s, CallReturns(j, results), w)
    requires Later(s, t) && t.asked == s.asked
    requires var batch := s.jobs[j].batch;
             SettledBatch(s, t, batch, if results.Some? then Outcomes(batch, results.value) else Failures(batch))
    ensures Answers(t, w)
  {
    forall id | 0 <= id < |t.promises| ensures PromiseOk(t.promises[id], w) {
      assert s.promises[id] in s.promises;
      BatchAnswers(s, t, j, results, w, id);
    }
    AskedLater(s, t, w);
  }

  lemma AskedLater(s: State, t: State, w: World)
    requires Later(s, t) && t.asked == s.asked && forall a <- s.asked :: AskedOk(s, a, w)
    ensures forall a <- t.asked :: AskedOk(t, a, w)
  {
  }

  lemma ReturnedAnswers(s: State, j: nat, results: Option<seq<Answer>>, w: World)
    requires Answers(s, w) && ReadsInv(s, w) && j in s.jobs && Honest(s, CallReturns(j, results), w)
    ensures Answers(Returned(s, j, results, w), w)
  {
    var job, t := s.jobs[j], Returned(s, j, results, w);
    if job.Chunk? && (results.Some? || job.phase != Calling) {
      var outcomes := if results.Some? then Outcomes(job.batch, results.value) else Failures(job.batch);
      assert PlaceOk(s, InJob(j), w);
      assert At(s, InJob(j)) == job.batch;
      SettleAllSettles(s, job.batch, outcomes);
      SettleAllLater(s, job.batch, outcomes);
      var u := SettleAll(s, job.batch, outcomes);
      SettledAnswers(s, u, j, results, w);
      ReleaseReads(u, j, w);
      SameAnswers(u, t, w);
    }
  }

  lemma SameAnswers(s: State, t: State, w: World)
    requires Answers(s, w) && t.promises == s.promises && t.asked == s.asked
    ensures Answers(t, w)
  {
    forall a <- t.asked ensures AskedOk(t, a, w) {
      assert AskedOk(s, a, w);
    }
  }

  lemma {:induction false} RunAnswers(ops: seq<Op>, w: World)
    requires HonestRun(ops, w)
    ensures Answers(Run(ops, w), w)
  {
    if ops != [] {
      var n := |ops| - 1;
      var s, op := Run(ops[..n], w), ops[n];
      RunAnswers(ops[..n], w);
      PoolInvariant(ops[..n], w);
      if Enabled(s, op) {
        match op
        case Read(block, c) => EnqueueAnswers(s, block, c, w);
        case WindowCloses(block) =>
          StartChunksReads(s.(groups := s.groups - {block}), block, s.groups[block], w);
        case CallReturns(j, results) => ReturnedAnswers(s, j, results, w);
        case _ =>
      }
    }
  }

  // ---- the pool against direct reads ----

  /** One block, one address up to case, one calldata: what the pool takes for the same read. */
  predicate Alike(w: World, block: nat, c: Contract, other: nat, d: Contract) {
    block == other && ToLower(c.address) == ToLower(d.address) && w.encode(c).Some? && w.encode(d) == w.encode(c)
  }

  /** Reads that are alike have one answer: what likeness leaves out, how a result is decoded, decides nothing. */
  ghost predicate AlikeDecides(w: World) {
    forall block, c, d | Alike(w, block, c, block, d) :: w.answer(block, c) == w.answer(block, d)
  }

  /** On this run every read the pool answered got what reading it alone would have given. */
  ghost predicate AgreesWithDirect(ops: seq<Op>, w: World) {
    var s := Run(ops, w);
    forall a <- s.asked | a.promise.Some? && a.promise.value < |s.promises| && s.promises[a.promise.value].outcome.Some?
      :: s.promises[a.promise.value].outcome.value in {TransportFailed, Settled(w.answer(a.block, a.contract))}
  }

  lemma KeyedReadsAgree(ops: seq<Op>, w: World)
    requires AlikeDecides(w) && HonestRun(ops, w)
    ensures AgreesWithDirect(ops, w)
  {
    var s := Run(ops, w);
    RunAnswers(ops, w);
    forall a <- s.asked | a.promise.Some? && a.promise.value < |s.promises| && s.promises[a.promise.value].outcome.Some?
      ensures s.promises[a.promise.value].outcome.value in {TransportFailed, Settled(w.answer(a.block, a.contract))}
    {
      var p := s.promises[a.promise.value];
      assert AskedOk(s, a, w) && PromiseOk(p, w);
      assert Alike(w, a.block, a.contract, p.key.block, p.contract);
    }
  }

  /** Two reads that are alike, in one window, share the first one's result. */
  function SharingRun(block: nat, c: Contract, d: Contract, w: World): seq<Op> {
    [Read(block, c), Read(block, d), WindowCloses(block), CallReturns(0, Some([w.answer(block, c)]))]
  }

  /** A window with one read becomes one call, at once if nothing else runs. */
  lemma FlushOne(s: State, block: nat, w: World)
    requires block in s.groups ==> |s.groups[block]| == 1 && s.active == 0
    ensures Flush(s, block, w)
         == if block in s.groups
            then s.(groups := s.groups - {block}, active := 1, nextJob := s.nextJob + 1,
                    jobs := s.jobs[s.nextJob := Chunk(block, s.groups[block], Calling)])
            else s
  {
    if block in s.groups {
      var u, batch := s.(groups := s.groups - {block}), s.groups[block];
      assert batch[..1] == batch && batch[1..] == [];
      var v := u.(jobs := u.jobs[u.nextJob := Chunk(block, batch, Waiting)], nextJob := u.nextJob + 1);
      assert Flush(s, block, w) == StartChunks(Start(u, Chunk(block, batch, Waiting), w), block, [], w);
      assert Start(u, Chunk(block, batch, Waiting), w) == InPhase(v.(active := 1), u.nextJob, Calling);
      assert v.jobs[u.nextJob := Chunk(block, batch, Calling)] == s.jobs[s.nextJob := Chunk(block, batch, Calling)];
    }
  }

  /** One read under `key`, waiting for its window or already on its way. */
  function OneRead(block: nat, c: Contract, key: Key, asked: seq<Asked>, grouped: bool): State {
    if grouped then State(0, [], map[], 0, map[block := [0]], map[key := 0], [Promise(key, c, None)], asked, 0)
    else State(1, [], map[0 := Chunk(block, [0], Calling)], 1, map[], map[key := 0], [Promise(key, c, None)], asked, 0)
  }

  lemma FirstRead(block: nat, c: Contract, w: World)
    requires w.encode(c).Some?
    ensures Step(INITIAL, Read(block, c), w)
         == OneRead(block, c, KeyOf(block, c, w.encode(c).value), [Asked(block, c, Some(0))], w.readsPerCall > 1)
  {
    var key, asked := KeyOf(block, c, w.encode(c).value), [Asked(block, c, Some(0))];
    var grouped := OneRead(block, c, key, asked, true);
    assert INITIAL.asked + asked == asked && INITIAL.promises + grouped.promises == grouped.promises;
    assert GroupOf(INITIAL.(asked := asked), block) + [0] == [0];
    assert Join(INITIAL.(asked := asked), block, c, key) == grouped;
    assert Step(INITIAL, Read(block, c), w) == FlushIfFull(grouped, block, w);
    FlushOne(grouped, block, w);
    assert grouped.groups - {block} == map[];
  }

  lemma ThenWindow(block: nat, c: Contract, key: Key, asked: seq<Asked>, grouped: bool, w: World)
    ensures Step(OneRead(block, c, key, asked, grouped), WindowCloses(block), w) == OneRead(block, c, key, asked, false)
  {
    var s := OneRead(block, c, key, asked, grouped);
    FlushOne(s, block, w);
    if grouped {
      assert s.groups - {block} == map[];
    }
  }

  lemma ThenReturn(block: nat, c: Contract, key: Key, asked: seq<Asked>, w: World)
    ensures var s, op := OneRead(block, c, key, asked, false), CallReturns(0, Some([w.answer(block, c)]));
            && Honest(s, op, w)
            && Step(s, op, w).asked == asked
            && Step(s, op, w).promises == [Promise(key, c, Some(Settled(w.answer(block, c))))]
  {
    var s, answer := OneRead(block, c, key, asked, false), w.answer(block, c);
    assert ChainAnswers(s, s.jobs[0], w) == [answer];
    assert [0][..0] == [];
    assert SettleAll(s, [0], Outcomes([0], [answer])) == SettleOne(s, 0, Settled(answer));
  }

  lemma SharedResult(block: nat, c: Contract, d: Contract, w: World)
    requires Alike(w, block, c, block, d)
    ensures var ops := SharingRun(block, c, d, w);
            && HonestRun(ops, w)
            && Asked(block, d, Some(0)) in Run(ops, w).asked
            && |Run(ops, w).promises| == 1 && Run(ops, w).promises[0].outcome == Some(Settled(w.answer(block, c)))
  {
    var ops, key := SharingRun(block, c, d, w), KeyOf(block, c, w.encode(c).value);
    var asked := [Asked(block, c, Some(0)), Asked(block, d, Some(0))];
    assert ops[..4] == ops && ops[..4][..3] == ops[..3] && ops[..3][..2] == ops[..2] && ops[..2][..1] == ops[..1] && ops[..1][..0] == [];
    FirstRead(block, c, w);
    assert Run(ops[..1], w) == OneRead(block, c, key, asked[..1], w.readsPerCall > 1);
    assert asked[..1] + [asked[1]] == asked;
    assert Run(ops[..2], w) == OneRead(block, c, key, asked, w.readsPerCall > 1);
    ThenWindow(block, c, key, asked, w.readsPerCall > 1, w);
    assert Run(ops[..3], w) == OneRead(block, c, key, asked, false);
    ThenReturn(block, c, key, asked, w);
    assert HonestRun(ops[..0], w) && HonestRun(ops[..1], w) && HonestRun(ops[..2], w) && HonestRun(ops[..3], w);
    assert asked[1] in asked;
  }

  /**
   Main result. The pool agrees with issuing each read alone, on every run over an honest chain, if and
   only if reads of one block, one address up to case and one calldata have one answer. That leaves out how the
   ABI decodes the result, so two reads that differ only there share one decoded value.
   */
  lemma PoolRefinesDirectExactly(w: World)
    ensures (forall block, c, d | w.encode(c).Some? && w.encode(d) == w.encode(c) && ToLower(d.address) == ToLower(c.address) ::
               w.answer(block, c) == w.answer(block, d))
            <==> forall ops | HonestRun(ops, w) :: AgreesWithDirect(ops, w)
  {
    assert AlikeDecides(w) <==>
           forall block, c, d | w.encode(c).Some? && w.encode(d) == w.encode(c) && ToLower(d.address) == ToLower(c.address) ::
             w.answer(block, c) == w.answer(block, d) by {
      assert forall block, c, d :: Alike(w, block, c, block, d) <==>
               w.encode(c).Some? && w.encode(d) == w.encode(c) && ToLower(d.address) == ToLower(c.address);
    }
    if AlikeDecides(w) {
      forall ops | HonestRun(ops, w) ensures AgreesWithDirect(ops, w) { KeyedReadsAgree(ops, w); }
    }
    if forall ops | HonestRun(ops, w) :: AgreesWithDirect(ops, w) {
      forall block, c, d | Alike(w, block, c, block, d) ensures w.answer(block, c) == w.answer(block, d) {
        SharedResult(block, c, d, w);
        assert AgreesWithDirect(SharingRun(block, c, d, w), w);
      }
    }
  }

  // ---- who shares a promise ----

  /** Every read handed a promise is keyed as the promise is; a read handed none cannot be encoded. */
  ghost predicate AllAsked(s: State, w: World) {
    forall a <- s.asked :: AskedOk(s, a, w)
  }

  lemma StepKeepsAsked(s: State, op: Op, w: World)
    requires AllAsked(s, w) && ReadsInv(s, w)
    ensures AllAsked(Step(s, op, w), w)
  {
    var t := Step(s, op, w);
    SettledForever(s, op, w);
    forall a <- s.asked ensures AskedOk(t, a, w) {
      assert AskedOk(s, a, w);
      if a.promise.Some? {
        assert t.promises[a.promise.value].(outcome := None) == s.promises[a.promise.value].(outcome := None);
      }
    }
    if op.Read? {
      var a := Asked(op.block, op.contract, Ticket(s, op.block, op.contract, w));
      EnqueueAsks(s, op.block, op.contract, w);
      TicketOk(s, op.block, op.contract, w);
    } else {
      OnlyReadsAsk(s, op, w);
    }
  }

  lemma OnlyReadsAsk(s: State, op: Op, w: World)
    requires !op.Read?
    ensures Step(s, op, w).asked == s.asked
  {
    if Enabled(s, op) {
      match op
      case WindowCloses(block) => StartChunksReads(s.(groups := s.groups - {block}), block, s.groups[block], w);
      case CallReturns(j, results) =>
        var job := s.jobs[j];
        if job.Chunk? && (results.Some? || job.phase != Calling) {
          var outcomes := if results.Some? then Outcomes(job.batch, results.value) else Failures(job.batch);
          SettleAllLater(s, job.batch, outcomes);
          ReleaseReads(SettleAll(s, job.batch, outcomes), j, w);
        }
      case _ =>
    }
  }

  lemma TicketOk(s: State, block: nat, c: Contract, w: World)
    requires ReadsInv(s, w)
    ensures AskedOk(Enqueue(s, block, c, w), Asked(block, c, Ticket(s, block, c, w)), w)
  {
    if w.encode(c).Some? {
      var key := KeyOf(block, c, w.encode(c).value);
      var u := Join(s.(asked := s.asked + [Asked(block, c, Ticket(s, block, c, w))]), block, c, key);
      StartChunksReads(u.(groups := u.groups - {block}), block, GroupOf(u, block), w);
    }
  }

  lemma {:induction false} EveryAskedOk(ops: seq<Op>, w: World)
    ensures AllAsked(Run(ops, w), w)
  {
    if ops != [] {
      var n := |ops| - 1;
      EveryAskedOk(ops[..n], w);
      PoolInvariant(ops[..n], w);
      StepKeepsAsked(Run(ops[..n], w), ops[n], w);
    }
  }

  /** On every run, two reads handed one promise are of one block, one address up to case and one calldata. */
  lemma OnePromiseOneRead(ops: seq<Op>, w: World, a: Asked, b: Asked)
    requires a in Run(ops, w).asked && b in Run(ops, w).asked && a.promise.Some? && a.promise == b.promise
    ensures a.block == b.block && ToLower(a.contract.address) == ToLower(b.contract.address)
    ensures w.encode(a.contract).Some? && w.encode(a.contract) == w.encode(b.contract)
  {
    EveryAskedOk(ops, w);
    assert AskedOk(Run(ops, w), a, w) && AskedOk(Run(ops, w), b, w);
  }

  /** Every promise was handed to somebody. */
  ghost predicate Handed(s: State, id: nat) {
    exists a :: a in s.asked && a.promise == Some(id)
  }

  lemma StepKeepsHanded(s: State, op: Op, w: World, id: nat)
    requires id < |Step(s, op, w).promises| && (id < |s.promises| ==> Handed(s, id))
    ensures Handed(Step(s, op, w), id)
  {
    var t := Step(s, op, w);
    SettledForever(s, op, w);
    if id < |s.promises| {
      var a :| a in s.asked && a.promise == Some(id);
      assert a in t.asked;
    } else {
      OnlyReadsOpen(s, op, w);
      EnqueueAsks(s, op.block, op.contract, w);
      var a := Asked(op.block, op.contract, Ticket(s, op.block, op.contract, w));
      assert a in t.asked && a.promise == Some(id);
    }
  }

  /** Only a read opens a promise: one, and it is the one it is handed. */
  lemma OnlyReadsOpen(s: State, op: Op, w: World)
    ensures |Step(s, op, w).promises| > |s.promises| ==>
              op.Read? && |Step(s, op, w).promises| == |s.promises| + 1 && Ticket(s, op.block, op.contract, w) == Some(|s.promises|)
  {
    if Enabled(s, op) {
      match op
      case Read(block, c) =>
        if w.encode(c).Some? {
          var u := Join(s.(asked := s.asked + [Asked(block, c, Ticket(s, block, c, w))]), block, c, KeyOf(block, c, w.encode(c).value));
          StartChunksReads(u.(groups := u.groups - {block}), block, GroupOf(u, block), w);
        }
      case WindowCloses(block) => StartChunksReads(s.(groups := s.groups - {block}), block, s.groups[block], w);
      case CallReturns(j, results) =>
        var job := s.jobs[j];
        if job.Chunk? && (results.Some? || job.phase != Calling) {
          var outcomes := if results.Some? then Outcomes(job.batch, results.value) else Failures(job.batch);
          SettleAllOpensNone(s, job.batch, outcomes);
          ReleaseReads(SettleAll(s, job.batch, outcomes), j, w);
        }
      case _ =>
    }
  }

  lemma {:induction false} SettleAllOpensNone(s: State, batch: seq<nat>, outcomes: seq<Outcome>)
    requires |batch| == |outcomes|
    ensures |SettleAll(s, batch, outcomes).promises| == |s.promises|
    decreases |batch|
  {
    if batch != [] {
      SettleAllOpensNone(s, batch[..|batch| - 1], outcomes[..|batch| - 1]);
    }
  }

  lemma {:induction false} EveryPromiseHanded(ops: seq<Op>, w: World, id: nat)
    requires id < |Run(ops, w).promises|
    ensures Handed(Run(ops, w), id)
  {
    if ops != [] {
      var n := |ops| - 1;
      if id < |Run(ops[..n], w).promises| { EveryPromiseHanded(ops[..n], w, id); }
      StepKeepsHanded(Run(ops[..n], w), ops[n], w, id);
    }
  }

  /** An earlier read like this one, still waiting for its answer. */
  predicate WaitsAlike(s: State, w: World, a: Asked, block: nat, c: Contract) {
    && a.promise.Some? && a.promise.value < |s.promises| && s.promises[a.promise.value].outcome.None?
    && Alike(w, block, c, a.block, a.contract)
  }

  /**
   On every run: a read that can be encoded is handed the promise of each earlier one that is alike and still
   waits for its answer; if there is none, a promise of its own. One that cannot be encoded is handed none.
   */
  lemma SharesExactly(ops: seq<Op>, w: World, block: nat, c: Contract)
    ensures var s, t := Run(ops, w), Step(Run(ops, w), Read(block, c), w);
            && |t.asked| == |s.asked| + 1 && t.asked[..|s.asked|] == s.asked
            && var mine := t.asked[|s.asked|];
               && mine.block == block && mine.contract == c
               && (w.encode(c).None? <==> mine.promise.None?)
               && (forall a <- s.asked | WaitsAlike(s, w, a, block, c) :: mine.promise == a.promise)
               && (w.encode(c).Some? && (forall a <- s.asked :: !WaitsAlike(s, w, a, block, c)) ==> mine.promise == Some(|s.promises|))
  {
    var s := Run(ops, w);
    PoolInvariant(ops, w);
    EveryAskedOk(ops, w);
    EnqueueAsks(s, block, c, w);
    forall a <- s.asked | WaitsAlike(s, w, a, block, c) ensures Ticket(s, block, c, w) == a.promise {
      assert AskedOk(s, a, w);
      assert Pending(s, a.promise.value);
    }
    if w.encode(c).Some? && KeyOf(block, c, w.encode(c).value) in s.inFlight {
      var id := s.inFlight[KeyOf(block, c, w.encode(c).value)];
      EveryPromiseHanded(ops, w, id);
      var a :| a in s.asked && a.promise == Some(id);
      assert AskedOk(s, a, w) && WaitsAlike(s, w, a, block, c);
    }
  }

  // ---- a multicall taken apart ----

  datatype Multicalled = Entries(entries: seq<Outcome>) | Values(values: seq<string>) | Threw(reason: Outcome)

  predicate Rejected(o: Outcome) {
    !(o.Settled? && o.answer.Success?)
  }

  /** The first failed entry, or the end. */
  function FirstRejected(outcomes: seq<Outcome>): (i: nat)
    ensures i <= |outcomes|
    ensures i < |outcomes| ==> Rejected(outcomes[i])
    ensures forall k :: 0 <= k < i ==> !Rejected(outcomes[k])
  {
    if outcomes == [] || Rejected(outcomes[0]) then 0 else 1 + FirstRejected(outcomes[1..])
  }

  function ValueOf(o: Outcome): string {
    if Rejected(o) then "" else o.answer.value
  }

  /** A multicall's result from its entries' outcomes. */
  function Combined(outcomes: seq<Outcome>, allowFailure: bool): Multicalled {
    if allowFailure then Entries(outcomes)
    else
      var i := FirstRejected(outcomes);
      if i < |outcomes| then Threw(outcomes[i]) else Values(seq(|outcomes|, k requires 0 <= k < |outcomes| => ValueOf(outcomes[k])))
  }

  /** Failures allowed: entry by entry. Else the first failed entry is thrown, or every value returned in its place. */
  lemma CombinedMeans(outcomes: seq<Outcome>, allowFailure: bool)
    ensures var result := Combined(outcomes, allowFailure);
            && (allowFailure ==> result == Entries(outcomes))
            && (forall i | !allowFailure && 0 <= i < |outcomes| && Rejected(outcomes[i]) && (forall k :: 0 <= k < i ==> !Rejected(outcomes[k])) ::
                  result == Threw(outcomes[i]))
            && (!allowFailure && (forall i :: 0 <= i < |outcomes| ==> !Rejected(outcomes[i])) ==>
                  && result.Values? && |result.values| == |outcomes|
                  && forall i :: 0 <= i < |outcomes| ==> outcomes[i] == Settled(Success(result.values[i])))
  {
  }

  /** The multicall as one call against the chain. */
  function Undecomposed(block: nat, contracts: seq<Contract>, allowFailure: bool, w: World): Multicalled {
    Combined(seq(|contracts|, i requires 0 <= i < |contracts| => Settled(w.answer(block, contracts[i]))), allowFailure)
  }

  /** A pinned multicall's entries handed to the pool in order. */
  function EnqueueEach(s: State, block: nat, contracts: seq<Contract>, w: World): State
    decreases |contracts|
  {
    if contracts == [] then s
    else Enqueue(EnqueueEach(s, block, contracts[..|contracts| - 1], w), block, contracts[|contracts| - 1], w)
  }

  function ReadOps(block: nat, contracts: seq<Contract>): seq<Op> {
    seq(|contracts|, i requires 0 <= i < |contracts| => Read(block, contracts[i]))
  }

  /** The reads from the `from`-th on ask for the contracts, in order. */
  predicate AskedFor(asked: seq<Asked>, from: nat, block: nat, contracts: seq<Contract>) {
    |asked| == from + |contracts| && forall i :: 0 <= i < |contracts| ==> AsksFor(asked[from + i], block, contracts[i])
  }

  lemma OneMoreAsked(asked: seq<Asked>, more: seq<Asked>, from: nat, block: nat, contracts: seq<Contract>, n: nat)
    requires |contracts| == n + 1 && AskedFor(asked, from, block, contracts[..n])
    requires |more| == |asked| + 1 && more[..|asked|] == asked && AsksFor(more[|asked|], block, contracts[n])
    ensures AskedFor(more, from, block, contracts)
  {
    forall i | 0 <= i < |contracts| ensures AsksFor(more[from + i], block, contracts[i]) {
      if i < n {
        assert more[..|asked|][from + i] == asked[from + i] && contracts[..n][i] == contracts[i];
      }
    }
  }

  lemma {:induction false} EachAsks(s: State, block: nat, contracts: seq<Contract>, w: World)
    ensures AskedFor(EnqueueEach(s, block, contracts, w).asked, |s.asked|, block, contracts)
    decreases |contracts|
  {
    if contracts != [] {
      var n := |contracts| - 1;
      var t := EnqueueEach(s, block, contracts[..n], w);
      EachAsks(s, block, contracts[..n], w);
      EnqueueAsks(t, block, contracts[n], w);
      OneMoreAsked(t.asked, EnqueueEach(s, block, contracts, w).asked, |s.asked|, block, contracts, n);
    }
  }

  predicate AsksFor(a: Asked, block: nat, c: Contract) {
    a.block == block && a.contract == c
  }

  lemma RunOne(ops: seq<Op>, op: Op, w: World)
    ensures Run(ops + [op], w) == Step(Run(ops, w), op, w)
    ensures HonestRun(ops + [op], w) <==> HonestRun(ops, w) && Honest(Run(ops, w), op, w)
  {
    assert (ops + [op])[..|ops|] == ops;
  }

  lemma LastRead(ops: seq<Op>, block: nat, contracts: seq<Contract>)
    requires contracts != []
    ensures var n := |contracts| - 1;
            ops + ReadOps(block, contracts) == ops + ReadOps(block, contracts[..n]) + [Read(block, contracts[n])]
  {
    var n := |contracts| - 1;
    assert ReadOps(block, contracts) == ReadOps(block, contracts[..n]) + [Read(block, contracts[n])];
  }

  /** Taking a multicall apart is the run of its single reads, in order. */
  lemma {:induction false} DecomposeIsReads(ops: seq<Op>, block: nat, contracts: seq<Contract>, w: World)
    requires HonestRun(ops, w)
    ensures var more := ops + ReadOps(block, contracts);
            HonestRun(more, w) && Run(more, w) == EnqueueEach(Run(ops, w), block, contracts, w)
    decreases |contracts|
  {
    if contracts == [] {
      assert ops + ReadOps(block, contracts) == ops;
    } else {
      var n := |contracts| - 1;
      var most, last := ops + ReadOps(block, contracts[..n]), Read(block, contracts[n]);
      DecomposeIsReads(ops, block, contracts[..n], w);
      LastRead(ops, block, contracts);
      RunOne(most, last, w);
      assert Step(Run(most, w), last, w) == Enqueue(Run(most, w), block, contracts[n], w);
    }
  }

  lemma EnqueueAsks(s: State, block: nat, c: Contract, w: World)
    ensures Enqueue(s, block, c, w).asked == s.asked + [Asked(block, c, Ticket(s, block, c, w))]
  {
    if w.encode(c).Some? {
      var u := Join(s.(asked := s.asked + [Asked(block, c, Ticket(s, block, c, w))]), block, c, KeyOf(block, c, w.encode(c).value));
      StartChunksReads(u.(groups := u.groups - {block}), block, GroupOf(u, block), w);
    }
  }

  /** How one entry came back: through its promise, or directly. */
  predicate CameBack(s: State, a: Asked, outcome: Outcome, w: World) {
    if a.promise.None? then outcome in {TransportFailed, Settled(w.answer(a.block, a.contract))}
    else a.promise.value < |s.promises| && s.promises[a.promise.value].outcome == Some(outcome)
  }

  /**
   A pinned multicall taken apart returns, entry by entry, what the chain answers each call; so it returns
   what the whole multicall would have, unless a round trip failed twice.
   */
  lemma DecomposedEqualsWhole(ops: seq<Op>, w: World, from: nat, block: nat, contracts: seq<Contract>, outcomes: seq<Outcome>, allowFailure: bool)
    requires HonestRun(ops, w) && AlikeDecides(w)
    requires from + |contracts| <= |Run(ops, w).asked| && |outcomes| == |contracts|
    requires forall i :: 0 <= i < |contracts| ==>
               var a := Run(ops, w).asked[from + i];
               AsksFor(a, block, contracts[i]) && CameBack(Run(ops, w), a, outcomes[i], w)
    ensures forall i :: 0 <= i < |contracts| ==> outcomes[i] in {TransportFailed, Settled(w.answer(block, contracts[i]))}
    ensures TransportFailed !in outcomes ==> Combined(outcomes, allowFailure) == Undecomposed(block, contracts, allowFailure, w)
    ensures TransportFailed !in outcomes ==>
              var result := Combined(outcomes, allowFailure);
              && (allowFailure ==> result.Entries? && |result.entries| == |contracts|
                                   && forall i :: 0 <= i < |contracts| ==> result.entries[i] == Settled(w.answer(block, contracts[i])))
              && (!allowFailure && (forall i :: 0 <= i < |contracts| ==> w.answer(block, contracts[i]).Success?) ==>
                    && result.Values? && |result.values| == |contracts|
                    && forall i :: 0 <= i < |contracts| ==> w.answer(block, contracts[i]) == Success(result.values[i]))
              && (forall i | !allowFailure && 0 <= i < |contracts| && w.answer(block, contracts[i]).Failure?
                             && (forall k :: 0 <= k < i ==> w.answer(block, contracts[k]).Success?) ::
                    result == Threw(Settled(w.answer(block, contracts[i]))))
  {
    var s := Run(ops, w);
    KeyedReadsAgree(ops, w);
    forall i | 0 <= i < |contracts| ensures outcomes[i] in {TransportFailed, Settled(w.answer(block, contracts[i]))} {
      assert s.asked[from + i] in s.asked;
    }
    if TransportFailed !in outcomes {
      assert outcomes == seq(|contracts|, i requires 0 <= i < |contracts| => Settled(w.answer(block, contracts[i])));
      CombinedMeans(outcomes, allowFailure);
    }
  }
}
