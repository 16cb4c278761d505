/**
 The shared balance reads of the token gates. A batch is cut into chunks that concurrent workers claim,
 read and write back into one array, in whatever order the reads return.
 */
module NftBalance {
  import opened Wrappers

  const READS_PER_MULTICALL := 200
  const MULTICALL_CONCURRENCY := 2

  /** What `balanceOf` returns at the batch's block. */
  type Balances = string -> nat

  /** A chunk is read again once if its first read fails; a second failure rejects the worker. */
  datatype Worker = Ready | Reading(chunk: nat, again: bool) | Finished | Rejected(chunk: nat)

  datatype State = State(nextChunk: nat, workers: seq<Worker>, balances: seq<Option<nat>>)

  datatype Op = Claim(worker: nat) | Returns(worker: nat) | Fails(worker: nat)

  function ChunkCount(wallets: seq<string>): nat {
    (|wallets| + READS_PER_MULTICALL - 1) / READS_PER_MULTICALL
  }

  predicate InChunk(i: int, chunk: nat) {
    chunk * READS_PER_MULTICALL <= i < (chunk + 1) * READS_PER_MULTICALL
  }

  function Start(wallets: seq<string>): State {
    var count := if MULTICALL_CONCURRENCY < ChunkCount(wallets) then MULTICALL_CONCURRENCY else ChunkCount(wallets);
    State(0, seq(count, _ => Ready), seq(|wallets|, _ => None))
  }

  predicate Enabled(s: State, op: Op) {
    match op
    case Claim(w) => w < |s.workers| && s.workers[w].Ready?
    case Returns(w) => w < |s.workers| && s.workers[w].Reading?
    case Fails(w) => w < |s.workers| && s.workers[w].Reading?
  }

  /** A worker takes the next chunk, or stops when none is left; a chunk's balances land at its own place. */
  function Step(s: State, op: Op, wallets: seq<string>, balanceOf: Balances): State {
    if !Enabled(s, op) then s
    else match op
      case Claim(w) =>
        if s.nextChunk < ChunkCount(wallets)
        then s.(nextChunk := s.nextChunk + 1, workers := s.workers[w := Reading(s.nextChunk, false)])
        else s.(workers := s.workers[w := Finished])
      case Returns(w) =>
        s.(workers := s.workers[w := Ready],
           balances := seq(|s.balances|, i requires 0 <= i < |s.balances| =>
             if InChunk(i, s.workers[w].chunk) && i < |wallets| then Some(balanceOf(wallets[i])) else s.balances[i]))
      case Fails(w) =>
        var c := s.workers[w].chunk;
        s.(workers := s.workers[w := if s.workers[w].again then Rejected(c) else Reading(c, true)])
  }

  function Run(ops: seq<Op>, wallets: seq<string>, balanceOf: Balances): State {
    if ops == [] then Start(wallets)
    else Step(Run(ops[..|ops| - 1], wallets, balanceOf), ops[|ops| - 1], wallets, balanceOf)
  }

  predicate Done(s: State) {
    forall w :: 0 <= w < |s.workers| ==> s.workers[w].Finished?
  }

  /** A worker that holds a chunk, to read it or having failed to. */
  predicate Holds(w: Worker) {
    w.Reading? || w.Rejected?
  }

  predicate HeldBy(s: State, w: int, chunk: nat) {
    0 <= w < |s.workers| && Holds(s.workers[w]) && s.workers[w].chunk == chunk
  }

  ghost predicate InHand(s: State, chunk: nat) {
    exists w :: HeldBy(s, w, chunk)
  }

  predicate Written(s: State, chunk: nat) {
    forall i :: 0 <= i < |s.balances| && InChunk(i, chunk) ==> s.balances[i].Some?
  }

  ghost predicate Inv(s: State, wallets: seq<string>, balanceOf: Balances) {
    && |s.balances| == |wallets| && s.nextChunk <= ChunkCount(wallets)
    && |s.workers| == |Start(wallets).workers|
    && (forall i :: 0 <= i < |wallets| && s.balances[i].Some? ==> s.balances[i] == Some(balanceOf(wallets[i])))
    && (forall c: nat :: c < s.nextChunk ==> InHand(s, c) || Written(s, c))
    && (forall w :: 0 <= w < |s.workers| && Holds(s.workers[w]) ==> s.workers[w].chunk < s.nextChunk)
    && (forall v, w :: 0 <= v < w < |s.workers| && Holds(s.workers[v]) && Holds(s.workers[w]) ==> s.workers[v].chunk != s.workers[w].chunk)
    && (forall w :: 0 <= w < |s.workers| && s.workers[w].Finished? ==> s.nextChunk == ChunkCount(wallets))
  }

  /** Never more than two reads at once, and none of more than 200 wallets. */
  lemma ReadsAreBounded(ops: seq<Op>, wallets: seq<string>, balanceOf: Balances)
    ensures |Run(ops, wallets, balanceOf).workers| <= 2
    ensures forall i, j, chunk: nat :: InChunk(i, chunk) && InChunk(j, chunk) ==> -200 < i - j < 200
  {
    RunKeepsInv(ops, wallets, balanceOf);
  }

  lemma StepKeepsInv(s: State, op: Op, wallets: seq<string>, balanceOf: Balances)
    requires Inv(s, wallets, balanceOf)
    ensures Inv(Step(s, op, wallets, balanceOf), wallets, balanceOf)
  {
    if Enabled(s, op) {
      var t, w := Step(s, op, wallets, balanceOf), op.worker;
      forall c: nat | c < t.nextChunk ensures InHand(t, c) || Written(t, c) {
        if c < s.nextChunk && InHand(s, c) {
          var v :| HeldBy(s, v, c);
          assert v != w ==> HeldBy(t, v, c);
          assert op.Fails? ==> HeldBy(t, v, c);
        } else if c == s.nextChunk {
          assert HeldBy(t, w, c);
        }
      }
    }
  }

  lemma {:induction false} RunKeepsInv(ops: seq<Op>, wallets: seq<string>, balanceOf: Balances)
    ensures Inv(Run(ops, wallets, balanceOf), wallets, balanceOf)
  {
    if ops != [] {
      RunKeepsInv(ops[..|ops| - 1], wallets, balanceOf);
      StepKeepsInv(Run(ops[..|ops| - 1], wallets, balanceOf), ops[|ops| - 1], wallets, balanceOf);
    }
  }

  /** However the workers interleave, when all have finished each wallet's place holds its own balance. */
  lemma InterleavingDoesNotMatter(ops: seq<Op>, wallets: seq<string>, balanceOf: Balances)
    requires Done(Run(ops, wallets, balanceOf))
    ensures Run(ops, wallets, balanceOf).balances == seq(|wallets|, i requires 0 <= i < |wallets| => Some(balanceOf(wallets[i])))
  {
    RunKeepsInv(ops, wallets, balanceOf);
    var s := Run(ops, wallets, balanceOf);
    forall i | 0 <= i < |wallets| ensures s.balances[i].Some? {
      assert s.workers[0].Finished?;
      var c := i / READS_PER_MULTICALL;
      assert InChunk(i, c) && c < s.nextChunk;
      assert InHand(s, c) || Written(s, c);
    }
  }

  /** No chunk is ever in two workers' hands. */
  lemma ChunksAreClaimedOnce(ops: seq<Op>, wallets: seq<string>, balanceOf: Balances, v: nat, w: nat)
    requires var s := Run(ops, wallets, balanceOf); v < w < |s.workers| && Holds(s.workers[v]) && Holds(s.workers[w])
    ensures var s := Run(ops, wallets, balanceOf); s.workers[v].chunk != s.workers[w].chunk
  {
    RunKeepsInv(ops, wallets, balanceOf);
  }

  /** This step is the end of a read of `chunk`, well or badly. */
  predicate EndsRead(s: State, op: Op, chunk: nat) {
    Enabled(s, op) && !op.Claim? && s.workers[op.worker].chunk == chunk
  }

  /** How often a chunk has been read. */
  function Reads(ops: seq<Op>, wallets: seq<string>, balanceOf: Balances, chunk: nat): nat {
    if ops == [] then 0
    else
      var before := ops[..|ops| - 1];
      Reads(before, wallets, balanceOf, chunk)
      + if EndsRead(Run(before, wallets, balanceOf), ops[|ops| - 1], chunk) then 1 else 0
  }

  /** What the worker that holds a chunk says of its reads so far; unclaimed, it was never read. */
  ghost predicate ReadsFit(s: State, chunk: nat, times: nat) {
    && times <= 2
    && (chunk >= s.nextChunk ==> times == 0)
    && (forall w :: HeldBy(s, w, chunk) ==> times == if s.workers[w].Rejected? then 2 else if s.workers[w].again then 1 else 0)
    && (times == 2 && !Written(s, chunk) ==> InHand(s, chunk))
  }

  lemma {:induction false} ReadsAreFew(ops: seq<Op>, wallets: seq<string>, balanceOf: Balances, chunk: nat)
    ensures ReadsFit(Run(ops, wallets, balanceOf), chunk, Reads(ops, wallets, balanceOf, chunk))
  {
    if ops != [] {
      var n := |ops| - 1;
      ReadsAreFew(ops[..n], wallets, balanceOf, chunk);
      RunKeepsInv(ops[..n], wallets, balanceOf);
      StepFits(Run(ops[..n], wallets, balanceOf), ops[n], wallets, balanceOf, chunk, Reads(ops[..n], wallets, balanceOf, chunk));
    }
  }

  lemma StepFits(s: State, op: Op, wallets: seq<string>, balanceOf: Balances, chunk: nat, times: nat)
    requires Inv(s, wallets, balanceOf) && ReadsFit(s, chunk, times)
    ensures ReadsFit(Step(s, op, wallets, balanceOf), chunk, times + if EndsRead(s, op, chunk) then 1 else 0)
  {
    if Enabled(s, op) {
      var t, w := Step(s, op, wallets, balanceOf), op.worker;
      assert EndsRead(s, op, chunk) ==> HeldBy(s, w, chunk);
      forall v | HeldBy(t, v, chunk) && v != w ensures HeldBy(s, v, chunk) && s.workers[v] == t.workers[v] {
      }
      if InHand(s, chunk) {
        var v :| HeldBy(s, v, chunk);
        assert v != w ==> HeldBy(t, v, chunk);
        assert op.Fails? ==> HeldBy(t, v, chunk);
      }
    }
  }

  /**
   Every chunk is read at most twice, and a second time only after its first read failed; a worker is
   rejected, and with it the whole call, exactly when both reads of its chunk failed.
   */
  lemma ReadsAreRetriedOnce(ops: seq<Op>, wallets: seq<string>, balanceOf: Balances, w: nat)
    requires w < |Run(ops, wallets, balanceOf).workers| && Holds(Run(ops, wallets, balanceOf).workers[w])
    ensures var worker := Run(ops, wallets, balanceOf).workers[w];
            var times := Reads(ops, wallets, balanceOf, worker.chunk);
            && times <= 2
            && (worker.Rejected? <==> times == 2)
            && (worker.Reading? ==> (worker.again <==> times == 1))
  {
    var worker := Run(ops, wallets, balanceOf).workers[w];
    ReadsAreFew(ops, wallets, balanceOf, worker.chunk);
    assert HeldBy(Run(ops, wallets, balanceOf), w, worker.chunk);
  }

  /** The call resolves, with every wallet's balance, exactly if all workers finish; one rejected worker rejects it. */
  lemma ResolvesExactly(ops: seq<Op>, wallets: seq<string>, balanceOf: Balances)
    requires forall w <- Run(ops, wallets, balanceOf).workers :: w.Finished? || w.Rejected?
    ensures var s := Run(ops, wallets, balanceOf);
            s.balances == seq(|wallets|, i requires 0 <= i < |wallets| => Some(balanceOf(wallets[i]))) || exists w <- s.workers :: w.Rejected?
    ensures Done(Run(ops, wallets, balanceOf)) <==> !exists w <- Run(ops, wallets, balanceOf).workers :: w.Rejected?
  {
    var s := Run(ops, wallets, balanceOf);
    if !exists w <- s.workers :: w.Rejected? {
      forall w | 0 <= w < |s.workers| ensures s.workers[w].Finished? {
        assert s.workers[w] in s.workers;
      }
      InterleavingDoesNotMatter(ops, wallets, balanceOf);
    }
  }

  class BalanceBatch {
    const wallets: seq<string>
    const balances: array<Option<nat>>
    var nextChunk: nat
    var workers: seq<Worker>

    constructor (wallets: seq<string>)
      ensures Snapshot() == Start(wallets) && this.wallets == wallets && fresh(balances)
    {
      this.wallets := wallets;
      balances := new Option<nat>[|wallets|](_ => None);
      nextChunk := 0;
      workers := Start(wallets).workers;
    }

    ghost function Snapshot(): State
      reads this, balances
    {
      State(nextChunk, workers, balances[..])
    }

    method Claim(w: nat)
      requires Enabled(Snapshot(), Op.Claim(w))
      modifies this
      ensures forall balanceOf :: Snapshot() == Step(old(Snapshot()), Op.Claim(w), wallets, balanceOf)
    {
      if nextChunk < ChunkCount(wallets) {
        workers := workers[w := Reading(nextChunk, false)];
        nextChunk := nextChunk + 1;
      } else {
        workers := workers[w := Finished];
      }
    }

    /** A chunk's read fails: once more after a pause, or the worker rejects. */
    method Fails(w: nat)
      requires Enabled(Snapshot(), Op.Fails(w))
      modifies `workers
      ensures forall balanceOf :: Snapshot() == Step(old(Snapshot()), Op.Fails(w), wallets, balanceOf)
    {
      var c := workers[w].chunk;
      workers := workers[w := if workers[w].again then Rejected(c) else Reading(c, true)];
    }

    /** A chunk's read is back: its balances go to the chunk's own stretch of the array. */
    method Returns(w: nat, balanceOf: Balances)
      requires balances.Length == |wallets|
      requires Enabled(Snapshot(), Op.Returns(w))
      modifies this, balances
      ensures Snapshot() == Step(old(Snapshot()), Op.Returns(w), wallets, balanceOf)
    {
      var from := workers[w].chunk * READS_PER_MULTICALL;
      var i := 0;
      while i < READS_PER_MULTICALL && from + i < |wallets|
        invariant 0 <= i <= READS_PER_MULTICALL && workers == old(workers) && nextChunk == old(nextChunk)
        invariant forall k :: 0 <= k < balances.Length ==>
                    balances[k] == if from <= k < from + i then Some(balanceOf(wallets[k])) else old(balances[k])
      {
        balances[from + i] := Some(balanceOf(wallets[from + i]));
        i := i + 1;
      }
      workers := workers[w := Ready];
      assert forall k :: 0 <= k < balances.Length ==> balances[..][k] == balances[k];
    }
  }
}
