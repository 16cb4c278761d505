/**
 Validations that overlap at their awaits: the head read, the verifier and the store. The check for an accepted
 choice is made before the verifier is asked, so another validation of the same choice can pass it meanwhile.
 */
module GossipOverlaps {
  import opened Bundles
  import opened AcceptedDedups
  import opened GossipGates
  import Fifo
  import Runs
  import W = Wrappers

  /** What a validation waits for. */
  datatype Stage = Asking | Verifying | Storing | Done(answer: MessageVerdict)

  datatype Call = Call(entry: Entry, stage: Stage)

  /** A verdict the verifier gave while a validation of this entry waited for it. */
  datatype Judgement = Judgement(entry: Entry, verdict: Verdict)

  datatype State = State(gate: GateState, calls: seq<Call>, given: set<Judgement>, stored: set<Entry>)

  /** A bundle parsed, within the caps and the sender's rate; then what each await comes back with. */
  datatype Op =
    | Arrive(entry: Entry)
    | HeadRead(call: nat, evaluable: Answer<bool>)
    | Judge(call: nat, verdict: Answer<Verdict>)
    | Store(call: nat, done: bool)

  predicate Waits(s: State, i: nat, stage: Stage) {
    i < |s.calls| && s.calls[i].stage == stage
  }

  function Moved(s: State, i: nat, stage: Stage): State
    requires i < |s.calls|
  {
    s.(calls := s.calls[i := s.calls[i].(stage := stage)])
  }

  function Told(v: Verdict): MessageVerdict {
    if v.Valid? then Accept else Disposed(v.disposition)
  }

  /** The cache is looked up on arrival, the accepted choices once the head is read. */
  function Step(s: State, op: Op, limits: Limits, clock: Clock): State {
    match op
    case Arrive(e) =>
      s.(calls := s.calls + [Call(e, if e.cid in s.gate.cache then Done(Told(s.gate.cache[e.cid])) else Asking)])
    case HeadRead(i, evaluable) =>
      if !Waits(s, i, Asking) then s
      else if evaluable.Threw? || !evaluable.value || ChoiceOf(clock, s.calls[i].entry.bundle) in s.gate.accepted then
        Moved(s, i, Done(Ignored))
      else Moved(s, i, Verifying)
    case Judge(i, verdict) =>
      if !Waits(s, i, Verifying) then s
      else if verdict.Threw? then Moved(s, i, Done(Ignored))
      else
        var e, v := s.calls[i].entry, verdict.value;
        var t := s.(gate := Keep(s.gate, e.cid, v, limits), given := s.given + {Judgement(e, v)});
        Moved(t, i, if v.Valid? then Storing else Done(Disposed(v.disposition)))
    case Store(i, done) =>
      if !Waits(s, i, Storing) then s
      else if !done then Moved(s, i, Done(Ignored))
      else
        var e := s.calls[i].entry;
        Moved(s.(gate := Admit(s.gate, e, limits, clock), stored := s.stored + {e}), i, Done(Accept))
  }

  function Run(ops: seq<Op>, limits: Limits, clock: Clock): State {
    if ops == [] then State(NOTHING, [], {}, {})
    else Step(Run(ops[..|ops| - 1], limits, clock), ops[|ops| - 1], limits, clock)
  }

  // ---- what is kept and answered ----

  ghost predicate CidJudged(s: State, c: Cid, v: Verdict) {
    exists b :: Judgement(Entry(c, b), v) in s.given
  }

  /** What is stored, and every call that got so far, has its verdict. */
  ghost predicate CallMeans(s: State, call: Call) {
    match call.stage
    case Asking | Verifying => true
    case Storing => Judgement(call.entry, Valid) in s.given
    case Done(answer) =>
      && (answer == Accept ==> CidJudged(s, call.entry.cid, Valid))
      && (answer == Rejected ==> CidJudged(s, call.entry.cid, Invalid(Reject)))
  }

  ghost predicate StoredChoice(s: State, clock: Clock, choice: Choice) {
    exists e <- s.stored :: ChoiceOf(clock, e.bundle) == choice
  }

  ghost predicate Sourced(s: State, limits: Limits, clock: Clock) {
    && Tidy(s.gate, limits)
    && (forall c <- s.gate.cache :: IsCacheable(s.gate.cache[c]) && CidJudged(s, c, s.gate.cache[c]))
    && (forall choice <- s.gate.accepted :: StoredChoice(s, clock, choice))
    && (forall c <- s.gate.votes :: Entry(c, s.gate.votes[c]) in s.stored)
    && (forall e <- s.stored :: Judgement(e, Valid) in s.given)
    && (forall i :: 0 <= i < |s.calls| ==> CallMeans(s, s.calls[i]))
  }

  lemma JudgeIsSourced(s: State, i: nat, v: Verdict, limits: Limits, clock: Clock)
    requires Sourced(s, limits, clock) && Waits(s, i, Verifying)
    ensures Sourced(Step(s, Judge(i, Is(v)), limits, clock), limits, clock)
  {
    var e, t := s.calls[i].entry, Step(s, Judge(i, Is(v)), limits, clock);
    KeepElements(s.gate, e.cid, v, limits);
    assert Judgement(Entry(e.cid, e.bundle), v) in t.given;
    forall c, w | CidJudged(s, c, w) ensures CidJudged(t, c, w) {
      var b :| Judgement(Entry(c, b), w) in s.given;
      assert Judgement(Entry(c, b), w) in t.given;
    }
    forall j | 0 <= j < |t.calls| ensures CallMeans(t, t.calls[j]) {
      assert CallMeans(s, s.calls[j]);
    }
  }

  lemma StoreIsSourced(s: State, i: nat, limits: Limits, clock: Clock)
    requires Sourced(s, limits, clock) && Waits(s, i, Storing)
    ensures Sourced(Step(s, Store(i, true), limits, clock), limits, clock)
  {
    var e, t := s.calls[i].entry, Step(s, Store(i, true), limits, clock);
    assert CallMeans(s, s.calls[i]) && Entry(e.cid, e.bundle) == e;
    Fifo.PushElements(s.gate.accepted, ChoiceOf(clock, e.bundle), limits.maxAccepted);
    forall c, w | CidJudged(s, c, w) ensures CidJudged(t, c, w) {
      var b :| Judgement(Entry(c, b), w) in s.given;
      assert Judgement(Entry(c, b), w) in t.given;
    }
    forall choice <- t.gate.accepted ensures StoredChoice(t, clock, choice) {
      assert choice in s.gate.accepted || (e in t.stored && choice == ChoiceOf(clock, e.bundle));
    }
    forall j | 0 <= j < |t.calls| ensures CallMeans(t, t.calls[j]) {
      assert CallMeans(s, s.calls[j]);
    }
  }

  lemma OtherStepIsSourced(s: State, op: Op, limits: Limits, clock: Clock)
    requires Sourced(s, limits, clock)
    requires !(op.Judge? && op.verdict.Is?) && !(op.Store? && op.done)
    ensures Sourced(Step(s, op, limits, clock), limits, clock)
  {
    var t := Step(s, op, limits, clock);
    assert forall c, v :: CidJudged(t, c, v) <==> CidJudged(s, c, v);
    assert forall choice :: StoredChoice(t, clock, choice) <==> StoredChoice(s, clock, choice);
    forall j | 0 <= j < |t.calls| ensures CallMeans(t, t.calls[j]) {
      if j < |s.calls| { assert CallMeans(s, s.calls[j]); }
    }
  }

  /**
   However validations overlap: each cached verdict is terminal and was given to its CID; each remembered choice
   and vote was stored on a valid verdict; an accepted bundle's CID was judged valid and a rejected one's a
   provable rejection; and both memories stay distinct and bounded.
   */
  lemma {:induction false} OverlapsKeepOnlyVerified(ops: seq<Op>, limits: Limits, clock: Clock)
    ensures Sourced(Run(ops, limits, clock), limits, clock)
  {
    if ops != [] {
      var n := |ops| - 1;
      var s, op := Run(ops[..n], limits, clock), ops[n];
      OverlapsKeepOnlyVerified(ops[..n], limits, clock);
      if op.Judge? && op.verdict.Is? {
        if Waits(s, op.call, Verifying) { JudgeIsSourced(s, op.call, op.verdict.value, limits, clock); }
      } else if op.Store? && op.done {
        if Waits(s, op.call, Storing) { StoreIsSourced(s, op.call, limits, clock); }
      } else {
        OtherStepIsSourced(s, op, limits, clock);
      }
    }
  }

  // ---- when the check for an accepted choice holds ----

  /** A validation of `choice` that has passed the check and is not over. */
  predicate PastTheCheck(s: State, clock: Clock, i: nat, choice: Choice) {
    (Waits(s, i, Verifying) || Waits(s, i, Storing)) && ChoiceOf(clock, s.calls[i].entry.bundle) == choice
  }

  /** Nothing past the check carries a choice that is accepted already. */
  ghost predicate NoneRepeats(s: State, clock: Clock) {
    forall i: nat, choice | PastTheCheck(s, clock, i, choice) :: choice !in s.gate.accepted
  }

  /** A bundle is accepted while another validation of its choice is past the check. */
  ghost predicate Overtakes(s: State, op: Op, limits: Limits, clock: Clock) {
    && op.Store? && op.done && Waits(s, op.call, Storing) && limits.maxAccepted > 0
    && exists j: nat :: j != op.call && PastTheCheck(s, clock, j, ChoiceOf(clock, s.calls[op.call].entry.bundle))
  }

  lemma OthersStay(s: State, op: Op, limits: Limits, clock: Clock, j: nat, choice: Choice)
    requires op.Arrive? || j != op.call
    ensures PastTheCheck(Step(s, op, limits, clock), clock, j, choice) <==> PastTheCheck(s, clock, j, choice)
  {
  }

  lemma RepeatsNext(s: State, op: Op, limits: Limits, clock: Clock)
    requires NoneRepeats(s, clock) && Tidy(s.gate, limits)
    ensures NoneRepeats(Step(s, op, limits, clock), clock) <==> !Overtakes(s, op, limits, clock)
  {
    var t := Step(s, op, limits, clock);
    if op.Store? && op.done && Waits(s, op.call, Storing) {
      var choice := ChoiceOf(clock, s.calls[op.call].entry.bundle);
      assert PastTheCheck(s, clock, op.call, choice);
      Fifo.PushElements(s.gate.accepted, choice, limits.maxAccepted);
      forall j: nat, other | PastTheCheck(t, clock, j, other) ensures j != op.call && PastTheCheck(s, clock, j, other) {
        if j != op.call { OthersStay(s, op, limits, clock, j, other); }
      }
      if j: nat :| j != op.call && PastTheCheck(s, clock, j, choice) {
        OthersStay(s, op, limits, clock, j, choice);
        assert choice in t.gate.accepted <==> limits.maxAccepted > 0;
      }
    } else {
      forall j: nat, choice | PastTheCheck(t, clock, j, choice) ensures choice !in t.gate.accepted {
        if op.Arrive? || j != op.call {
          OthersStay(s, op, limits, clock, j, choice);
        } else {
          assert PastTheCheck(s, clock, j, choice) || op.HeadRead?;
        }
      }
    }
  }

  /**
   Throughout a run no validation past the check carries a choice accepted already, so that no such choice is
   verified, admitted or forwarded again, if and only if no acceptance overtakes another validation of its choice.
   */
  lemma NoneRepeatsExactly(ops: seq<Op>, limits: Limits, clock: Clock)
    ensures (forall k: nat | k <= |ops| :: NoneRepeats(Run(ops[..k], limits, clock), clock))
            <==> forall k: nat | k < |ops| :: !Overtakes(Run(ops[..k], limits, clock), ops[k], limits, clock)
  {
    var holds := (k: nat) => k <= |ops| && NoneRepeats(Run(ops[..k], limits, clock), clock);
    var breaks := (k: nat) => k < |ops| && Overtakes(Run(ops[..k], limits, clock), ops[k], limits, clock);
    forall k: nat | k < |ops| && holds(k) ensures holds(k + 1) <==> !breaks(k) {
      OverlapsKeepOnlyVerified(ops[..k], limits, clock);
      assert ops[..k + 1][..k] == ops[..k];
      RepeatsNext(Run(ops[..k], limits, clock), ops[k], limits, clock);
    }
    Runs.ThroughoutExactly(holds, breaks, |ops|);
    assert forall k: nat | k <= |ops| :: holds(k) <==> NoneRepeats(Run(ops[..k], limits, clock), clock);
    assert forall k: nat | k < |ops| :: breaks(k) <==> Overtakes(Run(ops[..k], limits, clock), ops[k], limits, clock);
  }

  // ---- one validation left alone ----

  /** The message such a validation is about. */
  function MessageOf(e: Entry, evaluable: Answer<bool>, verdict: Answer<Verdict>, stored: bool): Message {
    Message(0, W.Some(BundleMessage(W.Some(e))), true, evaluable, verdict, stored)
  }

  /** With nothing in between, the awaits make the one decision, and the one change, of `GossipGates`. */
  lemma AloneIsAtomic(s: State, e: Entry, evaluable: Answer<bool>, verdict: Answer<Verdict>, stored: bool, limits: Limits, clock: Clock)
    ensures var i, m := |s.calls|, MessageOf(e, evaluable, verdict, stored);
            var t := Step(Step(Step(Step(s, Arrive(e), limits, clock), HeadRead(i, evaluable), limits, clock),
                               Judge(i, verdict), limits, clock), Store(i, stored), limits, clock);
            && t.gate == After(s.gate, m, limits, clock)
            && t.calls == s.calls + [Call(e, Done(Answered(Decides(s.gate, m, limits, clock), m)))]
  {
    var i := |s.calls|;
    var a := Step(s, Arrive(e), limits, clock);
    var b := Step(a, HeadRead(i, evaluable), limits, clock);
    var c := Step(b, Judge(i, verdict), limits, clock);
    var d := Step(c, Store(i, stored), limits, clock);
    assert a.calls[..i] == b.calls[..i] == c.calls[..i] == d.calls[..i] == s.calls;
    assert d.calls == s.calls + [d.calls[i]];
  }

  lemma RunTwo(ops: seq<Op>, x: Op, y: Op, limits: Limits, clock: Clock)
    ensures Run(ops + [x, y], limits, clock) == Step(Step(Run(ops, limits, clock), x, limits, clock), y, limits, clock)
  {
    assert (ops + [x, y])[..|ops| + 1] == ops + [x] && (ops + [x])[..|ops|] == ops;
  }

  lemma JudgedAndStored(s: State, i: nat, limits: Limits, clock: Clock)
    requires Waits(s, i, Verifying)
    ensures var e, t := s.calls[i].entry, Step(Step(s, Judge(i, Is(Valid)), limits, clock), Store(i, true), limits, clock);
            t.gate.votes == s.gate.votes[e.cid := e.bundle] && t.calls == s.calls[i := Call(e, Done(Accept))]
  {
  }

  lemma BothPastTheCheck(limits: Limits, clock: Clock, a: Entry, b: Entry)
    ensures var s := Run([Arrive(a), Arrive(b), HeadRead(0, Is(true)), HeadRead(1, Is(true))], limits, clock);
            s == State(NOTHING, [Call(a, Verifying), Call(b, Verifying)], {}, {})
  {
    var arrived := [Arrive(a), Arrive(b)];
    RunTwo([], Arrive(a), Arrive(b), limits, clock);
    assert [] + arrived == arrived;
    RunTwo(arrived, HeadRead(0, Is(true)), HeadRead(1, Is(true)), limits, clock);
    assert arrived + [HeadRead(0, Is(true)), HeadRead(1, Is(true))]
        == [Arrive(a), Arrive(b), HeadRead(0, Is(true)), HeadRead(1, Is(true))];
  }

  /** Two re-signs of one choice, both past the check before either is accepted: both are admitted and forwarded. */
  lemma OverlappingResignsBothPass(limits: Limits, clock: Clock, a: Entry, b: Entry)
    requires a.cid != b.cid && ChoiceOf(clock, a.bundle) == ChoiceOf(clock, b.bundle)
    ensures var ops := [Arrive(a), Arrive(b), HeadRead(0, Is(true)), HeadRead(1, Is(true)),
                        Judge(0, Is(Valid)), Store(0, true), Judge(1, Is(Valid)), Store(1, true)];
            var s := Run(ops, limits, clock);
            s.gate.votes == map[a.cid := a.bundle, b.cid := b.bundle] && s.calls == [Call(a, Done(Accept)), Call(b, Done(Accept))]
  {
    var checked := [Arrive(a), Arrive(b), HeadRead(0, Is(true)), HeadRead(1, Is(true))];
    var one := checked + [Judge(0, Is(Valid)), Store(0, true)];
    BothPastTheCheck(limits, clock, a, b);
    RunTwo(checked, Judge(0, Is(Valid)), Store(0, true), limits, clock);
    JudgedAndStored(Run(checked, limits, clock), 0, limits, clock);
    RunTwo(one, Judge(1, Is(Valid)), Store(1, true), limits, clock);
    JudgedAndStored(Run(one, limits, clock), 1, limits, clock);
    assert one + [Judge(1, Is(Valid)), Store(1, true)]
        == [Arrive(a), Arrive(b), HeadRead(0, Is(true)), HeadRead(1, Is(true)),
            Judge(0, Is(Valid)), Store(0, true), Judge(1, Is(Valid)), Store(1, true)];
  }
}
