/**
 The lifecycle of one publishable ballot. A `publish` call is cut at its awaits, and the callbacks of
 every attempt, current or superseded, may arrive between any two of its steps.
 */
module PublicationModel {
  import opened Wrappers

  datatype PublishingState = Stopped | Signing | Publishing | Published | VerifiedLocally | VerifiedByPeer | Failed

  /** Where a publish call is waiting. */
  datatype Await = OnPreflight | OnSignature | OnBroadcast

  /** `calls` are the publish calls under way; `registered` the attempts whose callbacks may fire. */
  datatype State = State(
    attempt: nat,
    evicted: bool,
    state: PublishingState,
    calls: map<nat, Await>,
    registered: set<nat>)

  datatype Op =
    | Publish
    | Joined(attempt: nat)
    | Signed(attempt: nat)
    | Sent(attempt: nat)
    | Throws(attempt: nat)
    | Verified(attempt: nat)
    | ServedByPeer(attempt: nat)
    | Evict(attempt: nat)

  const INITIAL := State(0, false, Stopped, map[], {})

  predicate Enabled(s: State, op: Op) {
    match op
    case Publish => true
    case Joined(a) => a in s.calls && s.calls[a] == OnPreflight
    case Signed(a) => a in s.calls && s.calls[a] == OnSignature
    case Sent(a) => a in s.calls && s.calls[a] == OnBroadcast
    case Throws(a) => a in s.calls
    case Verified(a) => a in s.registered
    case ServedByPeer(a) => a in s.registered
    case Evict(a) => a in s.registered
  }

  function Settle(s: State, a: nat, to: PublishingState): State {
    if a != s.attempt then s
    else if s.evicted || s.state == Failed || s.state == VerifiedByPeer then s
    else if to == VerifiedLocally && s.state == VerifiedLocally then s
    else s.(state := to)
  }

  function Step(s: State, op: Op): State {
    if !Enabled(s, op) then s
    else match op
      case Publish =>
        var a := s.attempt + 1;
        s.(attempt := a, evicted := false, calls := s.calls[a := OnPreflight])
      case Joined(a) => s.(state := Signing, calls := s.calls[a := OnSignature], registered := s.registered + {a})
      case Signed(a) =>
        s.(state := if s.state == Signing then Publishing else s.state, calls := s.calls[a := OnBroadcast])
      case Sent(a) =>
        s.(state := if !s.evicted && s.state == Publishing then Published else s.state, calls := s.calls - {a})
      case Throws(a) =>
        s.(state := if a == s.attempt then Failed else s.state, calls := s.calls - {a})
      case Verified(a) => Settle(s, a, VerifiedLocally)
      case ServedByPeer(a) => Settle(s, a, VerifiedByPeer)
      case Evict(a) => if a == s.attempt then s.(evicted := true, state := Failed) else s
  }

  function Run(ops: seq<Op>): State {
    if ops == [] then INITIAL else Step(Run(ops[..|ops| - 1]), ops[|ops| - 1])
  }

  /** Each publish call is made only when the one before it has returned. */
  predicate Sequential(ops: seq<Op>) {
    forall i :: 0 <= i < |ops| && ops[i].Publish? ==> Run(ops[..i]).calls == map[]
  }

  // ---- what it keeps ----

  function Rank(p: PublishingState): nat {
    match p
    case Stopped => 0 case Signing => 1 case Publishing => 2 case Published => 3
    case VerifiedLocally => 4 case VerifiedByPeer => 5 case Failed => 6
  }

  /** Upward, or into failure, which is final. */
  predicate Climbs(p: PublishingState, q: PublishingState) {
    Rank(p) <= Rank(q)
  }

  /** The current attempt has reached "signing". */
  predicate Begun(s: State) {
    s.attempt in s.registered
  }

  predicate Inv(s: State) {
    && (forall a <- s.calls :: a == s.attempt)
    && (forall a <- s.registered :: a <= s.attempt)
    && (s.attempt in s.calls ==> (s.calls[s.attempt] == OnPreflight <==> !Begun(s)))
    && (Begun(s) ==> s.state != Stopped)
    && (s.evicted ==> Begun(s) && s.state == Failed)
    && (s.attempt in s.calls && s.calls[s.attempt] == OnSignature ==> s.state !in {Publishing, Published})
    && (s.attempt in s.calls && s.calls[s.attempt] == OnBroadcast ==> s.state !in {Signing, Published})
    && (Begun(s) && s.attempt !in s.calls ==> s.state in {Published, VerifiedLocally, VerifiedByPeer, Failed})
  }

  lemma StepKeepsInv(s: State, op: Op)
    requires Inv(s) && (op.Publish? ==> s.calls == map[])
    ensures Inv(Step(s, op))
  {
  }

  lemma {:induction false} RunKeepsInv(ops: seq<Op>)
    requires Sequential(ops)
    ensures Inv(Run(ops))
  {
    if ops != [] {
      var n := |ops| - 1;
      assert forall i :: 0 <= i < n ==> ops[..n][i] == ops[i] && ops[..n][..i] == ops[..i];
      RunKeepsInv(ops[..n]);
      StepKeepsInv(Run(ops[..n]), ops[n]);
    }
  }

  lemma StepClimbs(s: State, op: Op)
    requires Inv(s) && Begun(s) && (op.Publish? ==> s.calls == map[])
    ensures var t := Step(s, op); t.attempt == s.attempt ==>
              Begun(t) && Climbs(s.state, t.state) && (s.state == Failed ==> t.state == Failed)
  {
  }

  /**
   Main result. On every sequential run, from "signing" on within one attempt the state only climbs
   signing, publishing, published, verified-locally, verified-by-peer, or falls to failed, which is final
   until the next publish.
   */
  lemma {:induction false} AttemptOnlyClimbs(ops: seq<Op>, i: nat)
    requires Sequential(ops) && i <= |ops|
    requires Begun(Run(ops[..i])) && Run(ops[..i]).attempt == Run(ops).attempt
    ensures Begun(Run(ops)) && Climbs(Run(ops[..i]).state, Run(ops).state)
    ensures Run(ops[..i]).state == Failed ==> Run(ops).state == Failed
    decreases |ops|
  {
    if i == |ops| {
      assert ops[..i] == ops;
    } else {
      var n := |ops| - 1;
      assert ops[..n][..i] == ops[..i];
      assert forall k :: 0 <= k < n ==> ops[..n][k] == ops[k] && ops[..n][..k] == ops[..k];
      RunKeepsInv(ops[..n]);
      AttemptsGrow(ops[..n], i);
      StepGrows(Run(ops[..n]), ops[n]);
      AttemptOnlyClimbs(ops[..n], i);
      StepClimbs(Run(ops[..n]), ops[n]);
    }
  }

  lemma StepGrows(s: State, op: Op)
    ensures s.attempt <= Step(s, op).attempt
  {
  }

  lemma {:induction false} AttemptsGrow(ops: seq<Op>, i: nat)
    requires i <= |ops|
    ensures Run(ops[..i]).attempt <= Run(ops).attempt
  {
    if i == |ops| {
      assert ops[..i] == ops;
    } else {
      assert ops[..|ops| - 1][..i] == ops[..i];
      AttemptsGrow(ops[..|ops| - 1], i);
    }
  }

  /** Between two publishes nothing reports the new attempt before "signing" but its own failure. */
  lemma BeforeSigning(ops: seq<Op>, op: Op)
    requires Sequential(ops) && !Begun(Run(ops)) && !op.Publish?
    ensures var s, t := Run(ops), Step(Run(ops), op);
            t.state == s.state || (op == Joined(s.attempt) && t.state == Signing) || (op == Throws(s.attempt) && t.state == Failed)
  {
    RunKeepsInv(ops);
  }

  /** A callback of an earlier attempt moves nothing. */
  lemma LateCallbacksMoveNothing(ops: seq<Op>, op: Op)
    requires op.Verified? || op.ServedByPeer? || op.Evict?
    requires op.attempt != Run(ops).attempt
    ensures Step(Run(ops), op) == Run(ops)
  {
  }

  /** A publish that returned left the ballot published or further, or failed: by eviction, or by throwing. */
  lemma WhatAReturnedPublishLeaves(ops: seq<Op>)
    requires Sequential(ops) && Begun(Run(ops)) && Run(ops).calls == map[]
    ensures Run(ops).state in {Published, VerifiedLocally, VerifiedByPeer, Failed}
    ensures Run(ops).evicted ==> Run(ops).state == Failed
  {
    RunKeepsInv(ops);
  }

  // ---- what the verdicts do ----

  /**
   A verdict for the current attempt, whatever calls are under way: a local one settles every state short of a
   verdict as verified locally, a peer's every state short of its own as verified by a peer; an eviction fails it.
   After failure, and after a peer's verdict, only an eviction moves it, to failed.
   */
  lemma VerdictsSettle(s: State)
    requires s.attempt in s.registered
    ensures var a, final := s.attempt, s.evicted || s.state == Failed || s.state == VerifiedByPeer;
            && Step(s, Verified(a)) == (if final then s else s.(state := VerifiedLocally))
            && Step(s, ServedByPeer(a)) == (if final then s else s.(state := VerifiedByPeer))
            && Step(s, Evict(a)).state == Failed && Step(s, Evict(a)).evicted
  {
  }

  /** What brings each state about. */
  lemma OnlyItsOwnStepReaches(s: State, op: Op)
    ensures var t := Step(s, op);
            t.state != s.state ==>
              match t.state
              case Stopped => false
              case Signing => op.Joined?
              case Publishing => op.Signed? && s.state == Signing
              case Published => op.Sent? && s.state == Publishing && !s.evicted
              case VerifiedLocally => op == Verified(s.attempt)
              case VerifiedByPeer => op == ServedByPeer(s.attempt)
              case Failed => op == Throws(s.attempt) || op == Evict(s.attempt)
  {
  }

  /** Step `k` brought the state about, for the attempt then current; it has stood since. */
  ghost predicate StandsSince(ops: seq<Op>, k: nat, p: PublishingState) {
    && k < |ops| && Run(ops[..k]).state != p && Run(ops[..k + 1]).state == p
    && forall m | k < m <= |ops| :: Run(ops[..m]).state == p
  }

  lemma {:induction false} ReachedByAStep(ops: seq<Op>) returns (k: nat)
    requires Run(ops).state != Stopped
    ensures StandsSince(ops, k, Run(ops).state)
  {
    var n := |ops| - 1;
    assert ops[..n + 1] == ops;
    if Run(ops[..n]).state == Run(ops).state {
      k := ReachedByAStep(ops[..n]);
      assert forall m | 0 <= m <= n :: ops[..n][..m] == ops[..m];
    } else {
      k := n;
    }
  }

  /**
   On every run, overlaps included: a ballot stands verified by a peer because a peer served the attempt then
   current, verified locally because a local verdict was told of it, and failed because it threw or was evicted.
   */
  lemma VerdictsWereTold(ops: seq<Op>) returns (k: nat)
    requires Run(ops).state in {VerifiedLocally, VerifiedByPeer, Failed}
    ensures StandsSince(ops, k, Run(ops).state)
    ensures var a := Run(ops[..k]).attempt;
            match Run(ops).state
            case VerifiedLocally => ops[k] == Verified(a)
            case VerifiedByPeer => ops[k] == ServedByPeer(a)
            case _ => ops[k] == Throws(a) || ops[k] == Evict(a)
  {
    k := ReachedByAStep(ops);
    assert ops[..k + 1][..k] == ops[..k];
    OnlyItsOwnStepReaches(Run(ops[..k]), ops[k]);
  }

  // ---- overlapping calls ----

  /** The one step that takes any state back: a call passing its preflight once the state is beyond "signing". */
  lemma OnlyJoiningGoesBack(s: State, op: Op)
    ensures !Climbs(s.state, Step(s, op).state) <==> Enabled(s, op) && op.Joined? && Rank(s.state) > 1
  {
  }

  /** What any run keeps, its calls overlapping as they like. */
  predicate AnyInv(s: State) {
    && (forall a <- s.calls :: 1 <= a <= s.attempt)
    && (forall a <- s.registered :: 1 <= a <= s.attempt)
    && (forall a <- s.calls :: s.calls[a] == OnPreflight <==> a !in s.registered)
  }

  lemma {:induction false} AnyRunKeepsInv(ops: seq<Op>)
    ensures AnyInv(Run(ops))
  {
    if ops != [] {
      AnyRunKeepsInv(ops[..|ops| - 1]);
    }
  }

  /** A superseded call has not passed its preflight yet. */
  predicate OlderCallPending(s: State) {
    exists a :: a in s.calls && a != s.attempt && s.calls[a] == OnPreflight
  }

  /** Some continuation of the run, within the attempt, takes its state back. */
  ghost predicate CanGoBack(ops: seq<Op>) {
    exists more, op :: GoesBack(ops, more, op)
  }

  ghost predicate GoesBack(ops: seq<Op>, more: seq<Op>, op: Op) {
    && (forall o <- more + [op] :: !o.Publish?)
    && !Climbs(Run(ops + more).state, Run(ops + more + [op]).state)
  }

  /** Without another publish, no call comes to wait for its preflight, and a begun attempt stays begun. */
  lemma {:induction false} PreflightsOnlyEnd(ops: seq<Op>, more: seq<Op>, a: nat)
    requires forall o <- more :: !o.Publish?
    requires a in Run(ops + more).calls && Run(ops + more).calls[a] == OnPreflight
    ensures a in Run(ops).calls && Run(ops).calls[a] == OnPreflight && Run(ops + more).attempt == Run(ops).attempt
  {
    if more == [] {
      assert ops + more == ops;
    } else {
      var n := |more| - 1;
      assert (ops + more)[..|ops| + n] == ops + more[..n];
      assert more[n] in more && forall o <- more[..n] :: o in more;
      PreflightsOnlyEnd(ops, more[..n], a);
    }
  }

  /**
   On every run, overlaps included: once an attempt has begun, its state can still go back if and only if a
   superseded call has not passed its preflight.
   */
  lemma UndoneExactly(ops: seq<Op>)
    requires Begun(Run(ops))
    ensures CanGoBack(ops) <==> OlderCallPending(Run(ops))
  {
    AnyRunKeepsInv(ops);
    if OlderCallPending(Run(ops)) {
      var a :| a in Run(ops).calls && a != Run(ops).attempt && Run(ops).calls[a] == OnPreflight;
      var evict := Evict(Run(ops).attempt);
      assert (ops + [evict])[..|ops|] == ops && Run(ops + [evict]).state == Failed;
      assert (ops + [evict] + [Joined(a)])[..|ops| + 1] == ops + [evict];
      OnlyJoiningGoesBack(Run(ops + [evict]), Joined(a));
      assert [evict] + [Joined(a)] == [evict, Joined(a)];
      assert GoesBack(ops, [evict], Joined(a));
    }
    if CanGoBack(ops) {
      var more, op :| GoesBack(ops, more, op);
      var s := Run(ops + more);
      assert (ops + more + [op])[..|ops + more|] == ops + more;
      OnlyJoiningGoesBack(s, op);
      assert forall o <- more :: o in more + [op];
      PreflightsOnlyEnd(ops, more, op.attempt);
    }
  }

  /**
   Overlapping calls are another matter: the older call's own steps are not tied to its attempt, so it can
   bring a failed newer attempt back to "signing".
   */
  lemma OverlappingPublishUndoesFailure()
    ensures var ops := [Publish, Publish, Joined(2), Evict(2), Joined(1)];
            && !Sequential(ops)
            && Begun(Run(ops[..4])) && Run(ops[..4]).attempt == Run(ops).attempt
            && Run(ops[..4]).state == Failed && Run(ops).state == Signing
  {
    var ops := [Publish, Publish, Joined(2), Evict(2), Joined(1)];
    assert ops[..4] == ops[..|ops| - 1] && ops[..4][..3] == ops[..3] && ops[..3][..2] == ops[..2] && ops[..2][..1] == ops[..1] && ops[..1][..0] == [];
    assert Run(ops[..1]) == State(1, false, Stopped, map[1 := OnPreflight], {});
    assert Run(ops[..2]) == State(2, false, Stopped, map[1 := OnPreflight, 2 := OnPreflight], {});
    assert Run(ops[..3]) == State(2, false, Signing, map[1 := OnPreflight, 2 := OnSignature], {2});
    assert Run(ops[..4]).state == Failed && Run(ops[..4]).calls == map[1 := OnPreflight, 2 := OnSignature];
    assert ops[1].Publish? && 1 in Run(ops[..1]).calls;
  }
}
