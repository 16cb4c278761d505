/**
 The gossip validator's ordered decision about one message, and what it lets into the verdict cache,
 the set of accepted choices and the vote set.
 */
module GossipGates {
  import opened Wrappers
  import opened Bundles
  import opened AcceptedDedups
  import Fifo

  datatype Disposition = Reject | Ignore

  /** A verifier's answer. */
  datatype Verdict = Valid | Invalid(disposition: Disposition)

  /** Only terminal verdicts are remembered. */
  predicate IsCacheable(v: Verdict) {
    v.Valid? || v.disposition == Reject
  }

  datatype Answer<T> = Is(value: T) | Threw

  datatype MessageVerdict = Accept | Rejected | Ignored

  function Disposed(d: Disposition): MessageVerdict {
    if d == Reject then Rejected else Ignored
  }

  datatype Kind = RootMessage | BundleMessage(parsed: Option<Entry>)

  /** One message, with what the world answers while it is being judged. */
  datatype Message = Message(
    size: nat,
    decoded: Option<Kind>,
    peerAllowed: bool,
    evaluable: Answer<bool>,
    verdict: Answer<Verdict>,
    admitted: bool)

  datatype Limits = Limits(maxBundleBytes: nat, maxRootBytes: nat, maxAccepted: nat, maxVerdicts: nat)

  /** Verdicts by CID with the order they came in, accepted choices, and the vote set. */
  datatype GateState = GateState(cache: map<Cid, Verdict>, order: seq<Cid>, accepted: seq<Choice>, votes: map<Cid, Bundle>)

  /** A verdict is kept if it is terminal and none is held for the CID; a full cache forgets its oldest. */
  function Keep(s: GateState, c: Cid, v: Verdict, limits: Limits): GateState {
    if !IsCacheable(v) || c in s.cache then s
    else
      var order, cache := s.order + [c], s.cache[c := v];
      if |order| > limits.maxVerdicts then s.(cache := cache - {order[0]}, order := order[1..])
      else s.(cache := cache, order := order)
  }

  function Admit(s: GateState, e: Entry, limits: Limits, clock: Clock): GateState {
    s.(votes := s.votes[e.cid := e.bundle], accepted := Fifo.Push(s.accepted, ChoiceOf(clock, e.bundle), limits.maxAccepted))
  }

  const NOTHING := GateState(map[], [], [], map[])

  // ---- the decision ----

  datatype Reason =
    | TooBig | Undecodable | OverRate | RootHint | UnparsableBundle | Known(verdict: Verdict)
    | NotEvaluable | Resign | Verified(verdict: Verdict) | WorldThrew

  function Largest(limits: Limits): nat {
    if limits.maxBundleBytes > limits.maxRootBytes then limits.maxBundleBytes else limits.maxRootBytes
  }

  /** Which check decides: the first that applies. */
  function Decides(s: GateState, m: Message, limits: Limits, clock: Clock): Reason {
    if m.size > Largest(limits) then TooBig
    else if m.decoded.None? then Undecodable
    else
      match m.decoded.value
      case RootMessage => if m.size > limits.maxRootBytes then TooBig else if !m.peerAllowed then OverRate else RootHint
      case BundleMessage(parsed) =>
        if m.size > limits.maxBundleBytes then TooBig
        else if !m.peerAllowed then OverRate
        else if parsed.None? then UnparsableBundle
        else if parsed.value.cid in s.cache then Known(s.cache[parsed.value.cid])
        else if m.evaluable.Threw? then WorldThrew
        else if !m.evaluable.value then NotEvaluable
        else if ChoiceOf(clock, parsed.value.bundle) in s.accepted then Resign
        else if m.verdict.Threw? then WorldThrew
        else Verified(m.verdict.value)
  }

  function Answered(reason: Reason, m: Message): MessageVerdict {
    match reason
    case TooBig | Undecodable | UnparsableBundle => Rejected
    case OverRate | NotEvaluable | Resign | WorldThrew => Ignored
    case RootHint => Accept
    case Known(v) => if v.Valid? then Accept else Disposed(v.disposition)
    case Verified(v) => if v.Valid? then if m.admitted then Accept else Ignored else Disposed(v.disposition)
  }

  /** Only a fresh verdict moves the state; storing an accepted bundle may itself fail. */
  function After(s: GateState, m: Message, limits: Limits, clock: Clock): GateState {
    var reason := Decides(s, m, limits, clock);
    if !reason.Verified? then s
    else
      var e := m.decoded.value.parsed.value;
      var t := Keep(s, e.cid, reason.verdict, limits);
      if reason.verdict.Valid? && m.admitted then Admit(t, e, limits, clock) else t
  }

  function Run(messages: seq<Message>, limits: Limits, clock: Clock): GateState {
    if messages == [] then NOTHING
    else After(Run(messages[..|messages| - 1], limits, clock), messages[|messages| - 1], limits, clock)
  }

  // ---- where everything kept comes from ----

  /** Message `k` carried this entry, and the verifier judged it afresh. */
  predicate Judged(messages: seq<Message>, limits: Limits, clock: Clock, k: nat, e: Entry, v: Verdict)
    requires k < |messages|
  {
    var m := messages[k];
    && Decides(Run(messages[..k], limits, clock), m, limits, clock) == Verified(v)
    && m.decoded.value.parsed == Some(e)
    && m.verdict == Is(v) && m.evaluable == Is(true) && m.peerAllowed && m.size <= limits.maxBundleBytes
  }

  ghost predicate WasJudged(messages: seq<Message>, limits: Limits, clock: Clock, e: Entry, v: Verdict, admitted: bool) {
    exists k: nat :: k < |messages| && Judged(messages, limits, clock, k, e, v) && (admitted ==> messages[k].admitted)
  }

  ghost predicate FromVerified(messages: seq<Message>, limits: Limits, clock: Clock, choice: Choice) {
    exists e :: WasJudged(messages, limits, clock, e, Valid, true) && ChoiceOf(clock, e.bundle) == choice
  }

  /** The cache and its queue hold the same CIDs, each once; neither memory exceeds its bound. */
  ghost predicate Tidy(s: GateState, limits: Limits) {
    Fifo.Bounded(s.order, limits.maxVerdicts) && Fifo.Bounded(s.accepted, limits.maxAccepted) && forall c :: c in s.cache <==> c in s.order
  }

  lemma KeepElements(s: GateState, c: Cid, v: Verdict, limits: Limits)
    requires Tidy(s, limits)
    ensures Tidy(Keep(s, c, v, limits), limits)
    ensures forall d <- Keep(s, c, v, limits).cache ::
              if d in s.cache then Keep(s, c, v, limits).cache[d] == s.cache[d]
              else d == c && IsCacheable(v) && Keep(s, c, v, limits).cache[d] == v
    ensures IsCacheable(v) && limits.maxVerdicts > 0 ==>
              c in Keep(s, c, v, limits).cache
              && forall d <- s.cache :: d in Keep(s, c, v, limits).cache
                                        || (c !in s.cache && |s.order| == limits.maxVerdicts && d == s.order[0])
  {
    Fifo.PushElements(s.order, c, limits.maxVerdicts);
    assert !IsCacheable(v) || c in s.cache || Keep(s, c, v, limits).order == Fifo.Push(s.order, c, limits.maxVerdicts);
  }

  ghost predicate Sourced(s: GateState, messages: seq<Message>, limits: Limits, clock: Clock) {
    && (forall c <- s.cache :: IsCacheable(s.cache[c])
          && exists b :: WasJudged(messages, limits, clock, Entry(c, b), s.cache[c], false))
    && (forall choice <- s.accepted :: FromVerified(messages, limits, clock, choice))
    && (forall c <- s.votes :: WasJudged(messages, limits, clock, Entry(c, s.votes[c]), Valid, true))
    && Tidy(s, limits)
  }

  lemma JudgedLater(messages: seq<Message>, m: Message, limits: Limits, clock: Clock, e: Entry, v: Verdict, admitted: bool)
    requires WasJudged(messages, limits, clock, e, v, admitted)
    ensures WasJudged(messages + [m], limits, clock, e, v, admitted)
  {
    var k: nat :| k < |messages| && Judged(messages, limits, clock, k, e, v) && (admitted ==> messages[k].admitted);
    assert (messages + [m])[..k] == messages[..k];
    assert Judged(messages + [m], limits, clock, k, e, v);
  }

  lemma SourcedLater(s: GateState, messages: seq<Message>, m: Message, limits: Limits, clock: Clock)
    requires Sourced(s, messages, limits, clock)
    ensures Sourced(s, messages + [m], limits, clock)
  {
    forall c <- s.cache ensures exists b :: WasJudged(messages + [m], limits, clock, Entry(c, b), s.cache[c], false) {
      var b :| WasJudged(messages, limits, clock, Entry(c, b), s.cache[c], false);
      JudgedLater(messages, m, limits, clock, Entry(c, b), s.cache[c], false);
    }
    forall choice <- s.accepted ensures FromVerified(messages + [m], limits, clock, choice) {
      var e :| WasJudged(messages, limits, clock, e, Valid, true) && ChoiceOf(clock, e.bundle) == choice;
      JudgedLater(messages, m, limits, clock, e, Valid, true);
    }
    forall c <- s.votes ensures WasJudged(messages + [m], limits, clock, Entry(c, s.votes[c]), Valid, true) {
      JudgedLater(messages, m, limits, clock, Entry(c, s.votes[c]), Valid, true);
    }
  }

  lemma NewlyJudged(messages: seq<Message>, m: Message, limits: Limits, clock: Clock)
    requires Decides(Run(messages, limits, clock), m, limits, clock).Verified?
    ensures WasJudged(messages + [m], limits, clock, m.decoded.value.parsed.value, m.verdict.value, m.admitted)
  {
    var more, n := messages + [m], |messages|;
    assert more[..n] == messages && more[n] == m;
    assert Judged(more, limits, clock, n, m.decoded.value.parsed.value, m.verdict.value);
  }

  /**
   Main result. On every run of messages: every remembered choice and every admitted bundle passed the full
   verifier in this run, freshly, within the caps and the sender's rate, and was stored; every cached verdict
   is terminal and was the verifier's own; and both memories stay distinct and bounded.
   */
  lemma {:induction false} OnlyVerifiedIsKept(messages: seq<Message>, limits: Limits, clock: Clock)
    ensures Sourced(Run(messages, limits, clock), messages, limits, clock)
  {
    if messages != [] {
      var n := |messages| - 1;
      var before, m := messages[..n], messages[n];
      var s, t := Run(before, limits, clock), Run(messages, limits, clock);
      OnlyVerifiedIsKept(before, limits, clock);
      SourcedLater(s, before, m, limits, clock);
      assert messages == before + [m];
      if Decides(s, m, limits, clock).Verified? {
        VerifiedIsSourced(s, before, m, limits, clock);
      }
    }
  }

  lemma KeepIsSourced(s: GateState, messages: seq<Message>, e: Entry, v: Verdict, limits: Limits, clock: Clock)
    requires Sourced(s, messages, limits, clock) && WasJudged(messages, limits, clock, e, v, false)
    ensures Sourced(Keep(s, e.cid, v, limits), messages, limits, clock)
  {
    var t := Keep(s, e.cid, v, limits);
    KeepElements(s, e.cid, v, limits);
    forall c <- t.cache ensures IsCacheable(t.cache[c]) && exists b :: WasJudged(messages, limits, clock, Entry(c, b), t.cache[c], false) {
      if c !in s.cache {
        assert WasJudged(messages, limits, clock, Entry(c, e.bundle), t.cache[c], false);
      }
    }
  }

  lemma AdmitIsSourced(s: GateState, messages: seq<Message>, e: Entry, limits: Limits, clock: Clock)
    requires Sourced(s, messages, limits, clock) && WasJudged(messages, limits, clock, e, Valid, true)
    ensures Sourced(Admit(s, e, limits, clock), messages, limits, clock)
  {
    var t := Admit(s, e, limits, clock);
    Fifo.PushElements(s.accepted, ChoiceOf(clock, e.bundle), limits.maxAccepted);
    forall choice <- t.accepted ensures FromVerified(messages, limits, clock, choice) {
      assert choice in s.accepted || choice == ChoiceOf(clock, e.bundle);
    }
  }

  /** A freshly verified message keeps everything sourced. */
  lemma VerifiedIsSourced(s: GateState, before: seq<Message>, m: Message, limits: Limits, clock: Clock)
    requires s == Run(before, limits, clock) && Decides(s, m, limits, clock).Verified?
    requires Sourced(s, before + [m], limits, clock)
    ensures Sourced(After(s, m, limits, clock), before + [m], limits, clock)
  {
    var messages, e, v := before + [m], m.decoded.value.parsed.value, m.verdict.value;
    NewlyJudged(before, m, limits, clock);
    assert WasJudged(messages, limits, clock, e, v, false);
    KeepIsSourced(s, messages, e, v, limits, clock);
    if v.Valid? && m.admitted {
      AdmitIsSourced(Keep(s, e.cid, v, limits), messages, e, limits, clock);
    }
  }

  /** Over its cap, not a message at all, or no bundle inside. */
  predicate Malformed(m: Message, limits: Limits) {
    || m.size > Largest(limits) || m.decoded.None?
    || match m.decoded.value
       case RootMessage => m.size > limits.maxRootBytes
       case BundleMessage(parsed) => m.size > limits.maxBundleBytes || parsed.None?
  }

  predicate Carries(m: Message, e: Entry) {
    m.decoded.Some? && m.decoded.value.BundleMessage? && m.decoded.value.parsed == Some(e)
  }

  /** This very CID was judged so by the verifier, afresh, at some message of the run. */
  ghost predicate CidWasJudged(messages: seq<Message>, limits: Limits, clock: Clock, c: Cid, v: Verdict) {
    exists b :: WasJudged(messages, limits, clock, Entry(c, b), v, false)
  }

  lemma CachedWasJudged(messages: seq<Message>, m: Message, limits: Limits, clock: Clock, c: Cid)
    requires c in Run(messages, limits, clock).cache
    ensures CidWasJudged(messages + [m], limits, clock, c, Run(messages, limits, clock).cache[c])
  {
    OnlyVerifiedIsKept(messages, limits, clock);
    var v := Run(messages, limits, clock).cache[c];
    var b :| WasJudged(messages, limits, clock, Entry(c, b), v, false);
    JudgedLater(messages, m, limits, clock, Entry(c, b), v, false);
  }

  /** Whatever verdict decides was given to this very CID. */
  lemma DecidingVerdictWasJudged(messages: seq<Message>, m: Message, limits: Limits, clock: Clock)
    requires var reason := Decides(Run(messages, limits, clock), m, limits, clock); reason.Known? || reason.Verified?
    ensures var reason, e := Decides(Run(messages, limits, clock), m, limits, clock), m.decoded.value.parsed.value;
            Carries(m, e) && CidWasJudged(messages + [m], limits, clock, e.cid, reason.verdict)
  {
    var reason, e := Decides(Run(messages, limits, clock), m, limits, clock), m.decoded.value.parsed.value;
    if reason.Known? {
      CachedWasJudged(messages, m, limits, clock, e.cid);
    } else {
      NewlyJudged(messages, m, limits, clock);
      JudgedAnyway(messages + [m], limits, clock, e, m.verdict.value, m.admitted);
    }
  }

  /** The message carries a bundle whose own CID the run's verifier has judged so. */
  ghost predicate JudgedAs(messages: seq<Message>, m: Message, limits: Limits, clock: Clock, v: Verdict) {
    exists e :: Carries(m, e) && CidWasJudged(messages + [m], limits, clock, e.cid, v)
  }

  predicate DecidedBy(reason: Reason, v: Verdict) {
    (reason.Known? || reason.Verified?) && reason.verdict == v
  }

  /** A root message is rejected exactly over its cap, and else accepted exactly within its sender's rate. */
  lemma RootAnswers(s: GateState, m: Message, limits: Limits, clock: Clock)
    requires m.decoded == Some(RootMessage)
    ensures var answer := Answered(Decides(s, m, limits, clock), m);
            && (answer == Rejected <==> m.size > limits.maxRootBytes)
            && (answer == Accept <==> m.size <= limits.maxRootBytes && m.peerAllowed)
            && After(s, m, limits, clock) == s
  {
  }

  /**
   The checks of a bundle message, in order: its size and form; its sender's rate; a verdict known for its CID;
   whether it can be judged yet; whether its choice was accepted before; and last a fresh verdict.
   */
  lemma BundleAnswers(s: GateState, m: Message, limits: Limits, clock: Clock, e: Entry)
    requires Carries(m, e) && m.size <= limits.maxBundleBytes
    ensures var answer, t := Answered(Decides(s, m, limits, clock), m), After(s, m, limits, clock);
            && (!m.peerAllowed ==> answer == Ignored && t == s)
            && (m.peerAllowed && e.cid in s.cache ==>
                  t == s && answer == if s.cache[e.cid] == Valid then Accept else if s.cache[e.cid] == Invalid(Reject) then Rejected else Ignored)
            && (m.peerAllowed && e.cid !in s.cache && (m.evaluable != Is(true) || ChoiceOf(clock, e.bundle) in s.accepted) ==>
                  answer == Ignored && t == s)
            && (m.peerAllowed && e.cid !in s.cache && m.evaluable == Is(true) && ChoiceOf(clock, e.bundle) !in s.accepted ==>
                  && (m.verdict.Threw? ==> answer == Ignored && t == s)
                  && (m.verdict == Is(Invalid(Reject)) ==> answer == Rejected && t == Keep(s, e.cid, Invalid(Reject), limits))
                  && (m.verdict == Is(Invalid(Ignore)) ==> answer == Ignored && t == s)
                  && (m.verdict == Is(Valid) && !m.admitted ==> answer == Ignored && t == Keep(s, e.cid, Valid, limits))
                  && (m.verdict == Is(Valid) && m.admitted ==>
                        answer == Accept && t.votes == s.votes[e.cid := e.bundle] && t == Admit(Keep(s, e.cid, Valid, limits), e, limits, clock)))
  {
  }

  lemma AnswersByReason(s: GateState, m: Message, limits: Limits, clock: Clock)
    ensures var reason := Decides(s, m, limits, clock);
            && (Answered(reason, m) == Rejected ==> Malformed(m, limits) || DecidedBy(reason, Invalid(Reject)))
            && (Answered(reason, m) == Accept && m.decoded.value.BundleMessage? ==> DecidedBy(reason, Valid))
  {
  }

  lemma KeepsByReason(s: GateState, m: Message, limits: Limits, clock: Clock)
    ensures var t := After(s, m, limits, clock);
            t.votes != s.votes || t.accepted != s.accepted ==>
              Answered(Decides(s, m, limits, clock), m) == Accept && m.verdict == Is(Valid)
  {
  }

  /**
   What an answer proves, on every run: a rejected message is malformed, or its own CID was judged a
   provable rejection by the verifier, at this message or at an earlier one; an accepted bundle's own CID
   was judged valid; and the votes and the remembered choices change only at a message accepted on a fresh
   valid verdict.
   */
  lemma AnswersMean(messages: seq<Message>, m: Message, limits: Limits, clock: Clock)
    ensures var s := Run(messages, limits, clock);
            var answer, t := Answered(Decides(s, m, limits, clock), m), After(s, m, limits, clock);
            && (answer == Rejected ==> Malformed(m, limits) || JudgedAs(messages, m, limits, clock, Invalid(Reject)))
            && (answer == Accept && m.decoded.value.BundleMessage? ==> JudgedAs(messages, m, limits, clock, Valid))
            && (t.votes != s.votes || t.accepted != s.accepted ==> answer == Accept && m.verdict == Is(Valid))
  {
    var s := Run(messages, limits, clock);
    var reason := Decides(s, m, limits, clock);
    AnswersByReason(s, m, limits, clock);
    KeepsByReason(s, m, limits, clock);
    if reason.Known? || reason.Verified? {
      DecidingVerdictWasJudged(messages, m, limits, clock);
      assert JudgedAs(messages, m, limits, clock, reason.verdict);
    }
  }

  lemma JudgedAnyway(messages: seq<Message>, limits: Limits, clock: Clock, e: Entry, v: Verdict, admitted: bool)
    requires WasJudged(messages, limits, clock, e, v, admitted)
    ensures CidWasJudged(messages, limits, clock, e.cid, v)
  {
    assert WasJudged(messages, limits, clock, e, v, false);
    assert Entry(e.cid, e.bundle) == e;
  }

  class GossipGate {
    const limits: Limits
    const dedup: AcceptedDedup
    var order: seq<Cid>
    var cache: map<Cid, Verdict>
    var votes: map<Cid, Bundle>

    constructor (clock: Clock, limits: Limits)
      ensures Valid() && fresh(dedup) && State() == NOTHING
      ensures this.limits == limits && dedup.clock == clock
    {
      this.limits := limits;
      dedup := new AcceptedDedup(clock, limits.maxAccepted);
      cache, order, votes := map[], [], map[];
    }

    ghost predicate Valid()
      reads this, dedup
    {
      dedup.Valid() && dedup.maxEntries == limits.maxAccepted
    }

    ghost function State(): GateState
      reads this, dedup
    {
      GateState(cache, order, dedup.order, votes)
    }

    method KeepVerdict(c: Cid, v: Verdict)
      requires IsCacheable(v)
      modifies `cache, `order
      ensures State() == Keep(old(State()), c, v, limits)
    {
      if c in cache { return; }
      cache := cache[c := v];
      order := order + [c];
      if |order| > limits.maxVerdicts {
        var evicted := order[0];
        order := order[1..];
        cache := cache - {evicted};
      }
    }

    /** Judge one message by the first check that applies. */
    method DoValidate(m: Message) returns (verdict: MessageVerdict)
      requires Valid()
      modifies this, dedup
      ensures Valid()
      ensures verdict == Answered(Decides(old(State()), m, limits, dedup.clock), m)
      ensures State() == After(old(State()), m, limits, dedup.clock)
    {
      if m.size > limits.maxBundleBytes && m.size > limits.maxRootBytes { return Rejected; }
      if m.decoded.None? { return Rejected; }
      if m.decoded.value.RootMessage? {
        if m.size > limits.maxRootBytes { return Rejected; }
        if !m.peerAllowed { return Ignored; }
        return Accept;
      }
      if m.size > limits.maxBundleBytes { return Rejected; }
      if !m.peerAllowed { return Ignored; }
      if m.decoded.value.parsed.None? { return Rejected; }
      var e := m.decoded.value.parsed.value;
      if e.cid in cache {
        var cached := cache[e.cid];
        return if cached.Valid? then Accept else Disposed(cached.disposition);
      }
      if m.evaluable.Threw? || !m.evaluable.value { return Ignored; }
      var duplicate := dedup.IsResignDuplicate(e.bundle);
      if duplicate { return Ignored; }
      if m.verdict.Threw? { return Ignored; }
      var judged := m.verdict.value;
      if IsCacheable(judged) { KeepVerdict(e.cid, judged); }
      if !judged.Valid? { return Disposed(judged.disposition); }
      if !m.admitted { return Ignored; }
      votes := votes[e.cid := e.bundle];
      dedup.Record(e.bundle);
      return Accept;
    }

    /** The deadline only replaces the answer: a validation it overtakes still runs to its end. */
    method Validate(m: Message, deadlinePasses: bool) returns (verdict: MessageVerdict)
      requires Valid()
      modifies this, dedup
      ensures Valid()
      ensures verdict == if deadlinePasses then Ignored else Answered(Decides(old(State()), m, limits, dedup.clock), m)
      ensures State() == After(old(State()), m, limits, dedup.clock)
    {
      verdict := DoValidate(m);
      if deadlinePasses { verdict := Ignored; }
    }
  }
}
