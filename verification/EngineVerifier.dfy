/**
 The engine's check flags against the background verifier that confirms them: which admitted bundles with a
 pending check the verifier will still answer for, and which are left pending for good.
 */
module EngineVerifier {
  import opened Wrappers
  import opened Bundles
  import opened WinnerSet
  import Gate
  import Runs
  import BM = BackgroundModel
  import opened BackgroundSafety
  import opened BackgroundSettlement

  /** A CID's content. */
  type Content = Cid -> Bundle

  /** The admitted bundles, the lists that chases and restores have yet to hand over, and what the verifier did. */
  datatype Host = Host(members: Members, lists: map<nat, seq<Cid>>, did: seq<BM.Op>)

  datatype Op =
    | Sign(cid: Cid, nameSettled: bool)
    | AdmitSettled(cid: Cid)
    | AdmitPending(cid: Cid, list: nat)
    | HandOver(list: nat)
    | Throws(list: nat)
    | Drop(gone: set<Cid>)
    | Verifier(op: BM.Op)

  const INITIAL := Host(map[], map[], [])

  function Recorded(content: Content, c: Cid, settled: bool, nameSettled: bool): Record {
    Record(content(c), InitialChecks(content(c), settled, nameSettled))
  }

  /** The engine's callback for one event. */
  function Told(s: Members, e: BM.Event): Members {
    match e
    case GateVerified(c) => if c in s then s[c := s[c].(checks := s[c].checks.Flip(Chain))] else s
    case NameResolved(c) => if c in s then s[c := s[c].(checks := s[c].checks.Flip(Name))] else s
    case Evicted(c, _) => s - {c}
    case _ => s
  }

  function ToldAll(s: Members, events: seq<BM.Event>): Members {
    if events == [] then s else Told(ToldAll(s, events[..|events| - 1]), events[|events| - 1])
  }

  function Log(did: seq<BM.Op>, grace: nat): seq<BM.Event> {
    BM.Run(did, grace).log
  }

  /** The verifier takes a step, calling back as it goes. */
  function Works(s: Host, op: BM.Op, grace: nat): Host {
    var before, after := Log(s.did, grace), Log(s.did + [op], grace);
    var events := if |before| <= |after| then after[|before|..] else [];
    s.(members := ToldAll(s.members, events), did := s.did + [op])
  }

  function Entries(content: Content, cids: seq<Cid>): seq<Entry> {
    seq(|cids|, i requires 0 <= i < |cids| => Entry(cids[i], content(cids[i])))
  }

  function ListOf(s: Host, list: nat): seq<Cid> {
    if list in s.lists then s.lists[list] else []
  }

  function Step(s: Host, op: Op, content: Content, grace: nat): Host {
    match op
    case Sign(c, nameSettled) =>
      Works(s.(members := s.members[c := Recorded(content, c, false, nameSettled)]), BM.Enqueue(Entries(content, [c])), grace)
    case AdmitSettled(c) => s.(members := s.members[c := Recorded(content, c, true, true)])
    case AdmitPending(c, list) =>
      s.(members := s.members[c := Recorded(content, c, false, false)], lists := s.lists[list := ListOf(s, list) + [c]])
    case HandOver(list) => Works(s.(lists := s.lists - {list}), BM.Enqueue(Entries(content, ListOf(s, list))), grace)
    case Throws(list) => s.(lists := s.lists - {list})
    case Drop(gone) => s.(members := s.members - gone)
    case Verifier(o) => if o.Enqueue? then s else Works(s, o, grace)
  }

  function Run(ops: seq<Op>, content: Content, grace: nat): Host {
    if ops == [] then INITIAL else Step(Run(ops[..|ops| - 1], content, grace), ops[|ops| - 1], content, grace)
  }

  // ---- who will still be answered for ----

  ghost function PhaseOf(s: Host, c: Cid, grace: nat): Phase {
    Follow(Log(s.did, grace), c, grace)
  }

  /** What the verifier has yet to tell is enough to settle these checks, or to evict. */
  predicate Covers(p: Phase, checks: Checks) {
    checks.Settled() || p.Waiting? || p.Rejecting? || (p.Notified? && checks.chainVerified)
  }

  predicate ListedBut(s: Host, c: Cid, list: nat) {
    exists l :: l in s.lists && l != list && c in s.lists[l]
  }

  predicate Listed(s: Host, c: Cid) {
    exists l :: l in s.lists && c in s.lists[l]
  }

  ghost predicate Owed(s: Host, c: Cid, grace: nat) {
    c in s.members ==> Listed(s, c) || Covers(PhaseOf(s, c, grace), s.members[c].checks)
  }

  /** Every pending check is settled by what the verifier will tell, or waits to be handed to it. */
  ghost predicate NoneForgotten(s: Host, grace: nat) {
    forall c :: Owed(s, c, grace)
  }

  // ---- one event ----

  predicate About(p: Phase, bundle: Bundle) {
    match p
    case Waiting(b, _) => b == bundle
    case Notified(b) => b == bundle
    case NamesDone(b) => b == bundle
    case _ => true
  }

  /** The flags of a member that the events so far and those to come leave in order. */
  ghost predicate InOrder(s: Members, p: Phase, c: Cid, content: Content) {
    && !p.Broken? && About(p, content(c))
    && (c in s ==> s[c].checks.nameResolved.Some? == CarriesName(content(c)))
  }

  lemma ToldStaysCovered(s: Members, p: Phase, e: BM.Event, c: Cid, content: Content, grace: nat)
    requires InOrder(s, p, c, content) && (c in s ==> Covers(p, s[c].checks))
    requires BackgroundSettlement.About(e, c) && !Next(p, e, grace).Broken? && (e.Enqueued? ==> e.bundle == content(c))
    ensures InOrder(Told(s, e), Next(p, e, grace), c, content)
    ensures c in Told(s, e) ==> Covers(Next(p, e, grace), Told(s, e)[c].checks)
  {
  }

  lemma ToldOfAnother(s: Members, e: BM.Event, c: Cid)
    requires !BackgroundSettlement.About(e, c)
    ensures c in Told(s, e) <==> c in s
    ensures c in s ==> Told(s, e)[c] == s[c]
  {
  }

  predicate Enqueues(events: seq<BM.Event>, content: Content) {
    forall e <- events :: e.Enqueued? ==> e.bundle == content(e.cid)
  }

  lemma {:induction false} AllToldStaysCovered(s: Members, log: seq<BM.Event>, events: seq<BM.Event>, c: Cid, content: Content, grace: nat)
    requires InOrder(s, Follow(log, c, grace), c, content) && Enqueues(events, content)
    requires !Follow(log + events, c, grace).Broken?
    ensures InOrder(ToldAll(s, events), Follow(log + events, c, grace), c, content)
    ensures (c in s ==> Covers(Follow(log, c, grace), s[c].checks)) ==>
              (c in ToldAll(s, events) ==> Covers(Follow(log + events, c, grace), ToldAll(s, events)[c].checks))
  {
    if events == [] {
      assert log + events == log;
    } else {
      var n := |events| - 1;
      var most, e := events[..n], events[n];
      assert log + events == (log + most) + [e];
      FollowOne(log + most, e, c, grace);
      assert e in events && forall o <- most :: o in events;
      AllToldStaysCovered(s, log, most, c, content, grace);
      ToldInOrder(ToldAll(s, most), Follow(log + most, c, grace), e, c, content, grace);
    }
  }

  /** The same for one event, whoever it is about. */
  lemma ToldInOrder(s: Members, p: Phase, e: BM.Event, c: Cid, content: Content, grace: nat)
    requires InOrder(s, p, c, content) && (e.Enqueued? ==> e.bundle == content(e.cid))
    requires BackgroundSettlement.About(e, c) ==> !Next(p, e, grace).Broken?
    ensures var q := if BackgroundSettlement.About(e, c) then Next(p, e, grace) else p;
            && InOrder(Told(s, e), q, c, content)
            && ((c in s ==> Covers(p, s[c].checks)) ==> (c in Told(s, e) ==> Covers(q, Told(s, e)[c].checks)))
  {
    if BackgroundSettlement.About(e, c) {
      if c in s ==> Covers(p, s[c].checks) {
        ToldStaysCovered(s, p, e, c, content, grace);
      }
    } else {
      ToldOfAnother(s, e, c);
    }
  }

  // ---- one step of the verifier ----

  predicate Addressed(op: BM.Op, content: Content) {
    op.Enqueue? ==> forall e <- op.entries :: e.bundle == content(e.cid)
  }

  /** The phase of a bundle once some have been enqueued: waiting, if it was not in flight. */
  lemma {:induction false} EnqueuePhase(s: BM.State, entries: seq<Entry>, c: Cid, grace: nat)
    requires c !in s.inFlight ==> Follow(s.log, c, grace).Settled?
    ensures var t := BM.EnqueueAll(s, entries);
            && (c in t.inFlight <==> c in s.inFlight || exists e <- entries :: e.cid == c)
            && (c !in t.inFlight ==> Follow(t.log, c, grace).Settled?)
            && if c in s.inFlight || c !in t.inFlight then Follow(t.log, c, grace) == Follow(s.log, c, grace)
               else Follow(t.log, c, grace).Waiting?
  {
    if entries != [] {
      var n := |entries| - 1;
      EnqueuePhase(s, entries[..n], c, grace);
      var t, e := BM.EnqueueAll(s, entries[..n]), entries[n];
      FollowOne(t.log, BM.Enqueued(e.cid, e.bundle, t.now), c, grace);
      assert entries == entries[..n] + [e];
    }
  }

  ghost predicate HostInv(s: Host, content: Content, grace: nat) {
    forall c :: InOrder(s.members, PhaseOf(s, c, grace), c, content)
  }

  /** The verifier's step keeps the flags in order, and what covered them. */
  lemma WorksInOrder(s: Host, op: BM.Op, c: Cid, content: Content, grace: nat)
    requires InOrder(s.members, PhaseOf(s, c, grace), c, content) && Addressed(op, content)
    ensures var t := Works(s, op, grace);
            && InOrder(t.members, PhaseOf(t, c, grace), c, content)
            && ((c in s.members ==> Covers(PhaseOf(s, c, grace), s.members[c].checks)) ==>
                (c in t.members ==> Covers(PhaseOf(t, c, grace), t.members[c].checks)))
  {
    var v, t := BM.Run(s.did, grace), Works(s, op, grace);
    RunOne(s.did, op, grace);
    NewEvents(v, op, grace);
    var log, events := Log(s.did, grace), Log(s.did + [op], grace)[|v.log|..];
    assert log + events == Log(s.did + [op], grace);
    EveryBundleSettlesOnce(s.did + [op], c, grace);
    forall e <- events | e.Enqueued? ensures e.bundle == content(e.cid) {
      assert Entry(e.cid, e.bundle) in op.entries;
    }
    AllToldStaysCovered(s.members, log, events, c, content, grace);
  }

  lemma {:induction false} EnqueuingTellsNothing(s: Members, events: seq<BM.Event>)
    requires forall e <- events :: e.Enqueued? || e.IdleResolved?
    ensures ToldAll(s, events) == s
  {
    if events != [] {
      var n := |events| - 1;
      assert events[n] in events && forall e <- events[..n] :: e in events;
      EnqueuingTellsNothing(s, events[..n]);
    }
  }

  lemma EntriesHave(content: Content, cids: seq<Cid>, c: Cid)
    ensures c in cids <==> exists e <- Entries(content, cids) :: e.cid == c
  {
    var entries := Entries(content, cids);
    if c in cids {
      var i :| 0 <= i < |cids| && cids[i] == c;
      assert entries[i] in entries && entries[i].cid == c;
    }
    if exists e <- entries :: e.cid == c {
      var e :| e in entries && e.cid == c;
      var i :| 0 <= i < |entries| && entries[i] == e;
      assert cids[i] == c;
    }
  }

  /** A bundle that was not in flight is waiting once it is enqueued; the others are where they were. */
  lemma EnqueuedPhase(did: seq<BM.Op>, cids: seq<Cid>, c: Cid, content: Content, grace: nat)
    ensures var before, after := Follow(Log(did, grace), c, grace), Follow(Log(did + [BM.Enqueue(Entries(content, cids))], grace), c, grace);
            if before.Settled? && c in cids then after.Waiting? else after == before
  {
    var entries := Entries(content, cids);
    var v := BM.Run(did, grace);
    RunOne(did, BM.Enqueue(entries), grace);
    EveryBundleSettlesOnce(did, c, grace);
    EnqueuePhase(v, entries, c, grace);
    var u := BM.EnqueueAll(v, entries);
    FollowOne(u.log, BM.IdleResolved, c, grace);
    KickIsQuiet(u);
    EntriesHave(content, cids, c);
  }

  /** Enqueuing changes no flag. */
  lemma EnqueueWorks(s: Host, cids: seq<Cid>, c: Cid, content: Content, grace: nat)
    ensures var t := Works(s, BM.Enqueue(Entries(content, cids)), grace);
            && t.members == s.members && t.lists == s.lists
            && if PhaseOf(s, c, grace).Settled? && c in cids then PhaseOf(t, c, grace).Waiting?
               else PhaseOf(t, c, grace) == PhaseOf(s, c, grace)
  {
    var v, op := BM.Run(s.did, grace), BM.Enqueue(Entries(content, cids));
    RunOne(s.did, op, grace);
    NewEvents(v, op, grace);
    EnqueuingTellsNothing(s.members, Log(s.did + [op], grace)[|v.log|..]);
    EnqueuedPhase(s.did, cids, c, content, grace);
  }

  // ---- the steps that forget a bundle ----

  /** Its gate has been told, but the flag was reset since. */
  ghost predicate ToldTooEarly(s: Host, c: Cid, grace: nat) {
    c in s.members && PhaseOf(s, c, grace).Notified? && !s.members[c].checks.chainVerified
  }

  /**
   Signing a ballot again while it is in flight and its gate has been told; handing over a bundle to which
   that has happened; and a chase that throws with bundles admitted that the verifier will not settle.
   */
  ghost predicate Forgets(s: Host, op: Op, grace: nat) {
    match op
    case Sign(c, _) => PhaseOf(s, c, grace).Notified? && !Listed(s, c)
    case HandOver(list) => exists c <- ListOf(s, list) :: ToldTooEarly(s, c, grace) && !ListedBut(s, c, list)
    case Throws(list) => exists c <- ListOf(s, list) ::
      c in s.members && !Covers(PhaseOf(s, c, grace), s.members[c].checks) && !ListedBut(s, c, list)
    case AdmitSettled(_) => false
    case AdmitPending(_, _) => false
    case Drop(_) => false
    case Verifier(_) => false
  }

  lemma StillListed(s: Host, list: nat, c: Cid)
    ensures Listed(s.(lists := s.lists - {list}), c) <==> ListedBut(s, c, list)
    ensures Listed(s, c) <==> ListedBut(s, c, list) || c in ListOf(s, list)
  {
    var t := s.(lists := s.lists - {list});
    if ListedBut(s, c, list) {
      var l :| l in s.lists && l != list && c in s.lists[l];
      assert l in t.lists && c in t.lists[l];
    }
    if Listed(t, c) {
      var l :| l in t.lists && c in t.lists[l];
      assert l in s.lists && l != list && c in s.lists[l];
    }
    if Listed(s, c) && c !in ListOf(s, list) {
      var l :| l in s.lists && c in s.lists[l];
      assert l != list;
    }
  }

  /** In flight exactly while the host has been told of it but not yet how it ended. */
  lemma PhaseIsFlight(s: Host, c: Cid, grace: nat)
    ensures var p := PhaseOf(s, c, grace); p.Settled? || p.Waiting? || p.Notified?
    ensures PhaseOf(s, c, grace).Settled? <==> c !in BM.Run(s.did, grace).inFlight
  {
    EveryBundleSettlesOnce(s.did, c, grace);
  }

  lemma SignOwes(s: Host, c: Cid, nameSettled: bool, content: Content, grace: nat, d: Cid)
    requires Owed(s, d, grace)
    ensures Owed(Step(s, Sign(c, nameSettled), content, grace), d, grace) <==> !(d == c && Forgets(s, Sign(c, nameSettled), grace))
  {
    var u := s.(members := s.members[c := Recorded(content, c, false, nameSettled)]);
    EnqueueWorks(u, [c], d, content, grace);
    PhaseIsFlight(s, d, grace);
    assert Listed(Works(u, BM.Enqueue(Entries(content, [c])), grace), d) <==> Listed(s, d);
    assert d in [c] <==> d == c;
  }

  lemma HandOverOwes(s: Host, list: nat, content: Content, grace: nat, d: Cid)
    requires Owed(s, d, grace)
    ensures var t := Step(s, HandOver(list), content, grace);
            Owed(t, d, grace) <==> !(d in ListOf(s, list) && ToldTooEarly(s, d, grace) && !ListedBut(s, d, list))
  {
    var u := s.(lists := s.lists - {list});
    EnqueueWorks(u, ListOf(s, list), d, content, grace);
    PhaseIsFlight(s, d, grace);
    StillListed(s, list, d);
    assert Listed(Works(u, BM.Enqueue(Entries(content, ListOf(s, list))), grace), d) <==> Listed(u, d);
  }

  lemma ThrowsOwes(s: Host, list: nat, content: Content, grace: nat, d: Cid)
    requires Owed(s, d, grace)
    ensures Owed(Step(s, Throws(list), content, grace), d, grace) <==>
            !(d in ListOf(s, list) && d in s.members && !Covers(PhaseOf(s, d, grace), s.members[d].checks) && !ListedBut(s, d, list))
  {
    StillListed(s, list, d);
  }

  lemma AdmitOwes(s: Host, op: Op, content: Content, grace: nat, d: Cid)
    requires Owed(s, d, grace) && (op.AdmitPending? || op.AdmitSettled? || op.Drop?)
    ensures Owed(Step(s, op, content, grace), d, grace)
  {
    var t := Step(s, op, content, grace);
    if op.AdmitPending? {
      assert op.list in t.lists && (d == op.cid ==> d in t.lists[op.list]);
      if Listed(s, d) {
        var l :| l in s.lists && d in s.lists[l];
        assert l in t.lists && d in t.lists[l];
      }
    } else {
      assert Listed(s, d) <==> Listed(t, d);
    }
  }

  lemma SameLists(s: Host, t: Host, c: Cid)
    requires t.lists == s.lists
    ensures Listed(t, c) <==> Listed(s, c)
  {
  }

  lemma VerifierOwes(s: Host, op: BM.Op, content: Content, grace: nat, d: Cid)
    requires Owed(s, d, grace) && InOrder(s.members, PhaseOf(s, d, grace), d, content)
    ensures Owed(Step(s, Verifier(op), content, grace), d, grace)
  {
    if !op.Enqueue? {
      WorksInOrder(s, op, d, content, grace);
      SameLists(s, Works(s, op, grace), d);
    }
  }

  /** One step forgets somebody exactly where `Forgets` says so. */
  lemma StepForgetsExactly(s: Host, op: Op, content: Content, grace: nat)
    requires HostInv(s, content, grace) && NoneForgotten(s, grace)
    ensures NoneForgotten(Step(s, op, content, grace), grace) <==> !Forgets(s, op, grace)
  {
    var t := Step(s, op, content, grace);
    forall d ensures !Forgets(s, op, grace) ==> Owed(t, d, grace) {
      assert Owed(s, d, grace);
      StepOwes(s, op, content, grace, d);
    }
    if Forgets(s, op, grace) {
      var d := Victim(s, op, grace);
      assert Owed(s, d, grace);
      StepOwes(s, op, content, grace, d);
      assert !Owed(t, d, grace);
    }
  }

  ghost predicate Hits(s: Host, op: Op, grace: nat, d: Cid) {
    match op
    case Sign(c, _) => d == c && Forgets(s, op, grace)
    case HandOver(list) => d in ListOf(s, list) && ToldTooEarly(s, d, grace) && !ListedBut(s, d, list)
    case Throws(list) =>
      d in ListOf(s, list) && d in s.members && !Covers(PhaseOf(s, d, grace), s.members[d].checks) && !ListedBut(s, d, list)
    case _ => false
  }

  ghost function Victim(s: Host, op: Op, grace: nat): (d: Cid)
    requires Forgets(s, op, grace)
    ensures Hits(s, op, grace, d)
  {
    match op
    case Sign(c, _) => c
    case HandOver(list) => var d :| d in ListOf(s, list) && Hits(s, op, grace, d); d
    case Throws(list) => var d :| d in ListOf(s, list) && Hits(s, op, grace, d); d
  }

  lemma StepOwes(s: Host, op: Op, content: Content, grace: nat, d: Cid)
    requires HostInv(s, content, grace) && Owed(s, d, grace)
    ensures Owed(Step(s, op, content, grace), d, grace) <==> !Hits(s, op, grace, d)
    ensures Hits(s, op, grace, d) ==> Forgets(s, op, grace)
  {
    assert InOrder(s.members, PhaseOf(s, d, grace), d, content);
    match op
    case Sign(c, nameSettled) => SignOwes(s, c, nameSettled, content, grace, d);
    case HandOver(list) => HandOverOwes(s, list, content, grace, d);
    case Throws(list) => ThrowsOwes(s, list, content, grace, d);
    case Verifier(o) => VerifierOwes(s, o, content, grace, d);
    case _ => AdmitOwes(s, op, content, grace, d);
  }

  lemma EntriesAddressed(content: Content, cids: seq<Cid>)
    ensures Addressed(BM.Enqueue(Entries(content, cids)), content)
  {
  }

  lemma StepKeepsInv(s: Host, op: Op, content: Content, grace: nat, c: Cid)
    requires InOrder(s.members, PhaseOf(s, c, grace), c, content)
    ensures var t := Step(s, op, content, grace); InOrder(t.members, PhaseOf(t, c, grace), c, content)
  {
    match op
    case Sign(d, nameSettled) =>
      EntriesAddressed(content, [d]);
      WorksInOrder(s.(members := s.members[d := Recorded(content, d, false, nameSettled)]), BM.Enqueue(Entries(content, [d])), c, content, grace);
    case HandOver(list) =>
      EntriesAddressed(content, ListOf(s, list));
      WorksInOrder(s.(lists := s.lists - {list}), BM.Enqueue(Entries(content, ListOf(s, list))), c, content, grace);
    case Verifier(o) => if !o.Enqueue? { WorksInOrder(s, o, c, content, grace); }
    case _ =>
  }

  lemma {:induction false} EveryRunInOrder(ops: seq<Op>, content: Content, grace: nat)
    ensures HostInv(Run(ops, content, grace), content, grace)
  {
    if ops != [] {
      var n := |ops| - 1;
      EveryRunInOrder(ops[..n], content, grace);
      var s := Run(ops[..n], content, grace);
      forall c ensures var t := Run(ops, content, grace); InOrder(t.members, PhaseOf(t, c, grace), c, content) {
        assert InOrder(s.members, PhaseOf(s, c, grace), c, content);
        StepKeepsInv(s, ops[n], content, grace, c);
      }
    }
  }

  ghost predicate RemembersAt(ops: seq<Op>, content: Content, grace: nat, i: nat) {
    i <= |ops| && NoneForgotten(Run(ops[..i], content, grace), grace)
  }

  ghost predicate ForgetsAt(ops: seq<Op>, content: Content, grace: nat, i: nat) {
    i < |ops| && Forgets(Run(ops[..i], content, grace), ops[i], grace)
  }

  lemma RemembersNext(ops: seq<Op>, content: Content, grace: nat, i: nat)
    requires i < |ops| && RemembersAt(ops, content, grace, i)
    ensures RemembersAt(ops, content, grace, i + 1) <==> !ForgetsAt(ops, content, grace, i)
  {
    assert ops[..i + 1][..i] == ops[..i];
    EveryRunInOrder(ops[..i], content, grace);
    StepForgetsExactly(Run(ops[..i], content, grace), ops[i], content, grace);
  }

  lemma RemembersThroughout(ops: seq<Op>, content: Content, grace: nat)
    ensures (forall i: nat :: i <= |ops| ==> RemembersAt(ops, content, grace, i))
            <==> forall i: nat :: i < |ops| ==> !ForgetsAt(ops, content, grace, i)
  {
    var holds, breaks := (i: nat) => RemembersAt(ops, content, grace, i), (i: nat) => ForgetsAt(ops, content, grace, i);
    assert ops[..0] == [];
    forall i: nat | i < |ops| && holds(i) ensures holds(i + 1) <==> !breaks(i) { RemembersNext(ops, content, grace, i); }
    Runs.ThroughoutExactly(holds, breaks, |ops|);
    assert forall i: nat | i <= |ops| :: holds(i) == RemembersAt(ops, content, grace, i);
    assert forall i: nat | i < |ops| :: breaks(i) == ForgetsAt(ops, content, grace, i);
  }

  /**
   On every run of the engine with its verifier: every admitted bundle with a pending check is still to be
   settled by the verifier, or waits to be handed to it, throughout, if and only if no step of the run forgets
   one. Then a verifier with nothing in flight, and nothing to be handed to it, leaves nothing pending.
   */
  lemma NobodyIsForgottenExactly(ops: seq<Op>, content: Content, grace: nat)
    ensures (forall i: nat :: i <= |ops| ==> RemembersAt(ops, content, grace, i))
            <==> forall i: nat :: i < |ops| ==> !ForgetsAt(ops, content, grace, i)
    ensures var s := Run(ops, content, grace);
            NoneForgotten(s, grace) && s.lists == map[] && BM.Run(s.did, grace).inFlight == {} ==>
              forall c <- s.members :: s.members[c].checks.Settled()
  {
    RemembersThroughout(ops, content, grace);
    var s := Run(ops, content, grace);
    if NoneForgotten(s, grace) && s.lists == map[] && BM.Run(s.did, grace).inFlight == {} {
      forall c <- s.members ensures s.members[c].checks.Settled() {
        assert Owed(s, c, grace);
        PhaseIsFlight(s, c, grace);
      }
    }
  }

  // ---- what is forgotten stays so ----

  /** Pending at its gate, on no list, and past the point where the verifier tells its gate. */
  ghost predicate Stuck(s: Host, c: Cid, grace: nat) {
    && c in s.members && !s.members[c].checks.chainVerified && !Listed(s, c)
    && PastItsGate(PhaseOf(s, c, grace))
  }

  predicate PastItsGate(p: Phase) {
    !p.Waiting? && !p.Rejecting? && !p.Broken?
  }

  /** Events that do not enqueue a bundle do not confirm its gate a second time. */
  lemma {:induction false} LeftAlone(s: Members, log: seq<BM.Event>, events: seq<BM.Event>, c: Cid, grace: nat)
    requires PastItsGate(Follow(log, c, grace)) && !Follow(log + events, c, grace).Broken?
    requires forall e <- events :: !e.Enqueued?
    requires c in s ==> !s[c].checks.chainVerified
    ensures PastItsGate(Follow(log + events, c, grace))
    ensures c in ToldAll(s, events) ==> !ToldAll(s, events)[c].checks.chainVerified
  {
    if events == [] {
      assert log + events == log;
    } else {
      var n := |events| - 1;
      var most, e := events[..n], events[n];
      assert log + events == (log + most) + [e];
      FollowOne(log + most, e, c, grace);
      assert e in events && forall o <- most :: o in events;
      LeftAlone(s, log, most, c, grace);
    }
  }

  predicate Admits(op: Op, c: Cid) {
    (op.Sign? || op.AdmitSettled? || op.AdmitPending?) && op.cid == c
  }

  lemma VerifierLeavesStuck(s: Host, op: BM.Op, c: Cid, grace: nat)
    requires Stuck(s, c, grace) && !op.Enqueue?
    ensures var t := Works(s, op, grace); c in t.members ==> Stuck(t, c, grace)
  {
    var v, t := BM.Run(s.did, grace), Works(s, op, grace);
    RunOne(s.did, op, grace);
    OthersAreQuiet(v, op, grace);
    var log, events := Log(s.did, grace), Log(s.did + [op], grace)[|v.log|..];
    assert log + events == Log(s.did + [op], grace);
    EveryBundleSettlesOnce(s.did + [op], c, grace);
    LeftAlone(s.members, log, events, c, grace);
    assert Listed(t, c) <==> Listed(s, c);
  }

  /** Nothing but admitting it once more, or dropping it, moves a stuck bundle. */
  lemma StuckStaysStuck(s: Host, op: Op, c: Cid, content: Content, grace: nat)
    requires Stuck(s, c, grace) && !Admits(op, c)
    ensures var t := Step(s, op, content, grace); c in t.members ==> Stuck(t, c, grace)
  {
    match op
    case Sign(d, nameSettled) =>
      EnqueueWorks(s.(members := s.members[d := Recorded(content, d, false, nameSettled)]), [d], c, content, grace);
      assert Listed(Step(s, op, content, grace), c) <==> Listed(s, c);
    case HandOver(list) =>
      StillListed(s, list, c);
      EnqueueWorks(s.(lists := s.lists - {list}), ListOf(s, list), c, content, grace);
      assert Listed(Step(s, op, content, grace), c) <==> Listed(s.(lists := s.lists - {list}), c);
    case Throws(list) => StillListed(s, list, c);
    case Verifier(o) => if !o.Enqueue? { VerifierLeavesStuck(s, o, c, grace); }
    case AdmitPending(d, list) => AdmitLeavesUnlisted(s, d, list, c, content, grace);
    case AdmitSettled(d) => assert Listed(Step(s, op, content, grace), c) <==> Listed(s, c);
    case Drop(gone) => assert Listed(Step(s, op, content, grace), c) <==> Listed(s, c);
  }

  lemma AdmitLeavesUnlisted(s: Host, d: Cid, list: nat, c: Cid, content: Content, grace: nat)
    requires d != c
    ensures Listed(Step(s, AdmitPending(d, list), content, grace), c) ==> Listed(s, c)
  {
    var t := Step(s, AdmitPending(d, list), content, grace);
    if Listed(t, c) {
      var l :| l in t.lists && c in t.lists[l];
      assert l in s.lists && c in s.lists[l];
    }
  }

  /** A chase that throws after admitting a bundle leaves it stuck: no later chase looks at it again. */
  lemma ThrownChaseStrands(content: Content, c: Cid, grace: nat)
    ensures var s := Run([AdmitPending(c, 0), Throws(0)], content, grace);
            Stuck(s, c, grace) && s.lists == map[] && BM.Run(s.did, grace).inFlight == {}
  {
    var ops := [AdmitPending(c, 0), Throws(0)];
    assert ops[..1] == [AdmitPending(c, 0)] && ops[..1][..0] == [];
    var s := Run(ops, content, grace);
    assert ListOf(INITIAL, 0) + [c] == [c];
    assert Run(ops[..1], content, grace) == Step(INITIAL, AdmitPending(c, 0), content, grace);
    assert Run(ops[..1], content, grace) == Host(map[c := Recorded(content, c, false, false)], map[0 := [c]], []);
    assert s == Host(map[c := Recorded(content, c, false, false)], map[], []);
    assert Log([], grace) == [];
  }

  /** The verifier's state while one bundle without names is alone in a round. */
  function Single(c: Cid, b: Bundle, gate: Option<Gate.Result>, stage: BM.Stage, log: seq<BM.Event>): BM.State {
    BM.State([], {c}, true, false, false,
             Some(BM.Round([BM.Item(c, b, gate.Some?, stage.AwaitingName?, map[], gate, 0)], [], [], stage)), 0, 0, log)
  }

  lemma SingleEnqueued(c: Cid, b: Bundle, grace: nat)
    ensures BM.Run([BM.Enqueue([Entry(c, b)])], grace) == Single(c, b, None, BM.AwaitingGate, [BM.Enqueued(c, b, 0)])
  {
    var ops, e := [BM.Enqueue([Entry(c, b)])], Entry(c, b);
    assert ops[..0] == [] && [e][..0] == [];
    assert BM.EnqueueAll(BM.INITIAL, [e]) == BM.EnqueueOne(BM.INITIAL, e);
    var item := BM.Item(c, b, false, false, map[], None, 0);
    assert BM.INITIAL.inFlight + {c} == {c} && BM.INITIAL.queue + [item] == [item];
    assert BM.INITIAL.log + [BM.Enqueued(c, b, 0)] == [BM.Enqueued(c, b, 0)];
    assert BM.Run(ops, grace) == BM.Step(BM.INITIAL, ops[0], grace);
  }

  lemma SingleGated(c: Cid, b: Bundle, scores: BM.Scores, log: seq<BM.Event>, grace: nat)
    requires scores(b).satisfied == Gate.Yes
    ensures var t := Single(c, b, Some(scores(b)), BM.BetweenItems, log);
            && BM.Step(Single(c, b, None, BM.AwaitingGate, log), BM.GateReturns(Some(scores)), grace) == t
            && BM.Step(t, BM.NextItem, grace) == Single(c, b, Some(scores(b)), BM.AwaitingName, log + [BM.GateVerified(c)])
  {
    var s := Single(c, b, None, BM.AwaitingGate, log);
    var t := Single(c, b, Some(scores(b)), BM.BetweenItems, log);
    assert BM.GatedAll(s.round.value.batch, scores) == t.round.value.batch;
    var item := t.round.value.batch[0];
    assert [item.(gateNotified := true)] + t.round.value.batch[1..] == [item.(gateNotified := true)];
  }

  lemma SingleAgain(c: Cid, b: Bundle, gate: Option<Gate.Result>, log: seq<BM.Event>, grace: nat)
    ensures var s := Single(c, b, gate, BM.AwaitingName, log); BM.Step(s, BM.Enqueue([Entry(c, b)]), grace) == s
  {
    var s, e := Single(c, b, gate, BM.AwaitingName, log), Entry(c, b);
    assert [e][..0] == [] && BM.EnqueueAll(s, [e]) == BM.EnqueueOne(BM.EnqueueAll(s, []), e);
    assert c in s.inFlight && BM.EnqueueAll(s, []) == s;
  }

  lemma SingleSettles(c: Cid, b: Bundle, gate: Option<Gate.Result>, log: seq<BM.Event>, grace: nat)
    requires !CarriesName(b)
    ensures var t := BM.Step(Single(c, b, gate, BM.AwaitingName, log), BM.NameReturns(BM.NoResolver), grace);
            t.inFlight == {} && exists item :: t.log == log + [BM.Cached(c, BM.Valid(item))]
  {
    var s := Single(c, b, gate, BM.AwaitingName, log);
    var item := s.round.value.batch[0];
    assert BM.NextName(item, 0) == |b.votes|;
    assert [] + [BM.Cached(c, BM.Valid(item))] == [BM.Cached(c, BM.Valid(item))];
  }

  lemma WorksWith(s: Host, op: BM.Op, v: BM.State, t: BM.State, events: seq<BM.Event>, grace: nat)
    requires BM.Run(s.did, grace) == v && BM.Step(v, op, grace) == t && t.log == v.log + events
    ensures Works(s, op, grace) == s.(members := ToldAll(s.members, events), did := s.did + [op])
    ensures BM.Run(s.did + [op], grace) == t
  {
    RunOne(s.did, op, grace);
    assert t.log[|v.log|..] == events;
  }

  /** Where a host stands whose one bundle is alone in the verifier. */
  ghost predicate StandsAt(s: Host, c: Cid, rec: Record, v: BM.State, grace: nat) {
    s.members == map[c := rec] && s.lists == map[] && BM.Run(s.did, grace) == v
  }

  lemma RunThen(ops: seq<Op>, op: Op, content: Content, grace: nat)
    ensures Run(ops + [op], content, grace) == Step(Run(ops, content, grace), op, content, grace)
  {
    assert (ops + [op])[..|ops|] == ops;
  }

  lemma SignedOnce(content: Content, c: Cid, grace: nat)
    ensures StandsAt(Run([Sign(c, false)], content, grace), c, Recorded(content, c, false, false),
                     Single(c, content(c), None, BM.AwaitingGate, [BM.Enqueued(c, content(c), 0)]), grace)
  {
    var op := BM.Enqueue(Entries(content, [c]));
    var u := INITIAL.(members := map[c := Recorded(content, c, false, false)]);
    assert [] + [Sign(c, false)] == [Sign(c, false)];
    RunThen([], Sign(c, false), content, grace);
    assert Entries(content, [c]) == [Entry(c, content(c))] && [] + [op] == [op];
    SingleEnqueued(c, content(c), grace);
    RunOne([], op, grace);
    WorksWith(u, op, BM.INITIAL, BM.Run([op], grace), [BM.Enqueued(c, content(c), 0)], grace);
    EnqueuingTellsNothing(u.members, [BM.Enqueued(c, content(c), 0)]);
  }

  /** The host, too, stands where its verifier takes it. */
  lemma HostFollows(ops: seq<Op>, op: BM.Op, content: Content, c: Cid, rec: Record, v: BM.State, t: BM.State,
                    events: seq<BM.Event>, after: Record, grace: nat)
    requires StandsAt(Run(ops, content, grace), c, rec, v, grace) && !op.Enqueue?
    requires BM.Step(v, op, grace) == t && t.log == v.log + events && ToldAll(map[c := rec], events) == map[c := after]
    ensures StandsAt(Run(ops + [Verifier(op)], content, grace), c, after, t, grace)
  {
    RunThen(ops, Verifier(op), content, grace);
    WorksWith(Run(ops, content, grace), op, v, t, events, grace);
  }

  lemma ThenSignedAgain(ops: seq<Op>, content: Content, c: Cid, rec: Record, gate: Option<Gate.Result>, log: seq<BM.Event>, grace: nat)
    requires StandsAt(Run(ops, content, grace), c, rec, Single(c, content(c), gate, BM.AwaitingName, log), grace)
    ensures StandsAt(Run(ops + [Sign(c, false)], content, grace), c, Recorded(content, c, false, false),
                     Single(c, content(c), gate, BM.AwaitingName, log), grace)
  {
    var v, s := Single(c, content(c), gate, BM.AwaitingName, log), Run(ops, content, grace);
    RunThen(ops, Sign(c, false), content, grace);
    assert Entries(content, [c]) == [Entry(c, content(c))];
    SingleAgain(c, content(c), gate, log, grace);
    WorksWith(s.(members := s.members[c := Recorded(content, c, false, false)]), BM.Enqueue([Entry(c, content(c))]), v, v, [], grace);
  }

  lemma ToldOnce(rec: Record, e: BM.Event, c: Cid)
    ensures e == BM.GateVerified(c) ==> ToldAll(map[c := rec], [e]) == map[c := rec.(checks := rec.checks.Flip(Chain))]
    ensures e.Cached? ==> ToldAll(map[c := rec], [e]) == map[c := rec]
    ensures ToldAll(map[c := rec], []) == map[c := rec]
  {
    assert [e][..0] == [];
    assert ToldAll(map[c := rec], [e]) == Told(map[c := rec], e);
  }

  lemma PendingAndIdleIsStuck(s: Host, c: Cid, grace: nat)
    requires c in s.members && !s.members[c].checks.chainVerified && s.lists == map[]
    requires BM.Run(s.did, grace).inFlight == {}
    ensures Stuck(s, c, grace)
  {
    PhaseIsFlight(s, c, grace);
  }

  /**
   A ballot signed again after its gate was told, and before it was settled, is settled without a word: the
   verifier has nothing left to do, and the flag that was reset is never confirmed.
   */
  lemma SignedAgainIsStuck(content: Content, c: Cid, scores: BM.Scores, grace: nat)
    requires scores(content(c)).satisfied == Gate.Yes && !CarriesName(content(c))
    ensures var s := Run([Sign(c, false), Verifier(BM.GateReturns(Some(scores))), Verifier(BM.NextItem), Sign(c, false),
                          Verifier(BM.NameReturns(BM.NoResolver))], content, grace);
            Stuck(s, c, grace) && s.lists == map[] && BM.Run(s.did, grace).inFlight == {}
  {
    var b, rec, gate := content(c), Recorded(content, c, false, false), Some(scores(content(c)));
    var log, sign: seq<Op> := [BM.Enqueued(c, b, 0)], [Sign(c, false)];
    var p, q, r := BM.GateReturns(Some(scores)), BM.NextItem, BM.NameReturns(BM.NoResolver);
    SignedOnce(content, c, grace);
    SingleGated(c, b, scores, log, grace);
    ToldOnce(rec, BM.GateVerified(c), c);
    HostFollows(sign, p, content, c, rec, Single(c, b, None, BM.AwaitingGate, log), Single(c, b, gate, BM.BetweenItems, log), [], rec, grace);
    var told := log + [BM.GateVerified(c)];
    var v := Single(c, b, gate, BM.AwaitingName, told);
    HostFollows(sign + [Verifier(p)], q, content, c, rec, Single(c, b, gate, BM.BetweenItems, log), v,
                [BM.GateVerified(c)], rec.(checks := rec.checks.Flip(Chain)), grace);
    ThenSignedAgain(sign + [Verifier(p)] + [Verifier(q)], content, c, rec.(checks := rec.checks.Flip(Chain)), gate, told, grace);
    SingleSettles(c, b, gate, told, grace);
    var item :| BM.Step(v, r, grace).log == told + [BM.Cached(c, BM.Valid(item))];
    ToldOnce(rec, BM.Cached(c, BM.Valid(item)), c);
    HostFollows(sign + [Verifier(p)] + [Verifier(q)] + [Sign(c, false)], r, content, c, rec, v, BM.Step(v, r, grace),
                [BM.Cached(c, BM.Valid(item))], rec, grace);
    var ops := sign + [Verifier(p)] + [Verifier(q)] + [Sign(c, false)] + [Verifier(r)];
    assert ops == [Sign(c, false), Verifier(p), Verifier(q), Sign(c, false), Verifier(r)];
    PendingAndIdleIsStuck(Run(ops, content, grace), c, grace);
  }
}
