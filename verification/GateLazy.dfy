/** The lazy evaluation against the collected one. */
module GateLazy {
  import opened Wrappers
  import opened Gate
  import opened GateVerdicts

  lemma LazyFork(n: Indexed, answers: Answers)
    requires n.Fork?
    ensures var r, stop := Lazy(n, answers), StopAt(n.kind, n.children, answers);
            && |r.children| == |n.children| && stop <= |n.children|
            && (forall i :: 0 <= i < |n.children| && i <= stop ==> r.children[i] == Lazy(n.children[i], answers))
            && (forall i :: stop < i < |n.children| ==> r.children[i] == Skipped(n.children[i]))
            && (forall i :: 0 <= i < stop ==> !Stops(n.kind, r.children[i]))
            && (stop < |n.children| ==> Stops(n.kind, r.children[stop]) && r.satisfied == DecidesAt(n.kind))
  {
    StopIsFirst(n.kind, n.children, answers);
  }

  /** Whatever throws, laziness never changes an admission and never hides a refusal. */
  lemma {:induction false} LazyAdmitsExactly(n: Indexed, answers: Answers)
    ensures Lazy(n, answers).satisfied == Yes <==> Collect(n, answers).satisfied == Yes
    ensures Collect(n, answers).satisfied == No ==> Lazy(n, answers).satisfied == No
  {
    if n.Fork? {
      forall i | 0 <= i < |n.children|
        ensures Lazy(n.children[i], answers).satisfied == Yes <==> Collect(n.children[i], answers).satisfied == Yes
        ensures Collect(n.children[i], answers).satisfied == No ==> Lazy(n.children[i], answers).satisfied == No
      {
        LazyAdmitsExactly(n.children[i], answers);
      }
      CollectedFork(n, answers);
      LazyFork(n, answers);
    }
  }

  /** No leaf of the tree throws. */
  ghost predicate AllRead(n: Indexed, answers: Answers) {
    match n
    case Leaf(leaf) => answers(leaf).Answered?
    case Fork(_, children) => forall i :: 0 <= i < |children| ==> AllRead(children[i], answers)
  }

  lemma {:induction false} ReadMeansKnown(n: Indexed, answers: Answers)
    requires AllRead(n, answers)
    ensures Collect(n, answers).satisfied != Unknown
  {
    if n.Fork? {
      forall i | 0 <= i < |n.children| ensures Collect(n.children[i], answers).satisfied != Unknown {
        ReadMeansKnown(n.children[i], answers);
      }
      CollectedFork(n, answers);
    }
  }

  /**
   When no leaf throws, the lazy tree gives the collected verdict, blames only leaves the collected
   tree blames, and never penalizes a sender the collected tree would not.
   */
  lemma {:induction false} LazyAgreesWithCollected(n: Indexed, answers: Answers)
    requires AllRead(n, answers)
    ensures Lazy(n, answers).satisfied == Collect(n, answers).satisfied
    ensures forall b :: b in GateBlame(Lazy(n, answers)) ==> b in GateBlame(Collect(n, answers))
    ensures GatePenalize(Lazy(n, answers)) ==> GatePenalize(Collect(n, answers))
  {
    LazyAdmitsExactly(n, answers);
    ReadMeansKnown(n, answers);
    if n.Fork? {
      forall i | 0 <= i < |n.children|
        ensures Lazy(n.children[i], answers).satisfied == Collect(n.children[i], answers).satisfied
        ensures forall b :: b in GateBlame(Lazy(n.children[i], answers)) ==> b in GateBlame(Collect(n.children[i], answers))
        ensures GatePenalize(Lazy(n.children[i], answers)) ==> GatePenalize(Collect(n.children[i], answers))
      {
        LazyAgreesWithCollected(n.children[i], answers);
      }
      LazyForkBlame(n, answers);
      LazyForkPenalty(n, answers);
    }
  }

  lemma LazyForkBlame(n: Indexed, answers: Answers)
    requires n.Fork? && Lazy(n, answers).satisfied == Collect(n, answers).satisfied
    requires forall i, b :: 0 <= i < |n.children| && b in GateBlame(Lazy(n.children[i], answers))
               ==> b in GateBlame(Collect(n.children[i], answers))
    ensures forall b :: b in GateBlame(Lazy(n, answers)) ==> b in GateBlame(Collect(n, answers))
  {
    var l, c := Lazy(n, answers), Collect(n, answers);
    CollectedFork(n, answers);
    LazyFork(n, answers);
    forall b | b in GateBlame(l) ensures b in GateBlame(c) {
      BlameOfMembers(l.children, b);
      BlameOfMembers(c.children, b);
      var i :| 0 <= i < |l.children| && b in GateBlame(l.children[i]);
      assert b in GateBlame(c.children[i]);
    }
  }

  lemma LazyForkPenalty(n: Indexed, answers: Answers)
    requires n.Fork? && Lazy(n, answers).satisfied == Collect(n, answers).satisfied
    requires forall i :: 0 <= i < |n.children| ==> Lazy(n.children[i], answers).satisfied == Collect(n.children[i], answers).satisfied
    requires forall i :: 0 <= i < |n.children| && GatePenalize(Lazy(n.children[i], answers))
               ==> GatePenalize(Collect(n.children[i], answers))
    ensures GatePenalize(Lazy(n, answers)) ==> GatePenalize(Collect(n, answers))
  {
    var l, c := Lazy(n, answers), Collect(n, answers);
    CollectedFork(n, answers);
    LazyFork(n, answers);
    if GatePenalize(l) {
      if n.kind == All {
        var j :| 0 <= j < |l.children| && l.children[j].satisfied == No && GatePenalize(l.children[j]);
        assert c.children[j].satisfied == No && GatePenalize(c.children[j]);
      } else {
        var i :| 0 <= i < |l.children| && l.children[i].satisfied == No;
        assert c.children[i].satisfied == No;
        assert forall j :: 0 <= j < |l.children| ==> l.children[j].satisfied == No;
        assert forall j :: 0 <= j < |c.children| ==> c.children[j] == Collect(n.children[j], answers);
      }
    }
  }

  // ---- lazy with tolerated errors ----

  /** The tree contains an `all`. */
  ghost predicate HasAll(n: Indexed) {
    n.Fork? && (n.kind == All || exists i :: 0 <= i < |n.children| && HasAll(n.children[i]))
  }

  ghost predicate Distinct(n: Indexed) {
    forall i, j :: 0 <= i < j < |Leaves(n)| ==> Leaves(n)[i] != Leaves(n)[j]
  }

  /**
   Lazy evaluation that tolerates unread leaves takes an unread child of an `all` for a failure, so
   it gives the collected verdict on every outcome exactly for gates without an `all`. (No caller
   combines the two modes.)
   */
  lemma LazyToleranceExactly(n: Indexed)
    requires WellFormed(n) && Distinct(n)
    ensures (forall answers: Answers :: Lazy(n, answers).satisfied == Collect(n, answers).satisfied) <==> !HasAll(n)
  {
    if HasAll(n) {
      var answers := AllBreaks(n);
      assert Lazy(n, answers).satisfied != Collect(n, answers).satisfied;
    } else {
      forall answers: Answers ensures Lazy(n, answers).satisfied == Collect(n, answers).satisfied {
        WithoutAllAgrees(n, answers);
      }
    }
  }

  lemma {:induction false} WithoutAllAgrees(n: Indexed, answers: Answers)
    requires !HasAll(n)
    ensures Lazy(n, answers).satisfied == Collect(n, answers).satisfied
  {
    if n.Fork? {
      forall i | 0 <= i < |n.children|
        ensures Lazy(n.children[i], answers).satisfied == Collect(n.children[i], answers).satisfied
      {
        WithoutAllAgrees(n.children[i], answers);
      }
      CollectedFork(n, answers);
      LazyFork(n, answers);
    }
  }

  lemma {:induction false} OnlyOwnLeavesMatter(n: Indexed, a: Answers, b: Answers)
    requires forall leaf :: leaf in Leaves(n) ==> a(leaf) == b(leaf)
    ensures Collect(n, a) == Collect(n, b) && Lazy(n, a) == Lazy(n, b)
  {
    match n
    case Leaf(leaf) => assert leaf in Leaves(n);
    case Fork(kind, children) =>
      forall i | 0 <= i < |children|
        ensures Collect(children[i], a) == Collect(children[i], b) && Lazy(children[i], a) == Lazy(children[i], b)
      {
        LeavesOfMembers(children, i);
        OnlyOwnLeavesMatter(children[i], a, b);
      }
      SameStop(kind, children, a, b);
      assert Collect(n, a).children == Collect(n, b).children;
      assert Lazy(n, a).children == Lazy(n, b).children;
  }

  lemma {:induction false} SameStop(kind: Kind, ns: seq<Indexed>, a: Answers, b: Answers)
    requires forall i :: 0 <= i < |ns| ==> Lazy(ns[i], a) == Lazy(ns[i], b)
    ensures StopAt(kind, ns, a) == StopAt(kind, ns, b)
  {
    if ns != [] {
      assert Lazy(ns[0], a) == Lazy(ns[0], b);
      assert forall i :: 0 <= i < |ns[1..]| ==> ns[1..][i] == ns[i + 1];
      SameStop(kind, ns[1..], a, b);
    }
  }

  lemma {:induction false} LeavesOfMembers(ns: seq<Indexed>, i: nat)
    requires i < |ns|
    ensures forall leaf :: leaf in Leaves(ns[i]) ==> leaf in LeavesOf(ns)
  {
    if i > 0 { LeavesOfMembers(ns[1..], i - 1); }
  }

  lemma HeadAndTailApart(head: seq<nat>, tail: seq<nat>)
    requires forall a, b :: 0 <= a < b < |head + tail| ==> (head + tail)[a] != (head + tail)[b]
    ensures forall a, b :: 0 <= a < b < |head| ==> head[a] != head[b]
    ensures forall a, b :: 0 <= a < b < |tail| ==> tail[a] != tail[b]
    ensures forall leaf :: leaf in head ==> leaf !in tail
  {
    var all := head + tail;
    assert forall a :: 0 <= a < |head| ==> all[a] == head[a];
    assert forall a :: 0 <= a < |tail| ==> all[|head| + a] == tail[a];
  }

  lemma {:induction false} DistinctChildren(ns: seq<Indexed>, i: nat, j: nat)
    requires i < |ns| && j < |ns| && i != j
    requires forall a, b :: 0 <= a < b < |LeavesOf(ns)| ==> LeavesOf(ns)[a] != LeavesOf(ns)[b]
    ensures Distinct(ns[i])
    ensures forall leaf :: leaf in Leaves(ns[i]) ==> leaf !in Leaves(ns[j])
  {
    assert LeavesOf(ns) == Leaves(ns[0]) + LeavesOf(ns[1..]);
    HeadAndTailApart(Leaves(ns[0]), LeavesOf(ns[1..]));
    var tail := LeavesOf(ns[1..]);
    if i > 0 && j > 0 {
      DistinctChildren(ns[1..], i - 1, j - 1);
    } else if i == 0 {
      LeavesOfMembers(ns[1..], j - 1);
    } else {
      LeavesOfMembers(ns[1..], i - 1);
      if |ns[1..]| > 1 {
        DistinctChildren(ns[1..], i - 1, if i == 1 then 1 else 0);
      } else {
        assert LeavesOf(ns[1..]) == Leaves(ns[1]) + LeavesOf(ns[1..][1..]);
        assert tail == Leaves(ns[1]);
      }
    }
  }

  lemma AllOfNothing(n: Indexed)
    requires WellFormed(n) && n.Fork? && n.kind == All
    ensures Lazy(n, Throws()).satisfied == No && Collect(n, Throws()).satisfied == Unknown
  {
    NothingRead(n);
    NothingRead(n.children[0]);
    LazyFork(n, Throws());
  }

  lemma AnyOfOneUnknown(n: Indexed, j: nat, answers: Answers)
    requires n.Fork? && n.kind == Any && j < |n.children|
    requires forall i :: 0 <= i < |n.children| ==> Lazy(n.children[i], answers).satisfied == No
    requires forall i :: 0 <= i < |n.children| ==> Collect(n.children[i], answers).satisfied == if i == j then Unknown else No
    ensures Lazy(n, answers).satisfied == No && Collect(n, answers).satisfied == Unknown
  {
    CollectedFork(n, answers);
    LazyFork(n, answers);
    assert Collect(n.children[j], answers).satisfied == Unknown;
  }

  lemma DistinctMember(ns: seq<Indexed>, j: nat)
    requires j < |ns|
    requires forall a, b :: 0 <= a < b < |LeavesOf(ns)| ==> LeavesOf(ns)[a] != LeavesOf(ns)[b]
    ensures Distinct(ns[j])
  {
    if |ns| > 1 {
      DistinctChildren(ns, j, if j == 0 then 1 else 0);
    } else {
      assert LeavesOf(ns) == Leaves(ns[0]) + LeavesOf(ns[1..]) == Leaves(ns[0]);
    }
  }

  function Throws(): Answers {
    (leaf: nat) => LeafThrew
  }

  function Refuses(): Answers {
    (leaf: nat) => Answered(Failure("", None))
  }

  lemma {:induction false} NothingRead(n: Indexed)
    requires WellFormed(n)
    ensures Collect(n, Throws()).satisfied == Unknown && Lazy(n, Throws()).satisfied != Yes
  {
    LazyAdmitsExactly(n, Throws());
    if n.Fork? {
      forall i | 0 <= i < |n.children| ensures Collect(n.children[i], Throws()).satisfied == Unknown {
        NothingRead(n.children[i]);
      }
      CollectedFork(n, Throws());
      assert Collect(n.children[0], Throws()).satisfied == Unknown;
    }
  }

  lemma {:induction false} EverythingRefused(n: Indexed)
    requires WellFormed(n)
    ensures Collect(n, Refuses()).satisfied == No && Lazy(n, Refuses()).satisfied == No
  {
    LazyAdmitsExactly(n, Refuses());
    if n.Fork? {
      forall i | 0 <= i < |n.children| ensures Collect(n.children[i], Refuses()).satisfied == No {
        EverythingRefused(n.children[i]);
      }
      CollectedFork(n, Refuses());
      assert Collect(n.children[0], Refuses()).satisfied == No;
    }
  }

  /** These answers for these leaves, and a refusal everywhere else. */
  function OnlyAmong(leaves: seq<nat>, inner: Answers): Answers {
    (leaf: nat) => if leaf in leaves then inner(leaf) else Refuses()(leaf)
  }

  lemma BrokenMember(children: seq<Indexed>, i: nat, j: nat, inner: Answers)
    requires i < |children| && j < |children| && WellFormed(children[i])
    requires forall a, b :: 0 <= a < b < |LeavesOf(children)| ==> LeavesOf(children)[a] != LeavesOf(children)[b]
    requires Lazy(children[j], inner).satisfied == No && Collect(children[j], inner).satisfied == Unknown
    ensures var answers := OnlyAmong(Leaves(children[j]), inner);
            && Lazy(children[i], answers).satisfied == No
            && Collect(children[i], answers).satisfied == if i == j then Unknown else No
  {
    var answers := OnlyAmong(Leaves(children[j]), inner);
    if i == j {
      OnlyOwnLeavesMatter(children[j], answers, inner);
    } else {
      DistinctChildren(children, i, j);
      OnlyOwnLeavesMatter(children[i], answers, Refuses());
      EverythingRefused(children[i]);
    }
  }

  /** A gate with an `all` somewhere is refused lazily on some outcome the collected fold leaves open. */
  lemma {:induction false} AllBreaks(n: Indexed) returns (answers: Answers)
    requires WellFormed(n) && Distinct(n) && HasAll(n)
    ensures Lazy(n, answers).satisfied == No && Collect(n, answers).satisfied == Unknown
  {
    var children := n.children;
    if n.kind == All {
      answers := Throws();
      AllOfNothing(n);
    } else {
      var j :| 0 <= j < |children| && HasAll(children[j]);
      assert Leaves(n) == LeavesOf(children);
      DistinctMember(children, j);
      var inner := AllBreaks(children[j]);
      answers := OnlyAmong(Leaves(children[j]), inner);
      forall i | 0 <= i < |children|
        ensures Lazy(children[i], answers).satisfied == No
        ensures Collect(children[i], answers).satisfied == if i == j then Unknown else No
      {
        BrokenMember(children, i, j, inner);
      }
      AnyOfOneUnknown(n, j, answers);
    }
  }
}
