/** The evaluator that walks a gate tree, and the sharing of leaves that ask one question. */
module GateEvaluator {
  import opened Wrappers
  import opened Gate
  import opened GateVerdicts
  import opened GateLazy

  /** The leaves lazy evaluation asks, in order. */
  function LazyAsked(n: Indexed, answers: Answers): seq<nat>
    decreases n
  {
    match n
    case Leaf(leaf) => [leaf]
    case Fork(kind, children) => LazyAskedOf(kind, children, answers)
  }

  function LazyAskedOf(kind: Kind, ns: seq<Indexed>, answers: Answers): seq<nat>
    decreases ns
  {
    if ns == [] then []
    else if Stops(kind, Lazy(ns[0], answers)) then LazyAsked(ns[0], answers)
    else LazyAsked(ns[0], answers) + LazyAskedOf(kind, ns[1..], answers)
  }

  /** Laziness asks each leaf at most once, in document order, and only leaves of the tree. */
  lemma {:induction false} LazyAsksAtMostOnce(n: Indexed, answers: Answers)
    ensures multiset(LazyAsked(n, answers)) <= multiset(Leaves(n))
    decreases n
  {
    if n.Fork? { LazyListAsksAtMostOnce(n.kind, n.children, answers); }
  }

  lemma {:induction false} LazyListAsksAtMostOnce(kind: Kind, ns: seq<Indexed>, answers: Answers)
    ensures multiset(LazyAskedOf(kind, ns, answers)) <= multiset(LeavesOf(ns))
    decreases ns
  {
    if ns != [] {
      LazyAsksAtMostOnce(ns[0], answers);
      LazyListAsksAtMostOnce(kind, ns[1..], answers);
    }
  }

  predicate SomeThrew(asked: seq<nat>, answers: Answers) {
    exists i :: 0 <= i < |asked| && answers(asked[i]).LeafThrew?
  }

  /**
   Score and fold. Without tolerance a thrown leaf rejects the whole evaluation; with it the leaf is
   folded as unknown. Collecting asks every leaf, even past a throw.
   */
  method EvaluateGate(n: Indexed, answers: Answers, collectAll: bool, tolerate: bool)
    returns (result: Option<Result>, asked: seq<nat>)
    ensures result.None? <==> !tolerate && SomeThrew(asked, answers)
    ensures result.Some? ==> result.value == if collectAll then Collect(n, answers) else Lazy(n, answers)
    ensures collectAll ==> asked == Leaves(n)
    ensures !collectAll && result.Some? ==> asked == LazyAsked(n, answers)
    decreases n
  {
    match n
    case Leaf(leaf) =>
      asked := [leaf];
      if answers(leaf).LeafThrew? && !tolerate {
        assert answers(asked[0]).LeafThrew?;
        return None, asked;
      }
      return Some(EvaluateLeaf(leaf, answers(leaf))), asked;
    case Fork(kind, children) =>
      asked := [];
      if collectAll {
        result, asked := CollectChildren(kind, children, answers, tolerate);
        return;
      }
      result, asked := LazyChildren(kind, children, answers, tolerate);
  }

  predicate AskedSoFar(children: seq<Indexed>, i: nat, asked: seq<nat>)
    requires i <= |children|
  {
    asked + LeavesOf(children[i..]) == LeavesOf(children)
  }

  lemma AsksNext(children: seq<Indexed>, i: nat, asked: seq<nat>)
    requires i < |children| && AskedSoFar(children, i, asked)
    ensures AskedSoFar(children, i + 1, asked + Leaves(children[i]))
  {
    assert children[i..][0] == children[i] && children[i..][1..] == children[i + 1..];
    assert asked + Leaves(children[i]) + LeavesOf(children[i + 1..]) == asked + LeavesOf(children[i..]);
  }

  method CollectChildren(kind: Kind, children: seq<Indexed>, answers: Answers, tolerate: bool)
    returns (result: Option<Result>, asked: seq<nat>)
    ensures result.None? <==> !tolerate && SomeThrew(asked, answers)
    ensures result.Some? ==> result.value == Collect(Fork(kind, children), answers)
    ensures asked == LeavesOf(children)
    decreases children
  {
    var results: seq<Result> := [];
    var threw := false;
    asked := [];
    var i := 0;
    assert children[0..] == children;
    while i < |children|
      invariant 0 <= i <= |children|
      invariant AskedSoFar(children, i, asked)
      invariant threw <==> !tolerate && SomeThrew(asked, answers)
      invariant !threw ==> |results| == i && forall k :: 0 <= k < i ==> results[k] == Collect(children[k], answers)
    {
      var child, more := EvaluateGate(children[i], answers, true, tolerate);
      AsksNext(children, i, asked);
      SomeThrewConcat(asked, more, answers);
      asked := asked + more;
      if child.None? {
        threw := true;
      } else if !threw {
        results := results + [child.value];
      }
      i := i + 1;
    }
    if threw {
      return None, asked;
    }
    assert results == Collect(Fork(kind, children), answers).children;
    return Some(ForkResult(kind, FoldSatisfied(kind, results), results)), asked;
  }

  method LazyChildren(kind: Kind, children: seq<Indexed>, answers: Answers, tolerate: bool)
    returns (result: Option<Result>, asked: seq<nat>)
    ensures result.None? <==> !tolerate && SomeThrew(asked, answers)
    ensures result.Some? ==> result.value == Lazy(Fork(kind, children), answers)
    ensures result.Some? ==> asked == LazyAskedOf(kind, children, answers)
    decreases children
  {
    var results: seq<Result> := [];
    asked := [];
    var i := 0;
    while i < |children|
      invariant 0 <= i <= |children|
      invariant tolerate || !SomeThrew(asked, answers)
      invariant LazyPrefix(kind, children, answers, i, results, asked)
    {
      var child, more := EvaluateGate(children[i], answers, false, tolerate);
      SomeThrewConcat(asked, more, answers);
      if child.None? {
        return None, asked + more;
      }
      if Stops(kind, child.value) {
        PrefixStops(kind, children, answers, i, results, asked);
        var rest := SkipRest(children, i + 1);
        assert results + [child.value] + rest == Lazy(Fork(kind, children), answers).children;
        return Some(ForkResult(kind, DecidesAt(kind), results + [child.value] + rest)), asked + more;
      }
      PrefixGrows(kind, children, answers, i, results, asked);
      results := results + [child.value];
      asked := asked + more;
      i := i + 1;
    }
    StopIsFirst(kind, children, answers);
    assert results == Lazy(Fork(kind, children), answers).children;
    return Some(ForkResult(kind, FoldSatisfied(kind, results), results)), asked;
  }

  /** The lazy loop has passed the first `i` children without a decision. */
  ghost predicate LazyPrefix(kind: Kind, children: seq<Indexed>, answers: Answers, i: nat, results: seq<Result>, asked: seq<nat>)
    requires i <= |children|
  {
    && i <= StopAt(kind, children, answers)
    && asked + LazyAskedOf(kind, children[i..], answers) == LazyAskedOf(kind, children, answers)
    && |results| == i && forall k :: 0 <= k < i ==> results[k] == Lazy(children[k], answers)
  }

  lemma PrefixGrows(kind: Kind, children: seq<Indexed>, answers: Answers, i: nat, results: seq<Result>, asked: seq<nat>)
    requires i < |children| && LazyPrefix(kind, children, answers, i, results, asked)
    requires !Stops(kind, Lazy(children[i], answers))
    ensures LazyPrefix(kind, children, answers, i + 1, results + [Lazy(children[i], answers)],
                       asked + LazyAsked(children[i], answers))
  {
    StopIsFirst(kind, children, answers);
    assert children[i..][0] == children[i] && children[i..][1..] == children[i + 1..];
    var more := LazyAsked(children[i], answers);
    assert (asked + more) + LazyAskedOf(kind, children[i + 1..], answers)
        == asked + (more + LazyAskedOf(kind, children[i + 1..], answers));
  }

  lemma PrefixStops(kind: Kind, children: seq<Indexed>, answers: Answers, i: nat, results: seq<Result>, asked: seq<nat>)
    requires i < |children| && LazyPrefix(kind, children, answers, i, results, asked)
    requires Stops(kind, Lazy(children[i], answers))
    ensures StopAt(kind, children, answers) == i
    ensures asked + LazyAsked(children[i], answers) == LazyAskedOf(kind, children, answers)
  {
    StopIsFirst(kind, children, answers);
    assert children[i..][0] == children[i];
  }

  /** The children after the deciding one, recorded as unevaluated. */
  method SkipRest(children: seq<Indexed>, from: nat) returns (rest: seq<Result>)
    requires from <= |children|
    ensures |rest| == |children| - from
    ensures forall k :: 0 <= k < |rest| ==> rest[k] == Skipped(children[from + k])
  {
    rest := [];
    var position := from;
    while position < |children|
      invariant from <= position <= |children| && |rest| == position - from
      invariant forall k :: 0 <= k < |rest| ==> rest[k] == Skipped(children[from + k])
    {
      rest := rest + [Skipped(children[position])];
      position := position + 1;
    }
  }

  lemma SomeThrewConcat(a: seq<nat>, b: seq<nat>, answers: Answers)
    ensures SomeThrew(a + b, answers) <==> SomeThrew(a, answers) || SomeThrew(b, answers)
  {
    var c := a + b;
    assert forall i :: 0 <= i < |a| ==> c[i] == a[i];
    assert forall i :: 0 <= i < |b| ==> c[|a| + i] == b[i];
  }

  /** One representative leaf per question, the first to ask it, and each leaf's question. */
  method DedupeLeaves<Question(==)>(keys: seq<Question>) returns (representatives: seq<nat>, ofLeaf: seq<nat>)
    ensures |ofLeaf| == |keys|
    ensures forall i :: 0 <= i < |keys| ==>
              ofLeaf[i] < |representatives| && representatives[ofLeaf[i]] <= i && keys[representatives[ofLeaf[i]]] == keys[i]
    ensures forall i, j :: 0 <= i < |keys| && 0 <= j < |keys| ==> (ofLeaf[i] == ofLeaf[j] <==> keys[i] == keys[j])
    ensures forall p :: 0 <= p < |representatives| ==> representatives[p] < |keys| && ofLeaf[representatives[p]] == p
  {
    var at: map<Question, nat> := map[];
    representatives, ofLeaf := [], [];
    var i := 0;
    while i < |keys|
      invariant 0 <= i <= |keys| && |ofLeaf| == i
      invariant forall k :: k in at ==> at[k] < |representatives| && representatives[at[k]] < i && keys[representatives[at[k]]] == k
      invariant forall k :: 0 <= k < i ==> keys[k] in at && ofLeaf[k] == at[keys[k]]
      invariant forall p :: 0 <= p < |representatives| ==> representatives[p] < i && ofLeaf[representatives[p]] == p
      invariant forall k :: 0 <= k < i ==> representatives[ofLeaf[k]] <= k
    {
      var key := keys[i];
      if key in at {
        ofLeaf := ofLeaf + [at[key]];
      } else {
        at := at[key := |representatives|];
        representatives := representatives + [i];
        ofLeaf := ofLeaf + [|representatives| - 1];
      }
      i := i + 1;
    }
  }

  // ---- the two verifiers ----

  datatype Disposition = Admit | RejectSender | IgnoreBundle

  /** What a verifier concludes from an evaluated gate. */
  function DispositionOf(r: Result): Disposition {
    if r.satisfied == Yes then Admit else if GatePenalize(r) then RejectSender else IgnoreBundle
  }

  /**
   The inline forward gate and the batched background verifier cannot disagree on admission when
   both read every leaf alike, and whoever the forward gate penalizes the background one does too.
   */
  lemma ForwardGateIsNeverHarsher(n: Indexed, answers: Answers)
    requires AllRead(n, answers)
    ensures DispositionOf(Lazy(n, answers)) == Admit <==> DispositionOf(Collect(n, answers)) == Admit
    ensures DispositionOf(Lazy(n, answers)) == RejectSender ==> DispositionOf(Collect(n, answers)) == RejectSender
  {
    LazyAgreesWithCollected(n, answers);
  }

  /** A forward gate that stops early may ignore a sender the background verifier rejects. */
  lemma ForwardGateMayBeGentler()
    ensures exists n: Indexed, answers: Answers ::
              AllRead(n, answers) && DispositionOf(Lazy(n, answers)) == IgnoreBundle
              && DispositionOf(Collect(n, answers)) == RejectSender
  {
    var n := Fork(All, [Leaf(0), Leaf(1)]);
    var answers: Answers := (leaf: nat) => Answered(Failure("", if leaf == 0 then Some(false) else None));
    assert Lazy(Leaf(0), answers) == LeafResult(0, No, 0, "", false);
    assert StopAt(All, n.children, answers) == 0;
    var l, c := Lazy(n, answers), Collect(n, answers);
    assert l.children == [Lazy(Leaf(0), answers), Skipped(Leaf(1))];
    assert c.children[1] == LeafResult(1, No, 0, "", true);
    CollectedFork(n, answers);
    assert GatePenalize(c.children[1]);
    assert AllRead(n, answers);
  }
}
