/**
 The gate tree: how one wallet's per-rule answers fold into one admission decision, collected in
 full or lazily, and what the fold's verdict, blame, penalty and score mean.
 */
module Gate {
  import opened Wrappers

  datatype Kind = All | Any

  /** The document's tree over rule references. */
  datatype Node = Rule(ref: string) | Branch(kind: Kind, nodes: seq<Node>)

  /** The same tree with its leaves numbered. */
  datatype Indexed = Leaf(leaf: nat) | Fork(kind: Kind, children: seq<Indexed>)

  datatype RuleResult = Success(score: int) | Failure(error: string, penalize: Option<bool>)

  /** One leaf's evaluation: an answer, or a read that threw. */
  datatype Answer = Answered(result: RuleResult) | LeafThrew

  type Answers = nat -> Answer

  /** `Unknown` marks a node that was skipped or could not be read. */
  datatype Tri = No | Yes | Unknown

  datatype Result =
    | LeafResult(leaf: nat, satisfied: Tri, score: int, error: string, penalize: bool)
    | ForkResult(kind: Kind, satisfied: Tri, children: seq<Result>)

  // ---- numbering the leaves ----

  /** Leaf references in depth-first order. */
  function GateLeaves(node: Node): seq<string> {
    match node
    case Rule(ref) => [ref]
    case Branch(_, nodes) => GateLeavesOf(nodes)
  }

  function GateLeavesOf(nodes: seq<Node>): seq<string> {
    if nodes == [] then [] else GateLeaves(nodes[0]) + GateLeavesOf(nodes[1..])
  }

  /** The indexed tree, and the counter after its last leaf. */
  function IndexGate(node: Node, next: nat): (Indexed, nat) {
    match node
    case Rule(_) => (Leaf(next), next + 1)
    case Branch(kind, nodes) =>
      var (children, after) := IndexGates(nodes, next);
      (Fork(kind, children), after)
  }

  function IndexGates(nodes: seq<Node>, next: nat): (seq<Indexed>, nat) {
    if nodes == [] then ([], next)
    else
      var (first, middle) := IndexGate(nodes[0], next);
      var (rest, after) := IndexGates(nodes[1..], middle);
      ([first] + rest, after)
  }

  function Leaves(n: Indexed): seq<nat> {
    match n
    case Leaf(leaf) => [leaf]
    case Fork(_, children) => LeavesOf(children)
  }

  function LeavesOf(ns: seq<Indexed>): seq<nat> {
    if ns == [] then [] else Leaves(ns[0]) + LeavesOf(ns[1..])
  }

  function Range(from: nat, to: nat): seq<nat>
    requires from <= to
  {
    seq(to - from, i requires 0 <= i => from + i)
  }

  /** The document an indexed tree stands for, when leaf `i` is `refs[i - base]`. */
  function Document(n: Indexed, refs: seq<string>, base: nat): Node {
    match n
    case Leaf(leaf) => Rule(if base <= leaf < base + |refs| then refs[leaf - base] else "")
    case Fork(kind, children) =>
      Branch(kind, seq(|children|, i requires 0 <= i < |children| => Document(children[i], refs, base)))
  }

  /** Leaves are numbered consecutively in document order, and numbering loses nothing. */
  lemma {:induction false} NumberingIsFaithful(node: Node, next: nat, refs: seq<string>, base: nat)
    requires base <= next && next - base + |GateLeaves(node)| <= |refs|
    requires refs[next - base..next - base + |GateLeaves(node)|] == GateLeaves(node)
    ensures var (n, after) := IndexGate(node, next);
            && after == next + |GateLeaves(node)|
            && Leaves(n) == Range(next, after)
            && Document(n, refs, base) == node
  {
    match node
    case Rule(ref) =>
      assert refs[next - base..next - base + 1][0] == refs[next - base];
    case Branch(_, nodes) => NumberingListIsFaithful(nodes, next, refs, base);
  }

  lemma SliceSplits(refs: seq<string>, from: nat, first: seq<string>, rest: seq<string>)
    requires from + |first| + |rest| <= |refs| && refs[from..from + |first| + |rest|] == first + rest
    ensures refs[from..from + |first|] == first
    ensures refs[from + |first|..from + |first| + |rest|] == rest
  {
    var slice := refs[from..from + |first| + |rest|];
    assert slice[..|first|] == refs[from..from + |first|];
    assert slice[|first|..] == refs[from + |first|..from + |first| + |rest|];
  }

  lemma {:induction false} NumberingListIsFaithful(nodes: seq<Node>, next: nat, refs: seq<string>, base: nat)
    requires base <= next && next - base + |GateLeavesOf(nodes)| <= |refs|
    requires refs[next - base..next - base + |GateLeavesOf(nodes)|] == GateLeavesOf(nodes)
    ensures var (ns, after) := IndexGates(nodes, next);
            && after == next + |GateLeavesOf(nodes)|
            && LeavesOf(ns) == Range(next, after)
            && |ns| == |nodes|
            && forall i :: 0 <= i < |ns| ==> Document(ns[i], refs, base) == nodes[i]
  {
    if nodes != [] {
      var k := |GateLeaves(nodes[0])|;
      SliceSplits(refs, next - base, GateLeaves(nodes[0]), GateLeavesOf(nodes[1..]));
      NumberingIsFaithful(nodes[0], next, refs, base);
      NumberingListIsFaithful(nodes[1..], next + k, refs, base);
    }
  }

  // ---- the fold ----

  function GateFailure(r: RuleResult): Option<(string, bool)> {
    match r
    case Failure(error, penalize) => Some((error, penalize != Some(false)))
    case Success(score) =>
      if score <= 0 then Some(("the contest's rule reported success without a score", true)) else None
  }

  /**
   What one leaf's answer comes to: a success with a positive score passes with it; a success without one fails,
   attributably; a failure fails, attributably unless the rule says not to penalise; a read that threw is unknown.
   */
  lemma LeafMeans(leaf: nat, answer: Answer)
    ensures var r := EvaluateLeaf(leaf, answer);
            && (answer.LeafThrew? ==> r.satisfied == Unknown)
            && (answer.Answered? && answer.result.Success? && answer.result.score > 0 ==>
                  r.satisfied == Yes && r.score == answer.result.score && Passes(answer))
            && (answer.Answered? && answer.result.Success? && answer.result.score <= 0 ==>
                  r.satisfied == No && r.score == 0 && r.penalize && !Passes(answer) && Attributable(answer))
            && (answer.Answered? && answer.result.Failure? ==>
                  r.satisfied == No && r.score == 0 && r.error == answer.result.error && !Passes(answer)
                  && (r.penalize <==> answer.result.penalize != Some(false)) && (Attributable(answer) <==> answer.result.penalize != Some(false)))
            && (answer.LeafThrew? ==> !Passes(answer) && !Attributable(answer))
  {
  }

  function ScoreOrZero(r: RuleResult): int {
    if r.Success? && r.score > 0 then r.score else 0
  }

  function Unevaluated(leaf: nat): Result {
    LeafResult(leaf, Unknown, 0, "", false)
  }

  function EvaluateLeaf(leaf: nat, answer: Answer): Result {
    match answer
    case LeafThrew => Unevaluated(leaf)
    case Answered(r) =>
      var failed := GateFailure(r);
      if failed.Some? then LeafResult(leaf, No, 0, failed.value.0, failed.value.1)
      else LeafResult(leaf, Yes, ScoreOrZero(r), "", false)
  }

  function DecidesAt(kind: Kind): Tri {
    if kind == All then No else Yes
  }

  function Opposite(kind: Kind): Tri {
    if kind == All then Yes else No
  }

  function FoldSatisfied(kind: Kind, children: seq<Result>): Tri {
    if exists i :: 0 <= i < |children| && children[i].satisfied == DecidesAt(kind) then DecidesAt(kind)
    else if forall i :: 0 <= i < |children| ==> children[i].satisfied == Opposite(kind) then Opposite(kind)
    else Unknown
  }

  /** Every leaf evaluated. */
  function Collect(n: Indexed, answers: Answers): Result {
    match n
    case Leaf(leaf) => EvaluateLeaf(leaf, answers(leaf))
    case Fork(kind, children) =>
      var results := seq(|children|, i requires 0 <= i < |children| => Collect(children[i], answers));
      ForkResult(kind, FoldSatisfied(kind, results), results)
  }

  /** A node the evaluation never reached. */
  function Skipped(n: Indexed): Result {
    match n
    case Leaf(leaf) => Unevaluated(leaf)
    case Fork(kind, children) =>
      ForkResult(kind, Unknown, seq(|children|, i requires 0 <= i < |children| => Skipped(children[i])))
  }

  /** The lazy loop's test: a child that is not satisfied ends an `all`, a satisfied one an `any`. */
  predicate Stops(kind: Kind, r: Result) {
    if kind == All then r.satisfied != Yes else r.satisfied == Yes
  }

  /** The position of the first child the lazy loop stops at, or the number of children. */
  function StopAt(kind: Kind, ns: seq<Indexed>, answers: Answers): nat
    decreases ns
  {
    if ns == [] then 0
    else if Stops(kind, Lazy(ns[0], answers)) then 0
    else 1 + StopAt(kind, ns[1..], answers)
  }

  function Lazy(n: Indexed, answers: Answers): Result
    decreases n
  {
    match n
    case Leaf(leaf) => EvaluateLeaf(leaf, answers(leaf))
    case Fork(kind, children) =>
      var stop := StopAt(kind, children, answers);
      var results := seq(|children|, i requires 0 <= i < |children| =>
        if i <= stop then Lazy(children[i], answers) else Skipped(children[i]));
      ForkResult(kind, if stop < |children| then DecidesAt(kind) else FoldSatisfied(kind, results), results)
  }

  lemma {:induction false} StopIsFirst(kind: Kind, ns: seq<Indexed>, answers: Answers)
    ensures var stop := StopAt(kind, ns, answers);
            && stop <= |ns|
            && (forall i :: 0 <= i < stop ==> !Stops(kind, Lazy(ns[i], answers)))
            && (stop < |ns| ==> Stops(kind, Lazy(ns[stop], answers)))
  {
    if ns != [] && !Stops(kind, Lazy(ns[0], answers)) {
      StopIsFirst(kind, ns[1..], answers);
      forall i | 0 <= i < StopAt(kind, ns, answers) ensures !Stops(kind, Lazy(ns[i], answers)) {
        if i > 0 { assert ns[i] == ns[1..][i - 1]; }
      }
    }
  }

  // ---- what a tree means ----

  type Valuation = nat -> bool

  /** The gate read as a boolean formula over "this leaf passes". */
  ghost predicate Holds(n: Indexed, v: Valuation) {
    match n
    case Leaf(leaf) => v(leaf)
    case Fork(All, children) => forall i :: 0 <= i < |children| ==> Holds(children[i], v)
    case Fork(Any, children) => exists i :: 0 <= i < |children| && Holds(children[i], v)
  }

  /** Every branch has a child, as the criteria schema demands. */
  ghost predicate WellFormed(n: Indexed) {
    n.Fork? ==> n.children != [] && forall i :: 0 <= i < |n.children| ==> WellFormed(n.children[i])
  }

  predicate Passes(a: Answer) {
    a.Answered? && GateFailure(a.result).None?
  }

  predicate Attributable(a: Answer) {
    a.Answered? && GateFailure(a.result).Some? && GateFailure(a.result).value.1
  }

  /** `v` fills in the unread leaves and keeps every answer that was read. */
  ghost predicate Fills(answers: Answers, v: Valuation) {
    forall leaf :: answers(leaf).Answered? ==> v(leaf) == Passes(answers(leaf))
  }

  /** Every unread leaf passes. */
  function Optimist(answers: Answers): Valuation {
    (leaf: nat) => answers(leaf).LeafThrew? || Passes(answers(leaf))
  }

  /** No unread leaf passes. */
  function Pessimist(answers: Answers): Valuation {
    (leaf: nat) => Passes(answers(leaf))
  }

  /** A fork's verdict is the fold of its children's. */
  lemma CollectedFork(n: Indexed, answers: Answers)
    requires n.Fork?
    ensures var r := Collect(n, answers);
            && |r.children| == |n.children|
            && (forall i :: 0 <= i < |n.children| ==> r.children[i] == Collect(n.children[i], answers))
            && (r.satisfied == DecidesAt(n.kind)
                <==> exists i :: 0 <= i < |n.children| && Collect(n.children[i], answers).satisfied == DecidesAt(n.kind))
            && (r.satisfied == Opposite(n.kind)
                <==> forall i :: 0 <= i < |n.children| ==> Collect(n.children[i], answers).satisfied == Opposite(n.kind))
  {
    var r := Collect(n, answers);
    assert forall i :: 0 <= i < |n.children| ==> r.children[i] == Collect(n.children[i], answers);
  }

  lemma {:induction false} KnownMeansCertain(n: Indexed, answers: Answers, v: Valuation)
    requires Fills(answers, v)
    ensures Collect(n, answers).satisfied == Yes ==> Holds(n, v)
    ensures Collect(n, answers).satisfied == No ==> !Holds(n, v)
  {
    if n.Fork? {
      forall i | 0 <= i < |n.children|
        ensures Collect(n.children[i], answers).satisfied == Yes ==> Holds(n.children[i], v)
        ensures Collect(n.children[i], answers).satisfied == No ==> !Holds(n.children[i], v)
      {
        KnownMeansCertain(n.children[i], answers, v);
      }
      CollectedFork(n, answers);
    }
  }

  /** An unknown node goes either way: up if every unread leaf passes, down if none does. */
  lemma {:induction false} UnknownMeansOpen(n: Indexed, answers: Answers)
    ensures Collect(n, answers).satisfied != No ==> Holds(n, Optimist(answers))
    ensures Collect(n, answers).satisfied != Yes ==> !Holds(n, Pessimist(answers))
  {
    if n.Fork? {
      forall i | 0 <= i < |n.children|
        ensures Collect(n.children[i], answers).satisfied != No
                ==> Holds(n.children[i], Optimist(answers))
        ensures Collect(n.children[i], answers).satisfied != Yes
                ==> !Holds(n.children[i], Pessimist(answers))
      {
        UnknownMeansOpen(n.children[i], answers);
      }
      CollectedFork(n, answers);
    }
  }

  /** Collected evaluation is exact in three values. */
  lemma CollectedIsExact(n: Indexed, answers: Answers)
    ensures Collect(n, answers).satisfied == Yes <==> forall v: Valuation :: Fills(answers, v) ==> Holds(n, v)
    ensures Collect(n, answers).satisfied == No <==> forall v: Valuation :: Fills(answers, v) ==> !Holds(n, v)
    ensures Collect(n, answers).satisfied == Unknown
            <==> exists v: Valuation, w: Valuation :: Fills(answers, v) && Fills(answers, w) && Holds(n, v) && !Holds(n, w)
  {
    assert Fills(answers, Optimist(answers)) && Fills(answers, Pessimist(answers));
    UnknownMeansOpen(n, answers);
    forall v: Valuation | Fills(answers, v)
      ensures Collect(n, answers).satisfied == Yes ==> Holds(n, v)
      ensures Collect(n, answers).satisfied == No ==> !Holds(n, v)
    {
      KnownMeansCertain(n, answers, v);
    }
  }
}
