/** What blame, penalty, score and laziness mean for the gate's boolean formula. */
module GateVerdicts {
  import opened Wrappers
  import opened Gate

  // ---- blame ----

  /** The failing leaves that explain a refusal. */
  function GateBlame(r: Result): seq<Result> {
    if r.satisfied != No then []
    else match r
      case LeafResult(_, _, _, _, _) => [r]
      case ForkResult(_, _, children) => GateBlameOf(children)
  }

  function GateBlameOf(rs: seq<Result>): seq<Result> {
    if rs == [] then [] else GateBlame(rs[0]) + GateBlameOf(rs[1..])
  }

  lemma {:induction false} BlameOfMembers(rs: seq<Result>, b: Result)
    ensures b in GateBlameOf(rs) <==> exists i :: 0 <= i < |rs| && b in GateBlame(rs[i])
  {
    if rs != [] {
      BlameOfMembers(rs[1..], b);
      if i :| 0 <= i < |rs| && b in GateBlame(rs[i]) {
        if i > 0 { assert rs[1..][i - 1] == rs[i]; }
      }
      if j :| 0 <= j < |rs[1..]| && b in GateBlame(rs[1..][j]) {
        assert rs[j + 1] == rs[1..][j];
      }
    }
  }

  predicate Blamed(r: Result, leaf: nat) {
    exists b :: b in GateBlame(r) && b.LeafResult? && b.leaf == leaf
  }

  lemma ChildBlameIsBlame(r: Result, i: nat, leaf: nat)
    requires r.ForkResult? && r.satisfied == No && i < |r.children|
    requires Blamed(r.children[i], leaf)
    ensures Blamed(r, leaf)
  {
    var b :| b in GateBlame(r.children[i]) && b.LeafResult? && b.leaf == leaf;
    BlameOfMembers(r.children, b);
  }

  /** The leaf was refused, and so was every fork on the way to it. */
  ghost predicate RefusedOnTheWay(n: Indexed, answers: Answers, leaf: nat) {
    && Collect(n, answers).satisfied == No
    && match n
       case Leaf(own) => own == leaf
       case Fork(_, children) => exists i :: 0 <= i < |children| && RefusedOnTheWay(children[i], answers, leaf)
  }

  /** Blamed are exactly the refused leaves that no satisfied or open fork stands over. */
  lemma {:induction false} BlamedExactly(n: Indexed, answers: Answers, leaf: nat)
    ensures Blamed(Collect(n, answers), leaf) <==> RefusedOnTheWay(n, answers, leaf)
  {
    var r := Collect(n, answers);
    if n.Fork? && r.satisfied == No {
      CollectedFork(n, answers);
      forall i | 0 <= i < |n.children| ensures Blamed(r.children[i], leaf) <==> RefusedOnTheWay(n.children[i], answers, leaf) {
        BlamedExactly(n.children[i], answers, leaf);
      }
      if Blamed(r, leaf) {
        var b :| b in GateBlame(r) && b.LeafResult? && b.leaf == leaf;
        BlameOfMembers(r.children, b);
        var i :| 0 <= i < |r.children| && b in GateBlame(r.children[i]);
        assert Blamed(r.children[i], leaf);
      }
      if i :| 0 <= i < |n.children| && RefusedOnTheWay(n.children[i], answers, leaf) {
        ChildBlameIsBlame(r, i, leaf);
      }
    } else if n.Leaf? && r.satisfied == No {
      assert GateBlame(r) == [r];
      assert r in GateBlame(r) && r.LeafResult? && r.leaf == n.leaf;
    }
  }

  /** Everything but a refusal needs no blame to hold once the unread leaves pass. */
  lemma {:induction false} PassingTheBlamed(n: Indexed, answers: Answers, v: Valuation)
    requires WellFormed(n)
    requires forall leaf: nat :: Passes(answers(leaf)) || answers(leaf).LeafThrew? || Blamed(Collect(n, answers), leaf) ==> v(leaf)
    ensures Holds(n, v)
  {
    var r := Collect(n, answers);
    match n
    case Leaf(leaf) =>
      if r.satisfied == No { assert GateBlame(r) == [r]; assert Blamed(r, leaf); }
    case Fork(kind, children) =>
      CollectedFork(n, answers);
      var i := if r.satisfied == No && kind == Any then 0
               else if kind == Any then GoodChild(n, answers)
               else 0;
      if kind == Any {
        if r.satisfied == No {
          forall leaf | Blamed(r.children[i], leaf) ensures Blamed(r, leaf) { ChildBlameIsBlame(r, i, leaf); }
        }
        PassingTheBlamed(children[i], answers, v);
      } else {
        forall j | 0 <= j < |children| ensures Holds(children[j], v) {
          if r.satisfied == No {
            forall leaf | Blamed(r.children[j], leaf) ensures Blamed(r, leaf) { ChildBlameIsBlame(r, j, leaf); }
          }
          PassingTheBlamed(children[j], answers, v);
        }
      }
  }

  /** A fork over `any` that is not refused has a child that is not refused. */
  ghost function GoodChild(n: Indexed, answers: Answers): (i: nat)
    requires n.Fork? && n.kind == Any && Collect(n, answers).satisfied != No
    ensures i < |n.children| && Collect(n.children[i], answers).satisfied != No
  {
    CollectedFork(n, answers);
    var i: nat :| i < |n.children| && Collect(n.children[i], answers).satisfied != No;
    i
  }

  lemma {:induction false} PassingOnlyTheUnblamed(n: Indexed, answers: Answers, v: Valuation)
    requires Collect(n, answers).satisfied == No
    requires forall leaf: nat :: Blamed(Collect(n, answers), leaf) ==> !v(leaf)
    ensures !Holds(n, v)
  {
    var r := Collect(n, answers);
    match n
    case Leaf(leaf) =>
      assert GateBlame(r) == [r];
      assert Blamed(r, leaf);
    case Fork(kind, children) =>
      CollectedFork(n, answers);
      forall i | 0 <= i < |children| && r.children[i].satisfied == No ensures !Holds(children[i], v) {
        forall leaf | Blamed(r.children[i], leaf) ensures Blamed(r, leaf) { ChildBlameIsBlame(r, i, leaf); }
        PassingOnlyTheUnblamed(children[i], answers, v);
      }
  }

  /**
   The blame explains the refusal: it is not empty; a wallet that passes every blamed leaf, and
   every leaf nobody could read, is admitted; one that passes none of the blamed leaves is not.
   */
  lemma BlameExplainsTheRefusal(n: Indexed, answers: Answers)
    requires WellFormed(n) && Collect(n, answers).satisfied == No
    ensures GateBlame(Collect(n, answers)) != []
    ensures forall v: Valuation ::
              (forall leaf: nat :: Passes(answers(leaf)) || answers(leaf).LeafThrew? || Blamed(Collect(n, answers), leaf) ==> v(leaf))
              ==> Holds(n, v)
    ensures forall v: Valuation ::
              (forall leaf: nat :: Blamed(Collect(n, answers), leaf) ==> !v(leaf)) ==> !Holds(n, v)
  {
    var r := Collect(n, answers);
    forall v: Valuation | forall leaf: nat :: Passes(answers(leaf)) || answers(leaf).LeafThrew? || Blamed(r, leaf) ==> v(leaf)
      ensures Holds(n, v)
    {
      PassingTheBlamed(n, answers, v);
    }
    forall v: Valuation | forall leaf: nat :: Blamed(r, leaf) ==> !v(leaf)
      ensures !Holds(n, v)
    {
      PassingOnlyTheUnblamed(n, answers, v);
    }
    var everything: Valuation := (leaf: nat) => true;
    assert Holds(n, everything) by { PassingTheBlamed(n, answers, everything); }
    if GateBlame(r) == [] {
      PassingOnlyTheUnblamed(n, answers, everything);
      assert false;
    }
  }

  // ---- penalty ----

  predicate GatePenalize(r: Result) {
    r.satisfied == No &&
    match r
    case LeafResult(_, _, _, _, penalize) => penalize
    case ForkResult(kind, _, children) =>
      && (exists i :: 0 <= i < |children| && children[i].satisfied == No)
      && if kind == All
         then exists i :: 0 <= i < |children| && children[i].satisfied == No && GatePenalize(children[i])
         else forall i :: 0 <= i < |children| && children[i].satisfied == No ==> GatePenalize(children[i])
  }

  /** Only attributable failures stay failures. */
  function ForgiveTheRest(answers: Answers): Valuation {
    (leaf: nat) => !Attributable(answers(leaf))
  }

  /** On a collected tree, a refusal is blamed on the sender exactly when attributable failures alone refuse. */
  lemma {:induction false} PenaltyIsAttributable(n: Indexed, answers: Answers)
    requires WellFormed(n)
    ensures GatePenalize(Collect(n, answers)) <==> !Holds(n, ForgiveTheRest(answers))
  {
    if n.Fork? {
      CollectedFork(n, answers);
      var r := Collect(n, answers);
      forall i | 0 <= i < |n.children|
        ensures GatePenalize(r.children[i]) <==> !Holds(n.children[i], ForgiveTheRest(answers))
      {
        PenaltyIsAttributable(n.children[i], answers);
      }
      var forgiven := ForgiveTheRest(answers);
      if n.kind == All {
        assert GatePenalize(r) <==> exists i :: 0 <= i < |n.children| && GatePenalize(r.children[i]);
        assert !Holds(n, forgiven) <==> exists i :: 0 <= i < |n.children| && !Holds(n.children[i], forgiven);
      } else {
        assert GatePenalize(r.children[0]) ==> r.children[0].satisfied == No;
        if forall i :: 0 <= i < |n.children| ==> GatePenalize(r.children[i]) {
          assert forall i :: 0 <= i < |n.children| ==> r.children[i].satisfied == No;
        }
        assert GatePenalize(r) <==> forall i :: 0 <= i < |n.children| ==> GatePenalize(r.children[i]);
      }
    }
  }

  // ---- score ----

  /** The minimum over an `all`'s satisfied children, the maximum over an `any`'s; none is zero. */
  function GateScore(r: Result): int
    decreases r
  {
    match r
    case LeafResult(_, _, score, _, _) => score
    case ForkResult(kind, _, children) =>
      var best := BestScore(kind, children);
      if best.Some? then best.value else 0
  }

  function BestScore(kind: Kind, rs: seq<Result>): Option<int>
    decreases rs
  {
    if rs == [] then None
    else
      var rest := BestScore(kind, rs[1..]);
      if rs[0].satisfied != Yes then rest
      else
        var score := GateScore(rs[0]);
        if rest.None? then Some(score)
        else if kind == All then Some(if rest.value < score then rest.value else score)
        else Some(if rest.value > score then rest.value else score)
  }

  lemma {:induction false} BestScoreAtLeast(kind: Kind, rs: seq<Result>, t: int)
    ensures BestScore(kind, rs).None? <==> forall i :: 0 <= i < |rs| ==> rs[i].satisfied != Yes
    ensures BestScore(kind, rs).Some? ==>
              (BestScore(kind, rs).value >= t
               <==> if kind == All
                    then forall i :: 0 <= i < |rs| && rs[i].satisfied == Yes ==> GateScore(rs[i]) >= t
                    else exists i :: 0 <= i < |rs| && rs[i].satisfied == Yes && GateScore(rs[i]) >= t)
  {
    if rs != [] {
      BestScoreAtLeast(kind, rs[1..], t);
      assert forall i :: 0 < i < |rs| ==> rs[i] == rs[1..][i - 1];
      assert forall i :: 0 <= i < |rs[1..]| ==> rs[1..][i] == rs[i + 1];
    }
  }

  function LeafScore(a: Answer): int {
    if a.Answered? then ScoreOrZero(a.result) else 0
  }

  function AtLeast(answers: Answers, t: int): Valuation {
    (leaf: nat) => LeafScore(answers(leaf)) >= t
  }

  lemma {:induction false} ScoredMeansSatisfied(n: Indexed, answers: Answers, t: int)
    requires t >= 1 && Holds(n, AtLeast(answers, t))
    ensures Collect(n, answers).satisfied == Yes
  {
    if n.Fork? {
      CollectedFork(n, answers);
      forall i | 0 <= i < |n.children| && Holds(n.children[i], AtLeast(answers, t))
        ensures Collect(n.children[i], answers).satisfied == Yes
      {
        ScoredMeansSatisfied(n.children[i], answers, t);
      }
    }
  }

  /** An admitted wallet scores at least `t` exactly when the gate holds with each leaf read as "scored at least t". */
  lemma {:induction false} ScoreIsAThreshold(n: Indexed, answers: Answers, t: int)
    requires WellFormed(n) && t >= 1
    requires Collect(n, answers).satisfied == Yes
    ensures GateScore(Collect(n, answers)) >= t <==> Holds(n, AtLeast(answers, t))
  {
    if n.Fork? {
      CollectedFork(n, answers);
      var r := Collect(n, answers);
      forall i | 0 <= i < |n.children|
        ensures r.children[i].satisfied == Yes
                ==> (GateScore(r.children[i]) >= t <==> Holds(n.children[i], AtLeast(answers, t)))
        ensures Holds(n.children[i], AtLeast(answers, t)) ==> r.children[i].satisfied == Yes
      {
        if r.children[i].satisfied == Yes { ScoreIsAThreshold(n.children[i], answers, t); }
        if Holds(n.children[i], AtLeast(answers, t)) { ScoredMeansSatisfied(n.children[i], answers, t); }
      }
      BestScoreAtLeast(n.kind, r.children, t);
      assert n.kind == All ==> r.children[0].satisfied == Yes;
    }
  }
}
