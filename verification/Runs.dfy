/** A property that single steps keep, or break, over a whole run. */
module Runs {

  /** What each step keeps unless it breaks it holds throughout if and only if no step breaks it. */
  lemma {:induction false} ThroughoutExactly(holds: nat -> bool, breaks: nat -> bool, n: nat)
    requires holds(0) && forall i: nat | i < n && holds(i) :: holds(i + 1) <==> !breaks(i)
    ensures (forall i: nat | i <= n :: holds(i)) <==> forall i: nat | i < n :: !breaks(i)
  {
    if n > 0 {
      ThroughoutExactly(holds, breaks, n - 1);
      if forall i: nat | i <= n - 1 :: holds(i) {
        assert holds(n - 1);
        assert holds(n) <==> !breaks(n - 1);
      }
    }
  }
}
