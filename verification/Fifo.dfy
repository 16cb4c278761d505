/** A bounded queue of distinct things that forgets the oldest: every in-memory memo here is one. */
module Fifo {
  import opened Sequences

  predicate Bounded<T(==)>(order: seq<T>, maxEntries: nat) {
    |order| <= maxEntries && Distinct(order)
  }

  function Push<T(==)>(order: seq<T>, k: T, maxEntries: nat): seq<T> {
    if k in order then order
    else if |order| + 1 > maxEntries then (order + [k])[1..]
    else order + [k]
  }

  function PushAll<T(==)>(order: seq<T>, more: seq<T>, maxEntries: nat): seq<T> {
    if more == [] then order else Push(PushAll(order, more[..|more| - 1], maxEntries), more[|more| - 1], maxEntries)
  }

  lemma PushElements<T(!new)>(order: seq<T>, k: T, maxEntries: nat)
    requires Bounded(order, maxEntries)
    ensures Bounded(Push(order, k, maxEntries), maxEntries)
    ensures forall x <- Push(order, k, maxEntries) :: x in order || x == k
    ensures k !in order && |order| + 1 > maxEntries ==>
              forall x :: x in Push(order, k, maxEntries) <==> (x in order || x == k) && x != (order + [k])[0]
    ensures k !in order && |order| + 1 <= maxEntries ==>
              forall x :: x in Push(order, k, maxEntries) <==> x in order || x == k
  {
    if k !in order && |order| + 1 > maxEntries {
      var all := order + [k];
      assert all == [all[0]] + all[1..];
      assert forall i :: 0 < i < |all| ==> all[i] != all[0];
      assert forall i :: 0 <= i < |all[1..]| ==> all[1..][i] == all[i + 1];
      assert forall x :: x in all <==> x in order || x == k;
    }
  }

  /** An entry is forgotten only once the queue has filled up behind it. */
  lemma StillHeld<T(!new)>(order: seq<T>, i: nat, more: seq<T>, maxEntries: nat)
    requires Bounded(order, maxEntries) && i < |order| && |order| - i + |more| <= maxEntries
    ensures order[i] in PushAll(order, more, maxEntries)
  {
    var _ := PositionAfter(order, i, more, maxEntries);
  }

  lemma {:induction false} PositionAfter<T(!new)>(order: seq<T>, i: nat, more: seq<T>, maxEntries: nat) returns (at: nat)
    requires Bounded(order, maxEntries) && i < |order| && |order| - i + |more| <= maxEntries
    ensures var after := PushAll(order, more, maxEntries);
            Bounded(after, maxEntries) && at < |after| && after[at] == order[i] && |after| - at <= |order| - i + |more|
  {
    at := i;
    if more != [] {
      var n := |more| - 1;
      at := PositionAfter(order, i, more[..n], maxEntries);
      var before := PushAll(order, more[..n], maxEntries);
      PushElements(before, more[n], maxEntries);
      if more[n] !in before && |before| + 1 > maxEntries {
        at := at - 1;
      }
    }
  }
}
