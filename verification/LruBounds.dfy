/** When overlapping calls keep the cache within the limits that calls one at a time keep, and runs that do not. */
module LruBounds {
  import opened Wrappers
  import opened Bundles
  import Lru
  import Runs
  import opened LruInterleaving
  import opened LruSizes

  // ---- exactly when the limits hold ----

  /** Nothing in the active half is uncounted, but for keys whose calls are about to count them. */
  predicate Bounded<K(==), V>(s: State<K, V>, maxItems: Positive) {
    |s.store.active| <= s.store.activeSize + Among(s.calls, Counting) && |s.store.inactive| <= maxItems
  }

  /**
   The steps that break the limits: a rewrite of a key that has left the active half since its call began,
   with no slack in the counter; a short length that is out of date; and swapping a half that has overfilled
   while its length was read.
   */
  predicate Offends<K(==), V>(s: State<K, V>, op: Op<K, V>, maxItems: Positive) {
    && op.Advance? && op.id in s.calls
    && match s.calls[op.id]
       case Writing(k, _, existing, _) =>
         existing && k !in s.store.active && |s.store.active| == s.store.activeSize + Among(s.calls, Counting)
       case Measuring(n) => if n < maxItems then n + Among(s.calls, Counting) < |s.store.active| else |s.store.active| > maxItems
       case _ => false
  }

  lemma WriteBoundedExactly<K, V>(s: State<K, V>, id: nat, maxItems: Positive)
    requires Bounded(s, maxItems) && id in s.calls && s.calls[id].Writing?
    ensures Bounded(Step(s, Advance(id), maxItems), maxItems) <==> !Offends(s, Advance(id), maxItems)
  {
    var t, c := Step(s, Advance(id), maxItems), s.calls[id];
    Lru.MoreKeys(s.store.active, c.key, c.value);
    if c.existing { CallsEnded(s, t, id, maxItems); } else { CallsBegun(s, t, id, Growing, maxItems); }
  }

  lemma CountStaysBounded<K, V>(s: State<K, V>, id: nat, maxItems: Positive)
    requires Bounded(s, maxItems) && id in s.calls && s.calls[id].Growing?
    ensures Bounded(Step(s, Advance(id), maxItems), maxItems)
  {
    var t := Step(s, Advance(id), maxItems);
    if s.store.activeSize + 1 < maxItems { CallsEnded(s, t, id, maxItems); }
    else { CallsBegun(s, t, id, Measuring(|s.store.active|), maxItems); }
  }

  lemma MeasureBoundedExactly<K, V>(s: State<K, V>, id: nat, maxItems: Positive)
    requires Bounded(s, maxItems) && id in s.calls && s.calls[id].Measuring?
    ensures Bounded(Step(s, Advance(id), maxItems), maxItems) <==> !Offends(s, Advance(id), maxItems)
  {
    AmongEnded(s.calls, id, Counting);
  }

  lemma ReadStaysBounded<K, V>(s: State<K, V>, op: Op<K, V>, maxItems: Positive)
    requires Bounded(s, maxItems)
    requires op.Advance? && op.id in s.calls ==> s.calls[op.id].Older? || s.calls[op.id].Promoting?
    requires op.Advance? || op.Set? || op.Get?
    ensures Bounded(Step(s, op, maxItems), maxItems)
  {
    var t := Step(s, op, maxItems);
    if t != s {
      if op.id in t.calls { CallsBegun(s, t, op.id, t.calls[op.id], maxItems); }
      else { CallsEnded(s, t, op.id, maxItems); }
    }
  }

  lemma StepBoundedExactly<K, V>(s: State<K, V>, op: Op<K, V>, maxItems: Positive)
    requires Bounded(s, maxItems)
    ensures Bounded(Step(s, op, maxItems), maxItems) <==> !Offends(s, op, maxItems)
  {
    if op.Remove? || op.Clear? {
      FewerReach(s, Step(s, op, maxItems));
      Lru.SubsetSize(Step(s, op, maxItems).store.active.Keys, s.store.active.Keys);
    } else if op.Advance? && op.id in s.calls && s.calls[op.id].Writing? {
      WriteBoundedExactly(s, op.id, maxItems);
    } else if op.Advance? && op.id in s.calls && s.calls[op.id].Growing? {
      CountStaysBounded(s, op.id, maxItems);
    } else if op.Advance? && op.id in s.calls && s.calls[op.id].Measuring? {
      MeasureBoundedExactly(s, op.id, maxItems);
    } else {
      ReadStaysBounded(s, op, maxItems);
    }
  }

  ghost predicate BoundedAt<K, V>(ops: seq<Op<K, V>>, i: nat, maxItems: Positive) {
    i <= |ops| && Bounded(Run(ops[..i], maxItems), maxItems)
  }

  ghost predicate OffendsAt<K, V>(ops: seq<Op<K, V>>, i: nat, maxItems: Positive) {
    i < |ops| && Offends(Run(ops[..i], maxItems), ops[i], maxItems)
  }

  lemma BoundedNext<K, V>(ops: seq<Op<K, V>>, i: nat, maxItems: Positive)
    requires i < |ops| && BoundedAt(ops, i, maxItems)
    ensures BoundedAt(ops, i + 1, maxItems) <==> !OffendsAt(ops, i, maxItems)
  {
    OneMore(ops, i, maxItems);
    StepBoundedExactly(Run(ops[..i], maxItems), ops[i], maxItems);
  }

  lemma BoundedThroughout<K, V>(ops: seq<Op<K, V>>, maxItems: Positive)
    ensures (forall i: nat :: i <= |ops| ==> BoundedAt(ops, i, maxItems))
            <==> forall i: nat :: i < |ops| ==> !OffendsAt(ops, i, maxItems)
  {
    var holds, breaks := (i: nat) => BoundedAt(ops, i, maxItems), (i: nat) => OffendsAt(ops, i, maxItems);
    assert ops[..0] == [];
    forall i: nat | i < |ops| && holds(i) ensures holds(i + 1) <==> !breaks(i) { BoundedNext(ops, i, maxItems); }
    Runs.ThroughoutExactly(holds, breaks, |ops|);
    assert forall i: nat | i <= |ops| :: holds(i) == BoundedAt(ops, i, maxItems);
    assert forall i: nat | i < |ops| :: breaks(i) == OffendsAt(ops, i, maxItems);
  }

  lemma {:induction false} FewCalls<K, V>(ops: seq<Op<K, V>>, overlap: nat, maxItems: Positive)
    requires |ops| <= overlap
    ensures AtMost(ops, overlap, maxItems) && |Run(ops, maxItems).calls| <= |ops|
  {
    if ops != [] {
      var n := |ops| - 1;
      FewCalls(ops[..n], overlap, maxItems);
      var s, t := Run(ops[..n], maxItems), Run(ops, maxItems);
      assert t.calls.Keys <= s.calls.Keys + if ops[n].Set? || ops[n].Get? || ops[n].Advance? then {ops[n].id} else {};
      if (ops[n].Set? || ops[n].Get?) {
        Lru.SubsetSize(t.calls.Keys, s.calls.Keys + {ops[n].id});
      } else {
        assert t.calls.Keys <= s.calls.Keys;
        Lru.SubsetSize(t.calls.Keys, s.calls.Keys);
      }
    }
  }

  /**
   A run never leaves an entry uncounted nor overfills a half if and only if none of its steps offends.
   Where the limits hold and no call is under way, they are those of calls one at a time.
   */
  lemma WithinLimitsExactly<K, V>(ops: seq<Op<K, V>>, maxItems: Positive)
    ensures (forall i: nat :: i <= |ops| ==> BoundedAt(ops, i, maxItems))
            <==> forall i: nat :: i < |ops| ==> !OffendsAt(ops, i, maxItems)
    ensures var s := Run(ops, maxItems);
            Bounded(s, maxItems) && s.calls == map[] ==>
              && Lru.Sized(s.store, maxItems)
              && |s.store.active| + |s.store.inactive| < 2 * maxItems
  {
    BoundedThroughout(ops, maxItems);
    FewCalls(ops, |ops|, maxItems);
    SizesAreBounded(ops, |ops|, maxItems);
    SizesAgree(Run(ops, maxItems), maxItems);
  }

  // ---- one call at a time ----

  /** A length being waited for is still no smaller than the half it measured. */
  ghost predicate Alone<K, V>(s: State<K, V>, maxItems: Positive) {
    && |Reach(s)| <= s.store.activeSize + Among(s.calls, Counting) && |s.store.inactive| <= maxItems
    && s.store.activeSize < maxItems + Among(s.calls, AnyLength)
    && forall id <- s.calls :: s.calls[id].Measuring? ==> |s.store.active| <= s.calls[id].length <= maxItems
  }

  lemma OnlyCall<K, V>(s: State<K, V>, id: nat)
    requires |s.calls| <= 1 && id in s.calls
    ensures s.calls == map[id := s.calls[id]]
  {
    Lru.SubsetSize({id}, s.calls.Keys);
    forall j | j in s.calls ensures j == id {
      if j != id {
        Lru.SubsetSize({id, j}, s.calls.Keys);
      }
    }
  }

  lemma ReadAlone<K, V>(s: State<K, V>, id: nat, maxItems: Positive)
    requires Alone(s, maxItems) && |s.calls| <= 1 && id in s.calls && (s.calls[id].Older? || s.calls[id].Promoting?)
    ensures Alone(AdvanceCall(s, id, s.calls[id], maxItems), maxItems)
  {
    var t := AdvanceCall(s, id, s.calls[id], maxItems);
    OnlyCall(s, id);
    if id in t.calls {
      CallsBegun(s, t, id, t.calls[id], maxItems);
      BeginReach(s, id, t.calls[id]);
    } else {
      CallsEnded(s, t, id, maxItems);
      SameReach(s, id, t);
    }
  }

  lemma WriteAlone<K, V>(s: State<K, V>, id: nat, maxItems: Positive)
    requires Alone(s, maxItems) && |s.calls| <= 1 && id in s.calls && s.calls[id].Writing?
    ensures Alone(AdvanceCall(s, id, s.calls[id], maxItems), maxItems)
  {
    var t := AdvanceCall(s, id, s.calls[id], maxItems);
    OnlyCall(s, id);
    WriteReach(s, id, t);
    if id in t.calls { CallsBegun(s, t, id, t.calls[id], maxItems); } else { CallsEnded(s, t, id, maxItems); }
  }

  lemma CountAlone<K, V>(s: State<K, V>, id: nat, maxItems: Positive)
    requires Alone(s, maxItems) && |s.calls| <= 1 && id in s.calls && s.calls[id].Growing?
    ensures Alone(AdvanceCall(s, id, s.calls[id], maxItems), maxItems)
  {
    var t := AdvanceCall(s, id, s.calls[id], maxItems);
    OnlyCall(s, id);
    SizesAgree(s, maxItems);
    SameReach(s, id, t);
    if id in t.calls { CallsBegun(s, t, id, t.calls[id], maxItems); } else { CallsEnded(s, t, id, maxItems); }
  }

  lemma MeasureAlone<K, V>(s: State<K, V>, id: nat, maxItems: Positive)
    requires Alone(s, maxItems) && |s.calls| <= 1 && id in s.calls && s.calls[id].Measuring?
    ensures Alone(AdvanceCall(s, id, s.calls[id], maxItems), maxItems)
  {
    var t, n := AdvanceCall(s, id, s.calls[id], maxItems), s.calls[id].length;
    OnlyCall(s, id);
    assert t.calls == map[];
    QuietIsAlone(t, maxItems);
  }

  lemma QuietIsAlone<K, V>(t: State<K, V>, maxItems: Positive)
    requires t.calls == map[]
    ensures |t.store.active| <= t.store.activeSize < maxItems && |t.store.inactive| <= maxItems ==> Alone(t, maxItems)
  {
    AloneReach(t);
  }

  lemma AloneReach<K, V>(t: State<K, V>)
    requires t.calls == map[]
    ensures |Reach(t)| == |t.store.active|
  {
    assert Reach(t) == t.store.active.Keys;
  }

  lemma StepAlone<K, V>(s: State<K, V>, op: Op<K, V>, maxItems: Positive)
    requires Alone(s, maxItems) && |s.calls| <= 1 && |Step(s, op, maxItems).calls| <= 1
    ensures Alone(Step(s, op, maxItems), maxItems)
  {
    var t := Step(s, op, maxItems);
    match op
    case Advance(id) =>
      if id in s.calls {
        match s.calls[id]
        case Writing(_, _, _, _) => WriteAlone(s, id, maxItems);
        case Growing => CountAlone(s, id, maxItems);
        case Measuring(_) => MeasureAlone(s, id, maxItems);
        case _ => ReadAlone(s, id, maxItems);
      }
    case Remove(k) => FewerReach(s, t); Lru.SubsetSize(t.store.active.Keys, s.store.active.Keys);
    case Clear => FewerReach(s, t);
    case Set(id, k, v) =>
      if id !in s.calls {
        CallsBegun(s, t, id, t.calls[id], maxItems);
        BeginReach(s, id, t.calls[id]);
      }
    case Get(id, k) =>
      if id !in s.calls && k !in s.store.active {
        CallsBegun(s, t, id, t.calls[id], maxItems);
        BeginReach(s, id, t.calls[id]);
      }
  }

  /** Calls one at a time stay within the limits, whatever is removed in the middle of one. */
  lemma {:induction false} OneAtATimeIsBounded<K, V>(ops: seq<Op<K, V>>, maxItems: Positive)
    requires AtMost(ops, 1, maxItems)
    ensures Alone(Run(ops, maxItems), maxItems) && Bounded(Run(ops, maxItems), maxItems)
  {
    if ops == [] {
      AloneReach(Run(ops, maxItems));
    } else {
      OneAtATimeIsBounded(ops[..|ops| - 1], maxItems);
      StepAlone(Run(ops[..|ops| - 1], maxItems), ops[|ops| - 1], maxItems);
    }
    SizesAgree(Run(ops, maxItems), maxItems);
  }

  // ---- runs that leave the limits ----

  /** Two overlapping sets, both past their writes. */
  function BothWritten<K, V>(a: K, b: K, v: V): seq<Op<K, V>> {
    [Set(0, a, v), Set(1, b, v), Advance(0), Advance(1)]
  }

  lemma BothAreWritten<K, V>(a: K, b: K, v: V)
    requires a != b
    ensures Run(BothWritten(a, b, v), 1) == State(Lru.Store(map[a := v, b := v], map[], 0), map[0 := Growing, 1 := Growing])
    ensures |map[a := v, b := v]| == 2
  {
    var ops := BothWritten(a, b, v);
    OneMore(ops, 0, 1);
    OneMore(ops, 1, 1);
    OneMore(ops, 2, 1);
    OneMore(ops, 3, 1);
    assert ops[..0] == [] && ops[..4] == ops;
    var first, second: Call<K, V> := Writing(a, v, false, false), Writing(b, v, false, false);
    assert Run(ops[..1], 1) == State(Lru.Empty(), map[0 := first]);
    assert Run(ops[..2], 1) == State(Lru.Empty(), map[0 := first, 1 := second]);
    assert Run(ops[..3], 1) == State(Lru.Store(map[a := v], map[], 0), map[0 := Growing, 1 := second]);
    Lru.MoreKeys(map[], a, v);
    Lru.MoreKeys(map[a := v], b, v);
  }

  lemma FourMore<K, V>(ops: seq<Op<K, V>>, p: Op<K, V>, q: Op<K, V>, r: Op<K, V>, t: Op<K, V>, maxItems: Positive)
    ensures Run(ops + [p, q, r, t], maxItems)
         == Step(Step(Step(Step(Run(ops, maxItems), p, maxItems), q, maxItems), r, maxItems), t, maxItems)
  {
    TwoMore(ops, p, q, maxItems);
    TwoMore(ops + [p, q], r, t, maxItems);
    assert ops + [p, q] + [r, t] == ops + [p, q, r, t];
  }

  lemma TwoMore<K, V>(ops: seq<Op<K, V>>, p: Op<K, V>, q: Op<K, V>, maxItems: Positive)
    ensures Run(ops + [p, q], maxItems) == Step(Step(Run(ops, maxItems), p, maxItems), q, maxItems)
  {
    assert (ops + [p, q])[..|ops| + 1] == ops + [p] && (ops + [p])[..|ops|] == ops;
  }

  /** A count that reaches the limit asks for the length; one length that comes back full swaps. */
  lemma CountThenMeasure<K, V>(half: map<K, V>, other: map<K, V>, size: nat, calls: map<nat, Call<K, V>>, id: nat)
    requires id in calls
    ensures calls[id].Growing? ==>
              Step(State(Lru.Store(half, other, size), calls), Advance(id), 1)
              == State(Lru.Store(half, other, size + 1), calls[id := Measuring(|half|)])
    ensures calls[id].Measuring? && calls[id].length > 0 ==>
              Step(State(Lru.Store(half, other, size), calls), Advance(id), 1) == State(Lru.Store(map[], half, 0), calls - {id})
    ensures calls[id] == Measuring(0) ==>
              Step(State(Lru.Store(half, other, size), calls), Advance(id), 1) == State(Lru.Store(half, other, 0), calls - {id})
  {
  }

  /** Two overlapping sets of new keys fill a half that may hold one entry with two, and it is kept so. */
  lemma OverlappingSetsOverfill<K, V>(a: K, b: K, v: V)
    requires a != b
    ensures var s := Run(BothWritten(a, b, v) + [Advance(0), Advance(0), Advance(1), Advance(1)], 1);
            s.calls == map[] && |s.store.inactive| == 2 * 1 && s.store.activeSize == 0
  {
    BothAreWritten(a, b, v);
    FourMore(BothWritten(a, b, v), Advance(0), Advance(0), Advance(1), Advance(1), 1);
    var full, none: map<K, V> := map[a := v, b := v], map[];
    var calls: map<nat, Call<K, V>> := map[0 := Growing, 1 := Growing];
    CountThenMeasure(full, none, 0, calls, 0);
    CountThenMeasure(full, none, 1, calls[0 := Measuring(2)], 0);
    assert calls[0 := Measuring(2)] - {0} == map[1 := Growing];
    CountThenMeasure(none, full, 0, map[1 := Growing], 1);
    CountThenMeasure(none, full, 1, map[1 := Growing][1 := Measuring(0)], 1);
  }

  /** The same two sets, if both measure before either swaps, are both lost at once. */
  lemma DoubleSwapLosesBoth<K, V>(a: K, b: K, v: V)
    requires a != b
    ensures var s := Run(BothWritten(a, b, v) + [Advance(0), Advance(1), Advance(0), Advance(1)], 1);
            s == State(Lru.Empty(), map[])
  {
    BothAreWritten(a, b, v);
    FourMore(BothWritten(a, b, v), Advance(0), Advance(1), Advance(0), Advance(1), 1);
    var full, none: map<K, V> := map[a := v, b := v], map[];
    var calls: map<nat, Call<K, V>> := map[0 := Growing, 1 := Growing];
    CountThenMeasure(full, none, 0, calls, 0);
    CountThenMeasure(full, none, 1, calls[0 := Measuring(2)], 1);
    var both := calls[0 := Measuring(2)][1 := Measuring(2)];
    CountThenMeasure(full, none, 2, both, 0);
    CountThenMeasure(none, full, 0, both - {0}, 1);
    assert both - {0} - {1} == map[];
  }

  /** A set that a swap overtakes writes into the new half without being counted. */
  lemma OvertakenSetIsNotCounted<K, V>(a: K, b: K, u: V, v: V)
    requires a != b
    ensures var s := Run([Set(0, a, u), Advance(0), Advance(0), Set(0, a, v)] + [Set(1, b, u), Advance(1), Advance(1), Advance(1)] + [Advance(0)], 2);
            s.calls == map[] && |s.store.active| == 1 && s.store.activeSize == 0
  {
    var start: seq<Op<K, V>> := [Set(0, a, u), Advance(0), Advance(0), Set(0, a, v)];
    assert [] + start == start;
    FourMore([], Set(0, a, u), Advance(0), Advance(0), Set(0, a, v), 2);
    FourMore(start, Set(1, b, u), Advance(1), Advance(1), Advance(1), 2);
    RunOne(start + [Set(1, b, u), Advance(1), Advance(1), Advance(1)], Advance(0), 2);
    OneIsThere(a, u, v);
    OtherSwaps(a, b, u, v);
    Lru.MoreKeys(map[], a, v);
  }

  lemma OneIsThere<K, V>(a: K, u: V, v: V)
    ensures var s: State<K, V> := State(Lru.Empty(), map[]);
            Step(Step(Step(Step(s, Set(0, a, u), 2), Advance(0), 2), Advance(0), 2), Set(0, a, v), 2)
            == State(Lru.Store(map[a := u], map[], 1), map[0 := Writing(a, v, true, false)])
  {
    var s: State<K, V> := State(Lru.Empty(), map[]);
    SetAloneIsAtomic(s, 0, a, u, 2);
    var t := Step(Step(s, Set(0, a, u), 2), Advance(0), 2);
    assert t == State(Lru.Store(map[a := u], map[], 0), map[0 := Growing]);
    assert Step(t, Advance(0), 2) == State(Lru.Store(map[a := u], map[], 1), map[]);
  }

  lemma OtherSwaps<K, V>(a: K, b: K, u: V, v: V)
    requires a != b
    ensures var c: Call<K, V> := Writing(a, v, true, false);
            var s := State(Lru.Store(map[a := u], map[], 1), map[0 := c]);
            Step(Step(Step(Step(s, Set(1, b, u), 2), Advance(1), 2), Advance(1), 2), Advance(1), 2)
            == State(Lru.Store(map[], map[a := u, b := u], 0), map[0 := c])
  {
    var c: Call<K, V> := Writing(a, v, true, false);
    var s := State(Lru.Store(map[a := u], map[], 1), map[0 := c]);
    Lru.MoreKeys(map[], a, u);
    Lru.MoreKeys(map[a := u], b, u);
    var t := Step(Step(s, Set(1, b, u), 2), Advance(1), 2);
    assert t == State(Lru.Store(map[a := u, b := u], map[], 1), map[0 := c, 1 := Growing]);
    var w := Step(t, Advance(1), 2);
    assert w == State(Lru.Store(map[a := u, b := u], map[], 2), map[0 := c, 1 := Measuring(2)]);
  }

  // ---- how long a key is kept ----

  /** A step loses a key that is found exactly if it removes it, or swaps while only the older half has it. */
  predicate Loses<K(==), V>(s: State<K, V>, op: Op<K, V>, k: K, maxItems: Positive) {
    match op
    case Remove(j) => j == k
    case Clear => true
    case Advance(id) =>
      id in s.calls && s.calls[id].Measuring? && s.calls[id].length >= maxItems && k !in s.store.active
    case Set(_, _, _) => false
    case Get(_, _) => false
  }

  lemma StepLosesExactly<K, V>(s: State<K, V>, op: Op<K, V>, k: K, maxItems: Positive)
    requires Lru.Lookup(s.store, k).Some?
    ensures Lru.Lookup(Step(s, op, maxItems).store, k).None? <==> Loses(s, op, k, maxItems)
  {
  }

  /** A swap by a call whose half was swapped away while it read the length. */
  predicate SwapsTooSoon<K, V>(s: State<K, V>, op: Op<K, V>, maxItems: Positive) {
    && op.Advance? && op.id in s.calls && s.calls[op.id].Measuring?
    && s.calls[op.id].length >= maxItems && |s.store.active| < maxItems
  }

  ghost predicate NeverTooSoon<K, V>(ops: seq<Op<K, V>>, maxItems: Positive) {
    ops != [] ==>
      && NeverTooSoon(ops[..|ops| - 1], maxItems)
      && !SwapsTooSoon(Run(ops[..|ops| - 1], maxItems), ops[|ops| - 1], maxItems)
  }

  /** The key a step touches: one written, or one found in the active half. */
  function Touches<K, V>(s: State<K, V>, op: Op<K, V>): Option<K> {
    match op
    case Advance(id) => if id in s.calls && s.calls[id].Writing? then Some(s.calls[id].key) else None
    case Get(_, k) => if k in s.store.active then Some(k) else None
    case _ => None
  }

  /** The other keys touched since `k` last was; nothing if it never was, or is removed. */
  function OthersSince<K, V>(ops: seq<Op<K, V>>, k: K, maxItems: Positive): Option<set<K>> {
    if ops == [] then None
    else
      var before, op := ops[..|ops| - 1], ops[|ops| - 1];
      OthersAfter(OthersSince(before, k, maxItems), Touches(Run(before, maxItems), op), op, k)
  }

  function OthersAfter<K, V>(others: Option<set<K>>, touched: Option<K>, op: Op<K, V>, k: K): Option<set<K>> {
    if op.Clear? || op == Remove(k) then None
    else if touched == Some(k) then Some({})
    else if others.None? || touched.None? then others
    else Some(others.value + {touched.value})
  }

  lemma StepStaysSafe<K, V>(s: State<K, V>, op: Op<K, V>, k: K, others: set<K>, maxItems: Positive)
    requires Lru.Safe(s.store, k, others) && |others| < maxItems && !SwapsTooSoon(s, op, maxItems)
    requires op != Remove(k) && !op.Clear?
    ensures var touched := Touches(s, op);
            Lru.Safe(Step(s, op, maxItems).store, k, if touched.None? then others else others + {touched.value})
  {
    if op.Advance? && op.id in s.calls && s.calls[op.id].Measuring? && k !in s.store.active {
      Lru.SubsetSize(s.store.active.Keys, others);
    }
  }

  lemma {:induction false} StaysSafe<K, V>(ops: seq<Op<K, V>>, k: K, maxItems: Positive)
    requires NeverTooSoon(ops, maxItems)
    requires OthersSince(ops, k, maxItems).Some? && |OthersSince(ops, k, maxItems).value| < maxItems
    ensures Lru.Safe(Run(ops, maxItems).store, k, OthersSince(ops, k, maxItems).value)
  {
    var before, op := ops[..|ops| - 1], ops[|ops| - 1];
    var s := Run(before, maxItems);
    if Touches(s, op) != Some(k) {
      var earlier := OthersSince(before, k, maxItems).value;
      Lru.SubsetSize(earlier, OthersSince(ops, k, maxItems).value);
      StaysSafe(before, k, maxItems);
      StepStaysSafe(s, op, k, earlier, maxItems);
    }
  }

  /** Touched before fewer than `maxItems` other keys, and not removed since. */
  predicate Recent<K(==), V>(ops: seq<Op<K, V>>, k: K, maxItems: Positive) {
    Fewer(OthersSince(ops, k, maxItems), maxItems)
  }

  predicate Fewer<K>(others: Option<set<K>>, maxItems: Positive) {
    others.Some? && |others.value| < maxItems
  }

  lemma FewerBefore<K, V>(others: Option<set<K>>, touched: Option<K>, op: Op<K, V>, k: K, maxItems: Positive)
    requires Fewer(OthersAfter(others, touched, op, k), maxItems)
    ensures touched == Some(k) || (Fewer(others, maxItems) && op != Remove(k) && !op.Clear?)
  {
    if touched != Some(k) {
      Lru.SubsetSize(others.value, OthersAfter(others, touched, op, k).value);
    }
  }

  ghost predicate RecentFoundAt<K(!new), V>(ops: seq<Op<K, V>>, i: nat, maxItems: Positive) {
    i <= |ops| && forall k :: Recent(ops[..i], k, maxItems) ==> Lru.Lookup(Run(ops[..i], maxItems).store, k).Some?
  }

  /** Step `i` swaps the halves while a recent key is in the older one only. */
  ghost predicate SwapsAwayAt<K(!new), V>(ops: seq<Op<K, V>>, i: nat, maxItems: Positive) {
    && i < |ops| && SwapsNow(Run(ops[..i], maxItems), ops[i], maxItems)
    && exists k :: Recent(ops[..i], k, maxItems) && k !in Run(ops[..i], maxItems).store.active
  }

  predicate SwapsNow<K, V>(s: State<K, V>, op: Op<K, V>, maxItems: Positive) {
    op.Advance? && op.id in s.calls && s.calls[op.id].Measuring? && s.calls[op.id].length >= maxItems
  }

  lemma TouchedIsFound<K, V>(s: State<K, V>, op: Op<K, V>, k: K, maxItems: Positive)
    requires Touches(s, op) == Some(k)
    ensures k in Step(s, op, maxItems).store.active
  {
  }

  /** A key that is recent after a step was touched by it, or was recent before; a swap touches nothing. */
  lemma RecentBefore<K, V>(ops: seq<Op<K, V>>, i: nat, k: K, maxItems: Positive)
    requires i < |ops|
    ensures Recent(ops[..i + 1], k, maxItems) ==>
              Touches(Run(ops[..i], maxItems), ops[i]) == Some(k)
              || (Recent(ops[..i], k, maxItems) && ops[i] != Remove(k) && !ops[i].Clear?)
    ensures SwapsNow(Run(ops[..i], maxItems), ops[i], maxItems) ==> (Recent(ops[..i + 1], k, maxItems) <==> Recent(ops[..i], k, maxItems))
  {
    var before := ops[..i];
    var others, touched := OthersSince(before, k, maxItems), Touches(Run(before, maxItems), ops[i]);
    assert ops[..i + 1][..i] == before && ops[..i + 1][i] == ops[i];
    assert OthersSince(ops[..i + 1], k, maxItems) == OthersAfter(others, touched, ops[i], k);
    if Recent(ops[..i + 1], k, maxItems) { FewerBefore(others, touched, ops[i], k, maxItems); }
  }

  lemma RecentNext<K(!new), V>(ops: seq<Op<K, V>>, i: nat, maxItems: Positive)
    requires i < |ops| && RecentFoundAt(ops, i, maxItems)
    ensures RecentFoundAt(ops, i + 1, maxItems) <==> !SwapsAwayAt(ops, i, maxItems)
  {
    var s, op := Run(ops[..i], maxItems), ops[i];
    OneMore(ops, i, maxItems);
    forall k | Recent(ops[..i + 1], k, maxItems) && !SwapsAwayAt(ops, i, maxItems)
      ensures Lru.Lookup(Step(s, op, maxItems).store, k).Some?
    {
      RecentBefore(ops, i, k, maxItems);
      if Touches(s, op) == Some(k) { TouchedIsFound(s, op, k, maxItems); }
      else { StepLosesExactly(s, op, k, maxItems); }
    }
    if SwapsAwayAt(ops, i, maxItems) {
      var k :| Recent(ops[..i], k, maxItems) && k !in s.store.active;
      RecentBefore(ops, i, k, maxItems);
      StepLosesExactly(s, op, k, maxItems);
      assert Recent(ops[..i + 1], k, maxItems);
    }
  }

  /**
   Main result on keeping, however calls overlap: throughout a run every key is found until `maxItems` other
   keys have been touched after it, if and only if no step of the run swaps the halves while such a key is
   outside the active one.
   */
  lemma RecentKeysAreFoundExactly<K(!new), V>(ops: seq<Op<K, V>>, maxItems: Positive)
    ensures (forall i: nat :: i <= |ops| ==> RecentFoundAt(ops, i, maxItems))
            <==> forall i: nat :: i < |ops| ==> !SwapsAwayAt(ops, i, maxItems)
  {
    var holds, breaks := (i: nat) => RecentFoundAt(ops, i, maxItems), (i: nat) => SwapsAwayAt(ops, i, maxItems);
    assert ops[..0] == [];
    forall i: nat | i < |ops| && holds(i) ensures holds(i + 1) <==> !breaks(i) { RecentNext(ops, i, maxItems); }
    Runs.ThroughoutExactly(holds, breaks, |ops|);
    assert forall i: nat | i <= |ops| :: holds(i) == RecentFoundAt(ops, i, maxItems);
    assert forall i: nat | i < |ops| :: breaks(i) == SwapsAwayAt(ops, i, maxItems);
  }

  /**
   So, however calls overlap, as long as no half is swapped twice for one filling, a key is found until
   `maxItems` other keys have been touched after it.
   */
  lemma RecentKeysAreFoundStill<K, V>(ops: seq<Op<K, V>>, k: K, maxItems: Positive)
    requires NeverTooSoon(ops, maxItems)
    requires OthersSince(ops, k, maxItems).Some? && |OthersSince(ops, k, maxItems).value| < maxItems
    ensures Lru.Lookup(Run(ops, maxItems).store, k).Some?
  {
    StaysSafe(ops, k, maxItems);
  }
}
