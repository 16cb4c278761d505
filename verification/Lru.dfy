/**
 The browser's two-database cache: writes fill the active half, a full half swaps roles with the other
 one, which is cleared. Measured against a plain map.
 */
module Lru {
  import opened Wrappers
  import opened Bundles

  /** Stored values are never null. */
  datatype Store<K, V> = Store(active: map<K, V>, inactive: map<K, V>, activeSize: nat)

  datatype Op<K, V> = Set(key: K, value: V) | Get(key: K) | Remove(key: K) | Clear

  function Empty<K, V>(): Store<K, V> {
    Store(map[], map[], 0)
  }

  function Swap<K, V>(s: Store<K, V>): Store<K, V> {
    Store(map[], s.active, 0)
  }

  function Written<K, V>(s: Store<K, V>, k: K, v: V): Store<K, V> {
    s.(active := s.active[k := v])
  }

  function Counted<K, V>(s: Store<K, V>): Store<K, V> {
    s.(activeSize := s.activeSize + 1)
  }

  /** The counter is set to a length that was read; a full half swaps with the other. */
  function Measured<K, V>(s: Store<K, V>, length: nat, maxItems: Positive): Store<K, V> {
    if length >= maxItems then Swap(s) else s.(activeSize := length)
  }

  /** One more entry; the counter is checked against the real size before the halves swap. */
  function Grow<K, V>(s: Store<K, V>, maxItems: Positive): Store<K, V> {
    if s.activeSize + 1 < maxItems then Counted(s) else Measured(Counted(s), |s.active|, maxItems)
  }

  function SetItem<K, V>(s: Store<K, V>, k: K, v: V, maxItems: Positive): Store<K, V> {
    var t := s.(active := s.active[k := v]);
    if k in s.active then t else Grow(t, maxItems)
  }

  function Lookup<K, V>(s: Store<K, V>, k: K): Option<V> {
    if k in s.active then Some(s.active[k])
    else if k in s.inactive then Some(s.inactive[k])
    else None
  }

  /** A hit in the inactive half is written into the active one. */
  function GetItem<K, V>(s: Store<K, V>, k: K, maxItems: Positive): Store<K, V> {
    if k !in s.active && k in s.inactive then SetItem(s, k, s.inactive[k], maxItems) else s
  }

  function RemoveItem<K, V>(s: Store<K, V>, k: K): Store<K, V> {
    s.(active := s.active - {k}, inactive := s.inactive - {k})
  }

  function Step<K, V>(s: Store<K, V>, op: Op<K, V>, maxItems: Positive): Store<K, V> {
    match op
    case Set(k, v) => SetItem(s, k, v, maxItems)
    case Get(k) => GetItem(s, k, maxItems)
    case Remove(k) => RemoveItem(s, k)
    case Clear => s.(active := map[], inactive := map[])
  }

  function Run<K, V>(ops: seq<Op<K, V>>, maxItems: Positive): Store<K, V> {
    if ops == [] then Empty() else Step(Run(ops[..|ops| - 1], maxItems), ops[|ops| - 1], maxItems)
  }

  // ---- against a plain map ----

  /** The last value set for each key that was not removed since. */
  function Plain<K, V>(ops: seq<Op<K, V>>): map<K, V> {
    if ops == [] then map[]
    else
      var m := Plain(ops[..|ops| - 1]);
      match ops[|ops| - 1]
      case Set(k, v) => m[k := v]
      case Get(_) => m
      case Remove(k) => m - {k}
      case Clear => map[]
  }

  /** What is found is what was last set. */
  ghost predicate Agrees<K, V>(s: Store<K, V>, m: map<K, V>) {
    && (forall k <- s.active :: k in m && m[k] == s.active[k])
    && (forall k <- s.inactive :: k !in s.active ==> k in m && m[k] == s.inactive[k])
  }

  predicate Sized<K, V>(s: Store<K, V>, maxItems: Positive) {
    |s.active| <= s.activeSize < maxItems && |s.inactive| <= maxItems
  }

  lemma MoreKeys<K, V>(m: map<K, V>, k: K, v: V)
    ensures |m[k := v]| == if k in m then |m| else |m| + 1
  {
    if k in m {
      assert m[k := v].Keys == m.Keys;
    } else {
      assert m[k := v].Keys == m.Keys + {k};
    }
  }

  lemma FewerKeys<K, V>(m: map<K, V>, k: K)
    ensures |m - {k}| <= |m|
  {
    if k in m {
      assert m.Keys == (m - {k}).Keys + {k};
    } else {
      assert m.Keys == (m - {k}).Keys;
    }
  }

  lemma SetKeeps<K, V>(s: Store<K, V>, m: map<K, V>, k: K, v: V, maxItems: Positive)
    requires Agrees(s, m) && Sized(s, maxItems)
    ensures Agrees(SetItem(s, k, v, maxItems), m[k := v]) && Sized(SetItem(s, k, v, maxItems), maxItems)
    ensures Lookup(SetItem(s, k, v, maxItems), k) == Some(v)
  {
    MoreKeys(s.active, k, v);
  }

  lemma RemoveKeeps<K, V>(s: Store<K, V>, m: map<K, V>, k: K, maxItems: Positive)
    requires Agrees(s, m) && Sized(s, maxItems)
    ensures Agrees(RemoveItem(s, k), m - {k}) && Sized(RemoveItem(s, k), maxItems)
  {
    FewerKeys(s.active, k);
    FewerKeys(s.inactive, k);
  }

  lemma GetKeeps<K, V>(s: Store<K, V>, m: map<K, V>, k: K, maxItems: Positive)
    requires Agrees(s, m) && Sized(s, maxItems)
    ensures Agrees(GetItem(s, k, maxItems), m) && Sized(GetItem(s, k, maxItems), maxItems)
  {
    if k !in s.active && k in s.inactive {
      SetKeeps(s, m, k, s.inactive[k], maxItems);
      assert m[k := s.inactive[k]] == m;
    }
  }

  lemma StepKeeps<K, V>(s: Store<K, V>, m: map<K, V>, ops: seq<Op<K, V>>, maxItems: Positive)
    requires ops != [] && m == Plain(ops[..|ops| - 1]) && Agrees(s, m) && Sized(s, maxItems)
    ensures Agrees(Step(s, ops[|ops| - 1], maxItems), Plain(ops)) && Sized(Step(s, ops[|ops| - 1], maxItems), maxItems)
  {
    match ops[|ops| - 1]
    case Set(k, v) => SetKeeps(s, m, k, v, maxItems);
    case Get(k) => GetKeeps(s, m, k, maxItems);
    case Remove(k) => RemoveKeeps(s, m, k, maxItems);
    case Clear =>
  }

  /**
   On every run: a get returns the last value set or a miss, never an older value; the counter never
   under-counts; and both halves together hold fewer than twice `maxItems` entries.
   */
  lemma {:induction false} NeverAnOlderValue<K, V>(ops: seq<Op<K, V>>, maxItems: Positive)
    ensures var s, m := Run(ops, maxItems), Plain(ops);
            && Agrees(s, m)
            && (forall k :: Lookup(s, k).Some? ==> k in m && Lookup(s, k).value == m[k])
            && |s.active| <= s.activeSize && Sized(s, maxItems)
            && |s.active| + |s.inactive| < 2 * maxItems
  {
    if ops != [] {
      NeverAnOlderValue(ops[..|ops| - 1], maxItems);
      StepKeeps(Run(ops[..|ops| - 1], maxItems), Plain(ops[..|ops| - 1]), ops, maxItems);
    }
  }

  // ---- how long a key is kept ----

  /** The key an operation touches: one set, or one found. */
  function Touches<K, V>(s: Store<K, V>, op: Op<K, V>): Option<K> {
    match op
    case Set(k, _) => Some(k)
    case Get(k) => if Lookup(s, k).Some? then Some(k) else None
    case _ => None
  }

  /** The other keys touched since `k` last was; nothing if `k` was never touched or is removed. */
  function OthersSince<K, V>(ops: seq<Op<K, V>>, k: K, maxItems: Positive): Option<set<K>> {
    if ops == [] then None
    else
      var before, op := ops[..|ops| - 1], ops[|ops| - 1];
      var others := OthersSince(before, k, maxItems);
      if op.Clear? || (op.Remove? && op.key == k) then None
      else
        var touched := Touches(Run(before, maxItems), op);
        if touched.None? then others
        else if touched.value == k then Some({})
        else if others.None? then None
        else Some(others.value + {touched.value})
  }

  /** Where a key that is still safe can be: in the active half, or in the inactive one while the active half holds only others. */
  predicate Safe<K, V>(s: Store<K, V>, k: K, others: set<K>) {
    k in s.active || (k in s.inactive && s.active.Keys <= others)
  }

  lemma SubsetSize<K>(a: set<K>, b: set<K>)
    requires a <= b
    ensures |a| <= |b|
  {
    assert b == a + (b - a);
  }

  lemma OtherSetIsSafe<K, V>(s: Store<K, V>, k: K, j: K, v: V, others: set<K>, maxItems: Positive)
    requires Safe(s, k, others) && k != j && |others + {j}| < maxItems && Sized(s, maxItems)
    ensures Safe(SetItem(s, j, v, maxItems), k, others + {j})
  {
    var active := s.active[j := v];
    if k !in s.active {
      assert active.Keys <= others + {j};
      SubsetSize(active.Keys, others + {j});
    }
  }

  lemma {:induction false} StaysSafe<K, V>(ops: seq<Op<K, V>>, k: K, maxItems: Positive)
    requires OthersSince(ops, k, maxItems).Some? && |OthersSince(ops, k, maxItems).value| < maxItems
    ensures Safe(Run(ops, maxItems), k, OthersSince(ops, k, maxItems).value)
  {
    var before, op := ops[..|ops| - 1], ops[|ops| - 1];
    var s, others := Run(before, maxItems), OthersSince(ops, k, maxItems).value;
    var touched := Touches(s, op);
    NeverAnOlderValue(before, maxItems);
    if touched != Some(k) {
      var earlier := OthersSince(before, k, maxItems).value;
      SubsetSize(earlier, others);
      StaysSafe(before, k, maxItems);
      if touched.Some? {
        match op
        case Set(j, v) => OtherSetIsSafe(s, k, j, v, earlier, maxItems);
        case Get(j) => if j !in s.active { OtherSetIsSafe(s, k, j, s.inactive[j], earlier, maxItems); }
      }
    }
  }

  /** A key is found, with its last value, until `maxItems` other keys have been touched after it. */
  lemma RecentKeysAreFound<K, V>(ops: seq<Op<K, V>>, k: K, maxItems: Positive)
    requires OthersSince(ops, k, maxItems).Some? && |OthersSince(ops, k, maxItems).value| < maxItems
    ensures k in Plain(ops) && Lookup(Run(ops, maxItems), k) == Some(Plain(ops)[k])
  {
    StaysSafe(ops, k, maxItems);
    NeverAnOlderValue(ops, maxItems);
  }

  // ---- a promotion that comes late ----

  /**
   A get is two steps: it reads the older half, then writes what it read. When other operations run in
   between, the store agrees with the plain map afterwards exactly if the key still has the value read.
   */
  lemma LatePromotionExactly<K, V>(ops: seq<Op<K, V>>, k: K, read: V, maxItems: Positive)
    ensures var s := SetItem(Run(ops, maxItems), k, read, maxItems);
            && Lookup(s, k) == Some(read)
            && (Agrees(s, Plain(ops)) <==> k in Plain(ops) && Plain(ops)[k] == read)
  {
    var s, m := Run(ops, maxItems), Plain(ops);
    NeverAnOlderValue(ops, maxItems);
    SetKeeps(s, m, k, read, maxItems);
    if k in m && m[k] == read {
      assert m[k := read] == m;
    }
  }

  /** So a get overtaken by a set brings the older value back. */
  lemma OvertakenGetResurrects<K, V>(k: K, first: V, second: V)
    requires first != second
    ensures var s := Run([Set(k, first), Set(k, second)], 1);
            && k !in Run([Set(k, first)], 1).active && Lookup(Run([Set(k, first)], 1), k) == Some(first)
            && Lookup(SetItem(s, k, first, 1), k) == Some(first)
            && Plain([Set(k, first), Set(k, second)])[k] == second
  {
    var one, two := [Set(k, first)], [Set(k, first), Set(k, second)];
    assert two[..1] == one && one[..0] == [];
    LatePromotionExactly(two, k, first, 1);
    MoreKeys(map[], k, first);
  }

  // ---- reopening ----

  /** Which half is active is not stored: on reopening, the larger one is, unless it is full. */
  predicate FirstIsActive(size1: nat, size2: nat, maxItems: Positive) {
    (size1 >= size2 && size1 != maxItems) || size2 == maxItems
  }

  /** The store reopened, its active half having been the first database or the second. */
  function Reopen<K, V>(s: Store<K, V>, activeIsFirst: bool, maxItems: Positive): Store<K, V> {
    var (first, second) := if activeIsFirst then (s.active, s.inactive) else (s.inactive, s.active);
    if FirstIsActive(|first|, |second|, maxItems) then Store(first, second, |first|) else Store(second, first, |second|)
  }

  predicate RolesKept<K, V>(s: Store<K, V>, activeIsFirst: bool, maxItems: Positive) {
    if activeIsFirst then FirstIsActive(|s.active|, |s.inactive|, maxItems)
    else !FirstIsActive(|s.inactive|, |s.active|, maxItems)
  }

  /** Reopening finds what was found before exactly if the halves keep their roles or agree where they overlap. */
  lemma ReopenKeepsValuesExactly<K(!new), V>(s: Store<K, V>, activeIsFirst: bool, maxItems: Positive)
    ensures (forall k :: Lookup(Reopen(s, activeIsFirst, maxItems), k) == Lookup(s, k))
            <==> RolesKept(s, activeIsFirst, maxItems)
                 || forall k :: k in s.active && k in s.inactive ==> s.active[k] == s.inactive[k]
  {
    var t := Reopen(s, activeIsFirst, maxItems);
    if !RolesKept(s, activeIsFirst, maxItems) {
      assert t.active == s.inactive && t.inactive == s.active;
      forall k | k in s.active && k in s.inactive
        ensures Lookup(t, k) == Lookup(s, k) <==> s.active[k] == s.inactive[k]
      {
      }
    }
  }

  ghost predicate OnlySetsAndGets<K, V>(ops: seq<Op<K, V>>) {
    forall op <- ops :: op.Set? || op.Get?
  }

  lemma {:induction false} HalfIsFullOrEmpty<K, V>(ops: seq<Op<K, V>>, maxItems: Positive)
    requires OnlySetsAndGets(ops)
    ensures |Run(ops, maxItems).inactive| == 0 || |Run(ops, maxItems).inactive| == maxItems
  {
    if ops != [] {
      var before, op := ops[..|ops| - 1], ops[|ops| - 1];
      assert op in ops && forall o <- before :: o in ops;
      HalfIsFullOrEmpty(before, maxItems);
      NeverAnOlderValue(before, maxItems);
      var s := Run(before, maxItems);
      if op.Set? { MoreKeys(s.active, op.key, op.value); }
      else if op.key in s.inactive { MoreKeys(s.active, op.key, s.inactive[op.key]); }
    }
  }

  /** A store that nothing was removed from loses nothing by being reopened: its inactive half is full, or empty. */
  lemma ReopenIsLosslessWithoutRemovals<K, V>(ops: seq<Op<K, V>>, activeIsFirst: bool, maxItems: Positive, k: K)
    requires OnlySetsAndGets(ops)
    ensures Lookup(Reopen(Run(ops, maxItems), activeIsFirst, maxItems), k) == Lookup(Run(ops, maxItems), k)
  {
    HalfIsFullOrEmpty(ops, maxItems);
    NeverAnOlderValue(ops, maxItems);
  }

  /** After a removal the inactive half is no longer full, and reopening can return an older value. */
  lemma ReopenAfterRemovalIsStale<K(!new), V>(a: K, b: K, c: K, first: V, second: V)
    requires a != b && b != c && a != c && first != second
    ensures var ops := [Set(a, first), Set(b, first), Set(c, first), Set(a, second), Remove(b)];
            && Lookup(Run(ops, 3), a) == Some(second)
            && Lookup(Reopen(Run(ops, 3), false, 3), a) == Some(first)
  {
    var three := [Set(a, first), Set(b, first), Set(c, first)];
    var four := three + [Set(a, second)];
    assert [Set(a, first), Set(b, first), Set(c, first), Set(a, second), Remove(b)] == four + [Remove(b)];
    ThreeSetsSwap(a, b, c, first);
    var full := map[a := first, b := first, c := first];
    RunOne(three, Set(a, second), 3);
    MoreKeys(map[], a, second);
    assert Run(four, 3) == Store(map[a := second], full, 1);
    RunOne(four, Remove(b), 3);
    assert map[a := second] - {b} == map[a := second];
    MoreKeys(full - {b}, b, first);
    assert (full - {b})[b := first] == full;
  }

  lemma RunOne<K, V>(ops: seq<Op<K, V>>, op: Op<K, V>, maxItems: Positive)
    ensures Run(ops + [op], maxItems) == Step(Run(ops, maxItems), op, maxItems)
  {
    assert (ops + [op])[..|ops|] == ops;
  }

  lemma ThreeSetsSwap<K, V>(a: K, b: K, c: K, v: V)
    requires a != b && b != c && a != c
    ensures Run([Set(a, v), Set(b, v), Set(c, v)], 3) == Store(map[], map[a := v, b := v, c := v], 0)
    ensures |map[a := v, b := v, c := v]| == 3
  {
    var one, two: seq<Op<K, V>> := [Set(a, v)], [Set(a, v), Set(b, v)];
    assert [] + one == one && one + [Set(b, v)] == two && two + [Set(c, v)] == [Set(a, v), Set(b, v), Set(c, v)];
    RunOne([], Set(a, v), 3);
    RunOne(one, Set(b, v), 3);
    RunOne(two, Set(c, v), 3);
    MoreKeys(map[], a, v);
    MoreKeys(map[a := v], b, v);
    MoreKeys(map[a := v, b := v], c, v);
  }
}
