/** How large the two halves can grow while calls overlap. */
module LruSizes {
  import opened Wrappers
  import opened Bundles
  import Lru
  import opened LruInterleaving

  // ---- calls by kind ----

  datatype Kind = Counting | AnyLength | ShortLength(below: nat)

  /** A call waiting to count a key it wrote, or waiting for a length; possibly one that will not swap. */
  predicate Is<K, V>(c: Call<K, V>, kind: Kind) {
    match kind
    case Counting => c.Growing?
    case AnyLength => c.Measuring?
    case ShortLength(n) => c.Measuring? && c.length < n
  }

  function Ids<K, V>(calls: map<nat, Call<K, V>>, kind: Kind): set<nat> {
    set id | id in calls && Is(calls[id], kind)
  }

  function Among<K, V>(calls: map<nat, Call<K, V>>, kind: Kind): nat {
    |Ids(calls, kind)|
  }

  function One(b: bool): nat {
    if b then 1 else 0
  }

  lemma AmongEnded<K, V>(calls: map<nat, Call<K, V>>, id: nat, kind: Kind)
    requires id in calls
    ensures Among(calls - {id}, kind) == Among(calls, kind) - One(Is(calls[id], kind))
    ensures |calls - {id}| == |calls| - 1
  {
    assert Ids(calls - {id}, kind) == Ids(calls, kind) - {id};
    assert (calls - {id}).Keys == calls.Keys - {id};
  }

  lemma BegunIds<K, V>(calls: map<nat, Call<K, V>>, id: nat, c: Call<K, V>, kind: Kind)
    ensures Ids(calls[id := c], kind) == (Ids(calls, kind) - {id}) + if Is(c, kind) then {id} else {}
  {
  }

  lemma AmongBegun<K, V>(calls: map<nat, Call<K, V>>, id: nat, c: Call<K, V>, kind: Kind)
    ensures Among(calls[id := c], kind) == Among(calls, kind) - One(id in calls && Is(calls[id], kind)) + One(Is(c, kind))
  {
    BegunIds(calls, id, c, kind);
    var ids, rest := Ids(calls, kind), Ids(calls, kind) - {id};
    assert |rest| == |ids| - One(id in ids);
  }

  lemma AmongFits<K, V>(calls: map<nat, Call<K, V>>, below: nat)
    ensures Among(calls, Counting) + Among(calls, AnyLength) <= |calls|
    ensures Among(calls, ShortLength(below)) <= Among(calls, AnyLength)
  {
    assert Ids(calls, Counting) !! Ids(calls, AnyLength);
    Lru.SubsetSize(Ids(calls, Counting) + Ids(calls, AnyLength), calls.Keys);
    Lru.SubsetSize(Ids(calls, ShortLength(below)), Ids(calls, AnyLength));
  }

  /** The keys about to be rewritten, and not counted, because they were there when their call began. */
  function Rewriting<K(==), V>(calls: map<nat, Call<K, V>>): set<K> {
    set id | id in calls && calls[id].Writing? && calls[id].existing :: calls[id].key
  }

  lemma {:induction false} RewritingFits<K, V>(calls: map<nat, Call<K, V>>)
    ensures |Rewriting(calls)| <= |calls|
    decreases |calls|
  {
    if calls == map[] {
      assert Rewriting(calls) == {};
    } else {
      var id :| id in calls;
      var rest := calls - {id};
      AmongEnded(calls, id, Counting);
      RewritingFits(rest);
      var c := calls[id];
      assert forall j :: j in calls <==> j == id || j in rest;
      if c.Writing? && c.existing {
        assert Rewriting(calls) == Rewriting(rest) + {c.key};
      } else {
        assert Rewriting(calls) == Rewriting(rest);
      }
    }
  }

  /** What the active half holds, or may hold without its being counted. */
  function Reach<K(==), V>(s: State<K, V>): set<K> {
    s.store.active.Keys + Rewriting(s.calls)
  }

  // ---- a bound on every run ----

  function Limit(maxItems: Positive, overlap: nat): nat {
    maxItems + overlap
  }

  /** `n` times `x`. */
  function Times(n: nat, x: nat): nat {
    if n == 0 then 0 else Times(n - 1, x) + x
  }

  lemma {:induction false} TimesGrows(m: nat, n: nat, x: nat)
    requires m <= n
    ensures Times(m, x) <= Times(n, x)
  {
    if m < n { TimesGrows(m, n - 1, x); }
  }

  lemma {:induction false} TimesIsProduct(n: nat, x: nat)
    ensures Times(n, x) == n * x
  {
    if n > 0 {
      TimesIsProduct(n - 1, x);
      assert (n - 1) * x + x == n * x;
    }
  }

  function Bound(maxItems: Positive, overlap: nat): nat {
    Limit(maxItems, overlap) + Times(overlap, Limit(maxItems, overlap)) + overlap
  }

  /** The numbers that matter: the calls by kind, the reach of the active half, its counter, and the inactive half. */
  datatype Sizes = Sizes(calls: nat, counting: nat, lengths: nat, short: nat, reach: nat, counter: nat, inactive: nat)

  function SizesOf<K(==), V>(s: State<K, V>, maxItems: Positive): Sizes {
    Sizes(|s.calls|, Among(s.calls, Counting), Among(s.calls, AnyLength), Among(s.calls, ShortLength(maxItems)),
          |Reach(s)|, s.store.activeSize, |s.store.inactive|)
  }

  /**
   At most `overlap` calls are under way, and each that still holds a short length can put the counter
   back by no more than `Limit`.
   */
  predicate Fits(z: Sizes, maxItems: Positive, overlap: nat) {
    && z.short <= z.lengths && z.counting + z.lengths <= z.calls <= overlap
    && z.counter < maxItems + z.lengths
    && z.reach <= z.counter + z.counting + overlap + Times(overlap - z.short, Limit(maxItems, overlap))
    && z.inactive <= Bound(maxItems, overlap)
  }

  lemma FitsIsBounded(z: Sizes, maxItems: Positive, overlap: nat)
    requires Fits(z, maxItems, overlap)
    ensures z.reach <= Bound(maxItems, overlap)
  {
    TimesGrows(overlap - z.short, overlap, Limit(maxItems, overlap));
  }

  lemma SizesAgree<K, V>(s: State<K, V>, maxItems: Positive)
    ensures var z := SizesOf(s, maxItems); z.short <= z.lengths && z.counting + z.lengths <= z.calls
    ensures |s.store.active| <= |Reach(s)| <= |s.store.active| + |s.calls|
  {
    AmongFits(s.calls, maxItems);
    RewritingFits(s.calls);
    UnionSize(s.store.active.Keys, Rewriting(s.calls));
  }

  lemma UnionSize<T>(a: set<T>, b: set<T>)
    ensures |a| <= |a + b| <= |a| + |b|
  {
    Lru.SubsetSize(a, a + b);
    assert a + b == a + (b - a);
    Lru.SubsetSize(b - a, b);
  }

  /** A call's next step, by its numbers. */
  lemma CallsBegun<K, V>(s: State<K, V>, t: State<K, V>, id: nat, c: Call<K, V>, maxItems: Positive)
    requires t.calls == s.calls[id := c]
    ensures var was, z := SizesOf(s, maxItems), SizesOf(t, maxItems);
            && z.calls == was.calls + One(id !in s.calls)
            && z.counting == was.counting - One(id in s.calls && s.calls[id].Growing?) + One(c.Growing?)
            && z.lengths == was.lengths - One(id in s.calls && s.calls[id].Measuring?) + One(c.Measuring?)
            && z.short == was.short - One(id in s.calls && Is(s.calls[id], ShortLength(maxItems))) + One(Is(c, ShortLength(maxItems)))
  {
    AmongBegun(s.calls, id, c, Counting);
    AmongBegun(s.calls, id, c, AnyLength);
    AmongBegun(s.calls, id, c, ShortLength(maxItems));
    assert s.calls[id := c].Keys == s.calls.Keys + {id};
  }

  lemma CallsEnded<K, V>(s: State<K, V>, t: State<K, V>, id: nat, maxItems: Positive)
    requires id in s.calls && t.calls == s.calls - {id}
    ensures var was, z := SizesOf(s, maxItems), SizesOf(t, maxItems);
            && z.calls == was.calls - 1
            && z.counting == was.counting - One(s.calls[id].Growing?)
            && z.lengths == was.lengths - One(s.calls[id].Measuring?)
            && z.short == was.short - One(Is(s.calls[id], ShortLength(maxItems)))
  {
    AmongEnded(s.calls, id, Counting);
    AmongEnded(s.calls, id, AnyLength);
    AmongEnded(s.calls, id, ShortLength(maxItems));
  }

  // ---- what each step does to the reach ----

  lemma BeginReach<K, V>(s: State<K, V>, id: nat, c: Call<K, V>)
    requires c.Older? || c.Promoting? || (c.Writing? && c.existing == (c.key in s.store.active))
    requires id in s.calls ==> s.calls[id].Older? || s.calls[id].Promoting?
    ensures |Reach(Begin(s, id, c))| <= |Reach(s)|
  {
    var t := Begin(s, id, c);
    forall k | k in Rewriting(t.calls) ensures k in Reach(s) {
      var j :| j in t.calls && t.calls[j].Writing? && t.calls[j].existing && t.calls[j].key == k;
      assert j != id ==> j in s.calls && s.calls[j] == t.calls[j];
    }
    Lru.SubsetSize(Reach(t), Reach(s));
  }

  /** A write ends what it was rewriting, and rewrites nothing else. */
  lemma WriteRewrites<K, V>(s: State<K, V>, id: nat, t: State<K, V>)
    requires id in s.calls && s.calls[id].Writing?
    requires t.calls == s.calls - {id} || t.calls == s.calls[id := Growing]
    ensures Rewriting(t.calls) <= Rewriting(s.calls)
    ensures s.calls[id].existing ==> s.calls[id].key in Rewriting(s.calls)
  {
    assert forall j :: j in t.calls && t.calls[j].Writing? ==> j in s.calls && s.calls[j] == t.calls[j];
  }

  /** A write reaches one key more, unless it rewrites one that was there when its call began. */
  lemma WriteReach<K, V>(s: State<K, V>, id: nat, t: State<K, V>)
    requires id in s.calls && s.calls[id].Writing?
    requires var c := s.calls[id];
             t.store == Lru.Written(s.store, c.key, c.value)
             && t.calls == if c.existing then s.calls - {id} else s.calls[id := Growing]
    ensures |Reach(t)| <= |Reach(s)| + One(!s.calls[id].existing)
  {
    var c := s.calls[id];
    WriteRewrites(s, id, t);
    OneMoreKey(Reach(t), Reach(s), c.key);
  }

  lemma OneMoreKey<K>(t: set<K>, s: set<K>, k: K)
    requires t <= s + {k}
    ensures |t| <= |s| + One(k !in s)
  {
    Lru.SubsetSize(t, s + {k});
    if k in s { assert s + {k} == s; }
  }

  /** Steps that neither begin nor end a write leave the keys being rewritten as they are. */
  lemma SameRewriting<K, V>(s: State<K, V>, id: nat, t: State<K, V>)
    requires id in s.calls && !s.calls[id].Writing?
    requires t.calls == s.calls - {id} || (id in t.calls && !t.calls[id].Writing? && t.calls == s.calls[id := t.calls[id]])
    ensures Rewriting(t.calls) == Rewriting(s.calls)
  {
    assert forall j :: j in t.calls && t.calls[j].Writing? ==> j != id && j in s.calls && s.calls[j] == t.calls[j];
    assert forall j :: j in s.calls && s.calls[j].Writing? ==> j != id && j in t.calls && s.calls[j] == t.calls[j];
  }

  lemma SameReach<K, V>(s: State<K, V>, id: nat, t: State<K, V>)
    requires id in s.calls && !s.calls[id].Writing? && t.store.active == s.store.active
    requires t.calls == s.calls - {id} || (id in t.calls && !t.calls[id].Writing? && t.calls == s.calls[id := t.calls[id]])
    ensures Reach(t) == Reach(s)
  {
    SameRewriting(s, id, t);
  }

  lemma FewerReach<K, V>(s: State<K, V>, t: State<K, V>)
    requires t.calls == s.calls && t.store.active.Keys <= s.store.active.Keys && t.store.inactive.Keys <= s.store.inactive.Keys
    ensures |Reach(t)| <= |Reach(s)| && |t.store.inactive| <= |s.store.inactive|
  {
    Lru.SubsetSize(Reach(t), Reach(s));
    Lru.SubsetSize(t.store.inactive.Keys, s.store.inactive.Keys);
  }

  // ---- what each step does to the numbers ----

  lemma WriteFits(was: Sizes, z: Sizes, counted: bool, maxItems: Positive, overlap: nat)
    requires Fits(was, maxItems, overlap)
    requires z.short == was.short && z.lengths == was.lengths && z.counter == was.counter && z.inactive == was.inactive
    requires z.counting == was.counting + One(counted) && z.calls == was.calls - One(!counted) && z.counting + z.lengths <= z.calls
    requires z.reach <= was.reach + One(counted)
    ensures Fits(z, maxItems, overlap)
  {
  }

  /** Counting: where a length is asked for and it is short, the half is no larger than that. */
  lemma CountFits(was: Sizes, z: Sizes, asked: bool, short: bool, maxItems: Positive, overlap: nat)
    requires Fits(was, maxItems, overlap) && was.counting > 0 && (short ==> asked)
    requires z.counter == was.counter + 1 && (asked <==> z.counter >= maxItems) && z.inactive == was.inactive && z.reach == was.reach
    requires z.counting == was.counting - 1 && z.lengths == was.lengths + One(asked) && z.short == was.short + One(short)
    requires z.calls == was.calls - One(!asked) && z.short <= z.lengths && z.counting + z.lengths <= z.calls
    requires short ==> z.reach < maxItems + overlap
    ensures Fits(z, maxItems, overlap)
  {
  }

  lemma MeasureFits(was: Sizes, z: Sizes, swaps: bool, n: nat, maxItems: Positive, overlap: nat)
    requires Fits(was, maxItems, overlap) && was.lengths > 0 && (swaps <==> n >= maxItems)
    requires z.counting == was.counting && z.lengths == was.lengths - 1 && z.short == was.short - One(!swaps) && z.calls == was.calls - 1
    requires z.short <= z.lengths && z.counting + z.lengths <= z.calls
    requires if swaps then z.counter == 0 && z.reach <= overlap && z.inactive <= was.reach
             else z.counter == n && z.reach == was.reach && z.inactive == was.inactive
    ensures Fits(z, maxItems, overlap)
  {
    FitsIsBounded(was, maxItems, overlap);
  }

  ghost predicate Held<K, V>(s: State<K, V>, maxItems: Positive, overlap: nat) {
    Fits(SizesOf(s, maxItems), maxItems, overlap)
  }

  lemma NoLarger(was: Sizes, z: Sizes, maxItems: Positive, overlap: nat)
    requires Fits(was, maxItems, overlap) && z.counting + z.lengths <= z.calls <= overlap
    requires z.short == was.short && z.counting == was.counting && z.lengths == was.lengths && z.counter == was.counter
    requires z.reach <= was.reach && z.inactive <= was.inactive
    ensures Fits(z, maxItems, overlap)
  {
  }

  lemma FewerKeepsHeld<K, V>(s: State<K, V>, t: State<K, V>, maxItems: Positive, overlap: nat)
    requires Held(s, maxItems, overlap) && t.calls == s.calls && t.store.activeSize == s.store.activeSize
    requires t.store.active.Keys <= s.store.active.Keys && t.store.inactive.Keys <= s.store.inactive.Keys
    ensures Held(t, maxItems, overlap)
  {
    FewerReach(s, t);
    NoLarger(SizesOf(s, maxItems), SizesOf(t, maxItems), maxItems, overlap);
  }

  lemma BeginKeepsHeld<K, V>(s: State<K, V>, id: nat, c: Call<K, V>, maxItems: Positive, overlap: nat)
    requires Held(s, maxItems, overlap) && |s.calls[id := c]| <= overlap
    requires c.Older? || c.Promoting? || (c.Writing? && c.existing == (c.key in s.store.active))
    requires id in s.calls ==> s.calls[id].Older? || s.calls[id].Promoting?
    ensures Held(Begin(s, id, c), maxItems, overlap)
  {
    CallsBegun(s, Begin(s, id, c), id, c, maxItems);
    BeginReach(s, id, c);
    SizesAgree(Begin(s, id, c), maxItems);
    NoLarger(SizesOf(s, maxItems), SizesOf(Begin(s, id, c), maxItems), maxItems, overlap);
  }

  lemma EndKeepsHeld<K, V>(s: State<K, V>, id: nat, maxItems: Positive, overlap: nat)
    requires Held(s, maxItems, overlap) && id in s.calls && s.calls[id].Older?
    ensures Held(End(s, id), maxItems, overlap)
  {
    CallsEnded(s, End(s, id), id, maxItems);
    SameReach(s, id, End(s, id));
    SizesAgree(End(s, id), maxItems);
    NoLarger(SizesOf(s, maxItems), SizesOf(End(s, id), maxItems), maxItems, overlap);
  }

  lemma WriteKeepsHeld<K, V>(s: State<K, V>, id: nat, maxItems: Positive, overlap: nat)
    requires Held(s, maxItems, overlap) && id in s.calls && s.calls[id].Writing?
    ensures Held(AdvanceCall(s, id, s.calls[id], maxItems), maxItems, overlap)
  {
    var t := AdvanceCall(s, id, s.calls[id], maxItems);
    WriteReach(s, id, t);
    SizesAgree(t, maxItems);
    if s.calls[id].existing { CallsEnded(s, t, id, maxItems); }
    else { CallsBegun(s, t, id, Growing, maxItems); }
    WriteFits(SizesOf(s, maxItems), SizesOf(t, maxItems), !s.calls[id].existing, maxItems, overlap);
  }

  lemma CountKeepsHeld<K, V>(s: State<K, V>, id: nat, maxItems: Positive, overlap: nat)
    requires Held(s, maxItems, overlap) && id in s.calls && s.calls[id].Growing?
    ensures Held(AdvanceCall(s, id, s.calls[id], maxItems), maxItems, overlap)
  {
    var t, length := AdvanceCall(s, id, s.calls[id], maxItems), |s.store.active|;
    var asked := s.store.activeSize + 1 >= maxItems;
    SameReach(s, id, t);
    SizesAgree(s, maxItems);
    SizesAgree(t, maxItems);
    if asked { CallsBegun(s, t, id, Measuring(length), maxItems); }
    else { CallsEnded(s, t, id, maxItems); }
    assert id in Ids(s.calls, Counting);
    CountFits(SizesOf(s, maxItems), SizesOf(t, maxItems), asked, asked && length < maxItems, maxItems, overlap);
  }

  lemma MeasureKeepsHeld<K, V>(s: State<K, V>, id: nat, maxItems: Positive, overlap: nat)
    requires Held(s, maxItems, overlap) && id in s.calls && s.calls[id].Measuring?
    ensures Held(AdvanceCall(s, id, s.calls[id], maxItems), maxItems, overlap)
  {
    var t, n := AdvanceCall(s, id, s.calls[id], maxItems), s.calls[id].length;
    CallsEnded(s, t, id, maxItems);
    SizesAgree(s, maxItems);
    SizesAgree(t, maxItems);
    if n < maxItems { SameReach(s, id, t); }
    assert id in Ids(s.calls, AnyLength);
    MeasureFits(SizesOf(s, maxItems), SizesOf(t, maxItems), n >= maxItems, n, maxItems, overlap);
  }

  lemma StepKeepsHeld<K, V>(s: State<K, V>, op: Op<K, V>, maxItems: Positive, overlap: nat)
    requires Held(s, maxItems, overlap) && |Step(s, op, maxItems).calls| <= overlap
    ensures Held(Step(s, op, maxItems), maxItems, overlap)
  {
    match op
    case Set(id, k, v) => if id !in s.calls { BeginKeepsHeld(s, id, Writing(k, v, k in s.store.active, false), maxItems, overlap); }
    case Get(id, k) => if id !in s.calls && k !in s.store.active { BeginKeepsHeld(s, id, Older(k), maxItems, overlap); }
    case Remove(k) => FewerKeepsHeld(s, Step(s, op, maxItems), maxItems, overlap);
    case Clear => FewerKeepsHeld(s, Step(s, op, maxItems), maxItems, overlap);
    case Advance(id) => if id in s.calls { AdvanceKeepsHeld(s, id, maxItems, overlap); }
  }

  lemma AdvanceKeepsHeld<K, V>(s: State<K, V>, id: nat, maxItems: Positive, overlap: nat)
    requires Held(s, maxItems, overlap) && id in s.calls && |AdvanceCall(s, id, s.calls[id], maxItems).calls| <= overlap
    ensures Held(AdvanceCall(s, id, s.calls[id], maxItems), maxItems, overlap)
  {
    var c := s.calls[id];
    match c
    case Older(k) =>
      if k in s.store.inactive { BeginKeepsHeld(s, id, Promoting(k, s.store.inactive[k]), maxItems, overlap); }
      else { EndKeepsHeld(s, id, maxItems, overlap); }
    case Promoting(k, v) => BeginKeepsHeld(s, id, Writing(k, v, k in s.store.active, true), maxItems, overlap);
    case Writing(_, _, _, _) => WriteKeepsHeld(s, id, maxItems, overlap);
    case Growing => CountKeepsHeld(s, id, maxItems, overlap);
    case Measuring(_) => MeasureKeepsHeld(s, id, maxItems, overlap);
  }

  /** No more than `overlap` calls are ever under way at once. */
  ghost predicate AtMost<K, V>(ops: seq<Op<K, V>>, overlap: nat, maxItems: Positive) {
    |Run(ops, maxItems).calls| <= overlap && (ops != [] ==> AtMost(ops[..|ops| - 1], overlap, maxItems))
  }

  lemma {:induction false} EveryRunHeld<K, V>(ops: seq<Op<K, V>>, overlap: nat, maxItems: Positive)
    requires AtMost(ops, overlap, maxItems)
    ensures Held(Run(ops, maxItems), maxItems, overlap)
  {
    if ops == [] {
      var s := Run(ops, maxItems);
      assert Reach(s) == {};
      assert Ids(s.calls, Counting) == Ids(s.calls, AnyLength) == Ids(s.calls, ShortLength(maxItems)) == {};
    } else {
      EveryRunHeld(ops[..|ops| - 1], overlap, maxItems);
      StepKeepsHeld(Run(ops[..|ops| - 1], maxItems), ops[|ops| - 1], maxItems, overlap);
    }
  }

  /**
   On every run, however its calls overlap: the counter is below `maxItems` plus the calls waiting for a
   length, and neither half ever holds more than a bound given by `maxItems` and the most calls under way.
   */
  lemma SizesAreBounded<K, V>(ops: seq<Op<K, V>>, overlap: nat, maxItems: Positive)
    requires AtMost(ops, overlap, maxItems)
    ensures var s := Run(ops, maxItems);
            && s.store.activeSize < maxItems + Among(s.calls, AnyLength)
            && |s.store.active| <= (overlap + 1) * (maxItems + overlap) + overlap
            && |s.store.inactive| <= (overlap + 1) * (maxItems + overlap) + overlap
  {
    EveryRunHeld(ops, overlap, maxItems);
    FitsIsBounded(SizesOf(Run(ops, maxItems), maxItems), maxItems, overlap);
    SizesAgree(Run(ops, maxItems), maxItems);
    TimesIsProduct(overlap, Limit(maxItems, overlap));
    assert (overlap + 1) * (maxItems + overlap) == overlap * (maxItems + overlap) + (maxItems + overlap);
  }
}
