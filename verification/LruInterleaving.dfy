/**
 The same cache with its calls overlapping. A set is cut at its awaits: it reads whether the key is in
 the active half, writes the key into what is the active half then, counts it, and, at the limit, measures
 the half it may then swap. Calls go on in any order; each database operation takes effect when issued.
 */
module LruInterleaving {
  import opened Wrappers
  import opened Bundles
  import Lru
  import Runs

  /** A call under way, by what it does next. */
  datatype Call<K, V> =
    | Older(key: K)
    | Promoting(key: K, value: V)
    | Writing(key: K, value: V, existing: bool, promotes: bool)
    | Growing
    | Measuring(length: nat)

  datatype State<K, V> = State(store: Lru.Store<K, V>, calls: map<nat, Call<K, V>>)

  /** A set or a get begins with its first read; `Advance` is the next step of a call. */
  datatype Op<K, V> =
    | Set(id: nat, key: K, value: V)
    | Get(id: nat, key: K)
    | Remove(key: K)
    | Clear
    | Advance(id: nat)

  function Begin<K, V>(s: State<K, V>, id: nat, c: Call<K, V>): State<K, V> {
    s.(calls := s.calls[id := c])
  }

  function End<K, V>(s: State<K, V>, id: nat): State<K, V> {
    s.(calls := s.calls - {id})
  }

  function AdvanceCall<K, V>(s: State<K, V>, id: nat, c: Call<K, V>, maxItems: Positive): State<K, V> {
    match c
    case Older(k) => if k in s.store.inactive then Begin(s, id, Promoting(k, s.store.inactive[k])) else End(s, id)
    case Promoting(k, v) => Begin(s, id, Writing(k, v, k in s.store.active, true))
    case Writing(k, v, existing, _) =>
      var t := s.(store := Lru.Written(s.store, k, v));
      if existing then End(t, id) else Begin(t, id, Growing)
    case Growing =>
      var t := s.(store := Lru.Counted(s.store));
      if t.store.activeSize < maxItems then End(t, id) else Begin(t, id, Measuring(|t.store.active|))
    case Measuring(n) => End(s.(store := Lru.Measured(s.store, n, maxItems)), id)
  }

  function Step<K, V>(s: State<K, V>, op: Op<K, V>, maxItems: Positive): State<K, V> {
    match op
    case Set(id, k, v) => if id in s.calls then s else Begin(s, id, Writing(k, v, k in s.store.active, false))
    case Get(id, k) => if id in s.calls || k in s.store.active then s else Begin(s, id, Older(k))
    case Remove(k) => s.(store := Lru.RemoveItem(s.store, k))
    case Clear => s.(store := s.store.(active := map[], inactive := map[]))
    case Advance(id) => if id in s.calls then AdvanceCall(s, id, s.calls[id], maxItems) else s
  }

  function Run<K, V>(ops: seq<Op<K, V>>, maxItems: Positive): State<K, V> {
    if ops == [] then State(Lru.Empty(), map[])
    else Step(Run(ops[..|ops| - 1], maxItems), ops[|ops| - 1], maxItems)
  }

  lemma RunOne<K, V>(ops: seq<Op<K, V>>, op: Op<K, V>, maxItems: Positive)
    ensures Run(ops + [op], maxItems) == Step(Run(ops, maxItems), op, maxItems)
  {
    assert (ops + [op])[..|ops|] == ops;
  }

  /** Counting and, if it comes to that, measuring are the rest of a set of a new key. */
  lemma CountAloneIsGrow<K, V>(s: State<K, V>, id: nat, maxItems: Positive)
    requires id !in s.calls
    ensures var t := Step(Begin(s, id, Growing), Advance(id), maxItems);
            Step(t, Advance(id), maxItems) == s.(store := Lru.Grow(s.store, maxItems))
  {
    var calls: map<nat, Call<K, V>> := s.calls[id := Growing];
    assert calls - {id} == s.calls;
    assert calls[id := Measuring(|s.store.active|)] - {id} == s.calls;
  }

  /** A set left alone is the atomic one. */
  lemma SetAloneIsAtomic<K, V>(s: State<K, V>, id: nat, k: K, v: V, maxItems: Positive)
    requires id !in s.calls
    ensures var t := Step(Step(s, Set(id, k, v), maxItems), Advance(id), maxItems);
            var u := Step(Step(t, Advance(id), maxItems), Advance(id), maxItems);
            u == s.(store := Lru.SetItem(s.store, k, v, maxItems))
  {
    var t := Step(Step(s, Set(id, k, v), maxItems), Advance(id), maxItems);
    var written := s.(store := Lru.Written(s.store, k, v));
    var calls: map<nat, Call<K, V>> := s.calls[id := Writing(k, v, k in s.store.active, false)];
    assert calls - {id} == s.calls && calls[id := Growing] == s.calls[id := Growing];
    assert t == if k in s.store.active then written else Begin(written, id, Growing);
    CountAloneIsGrow(written, id, maxItems);
  }

  /** A get left alone is the atomic one: a hit in the older half is promoted, in the steps of a set. */
  lemma GetAloneIsAtomic<K, V>(s: State<K, V>, id: nat, k: K, maxItems: Positive)
    requires id !in s.calls
    ensures var t := Step(Step(s, Get(id, k), maxItems), Advance(id), maxItems);
            var u := Step(Step(t, Advance(id), maxItems), Advance(id), maxItems);
            Step(Step(u, Advance(id), maxItems), Advance(id), maxItems) == s.(store := Lru.GetItem(s.store, k, maxItems))
  {
    var t := Step(Step(s, Get(id, k), maxItems), Advance(id), maxItems);
    if k !in s.store.active && k in s.store.inactive {
      var v := s.store.inactive[k];
      assert t == Begin(s, id, Promoting(k, v)) by {
        assert s.calls[id := Older(k)][id := Promoting(k, v)] == s.calls[id := Promoting(k, v)];
      }
      assert Step(t, Advance(id), maxItems) == Begin(s, id, Writing(k, v, false, true)) by {
        assert s.calls[id := Promoting(k, v)][id := Writing(k, v, false, true)] == s.calls[id := Writing(k, v, false, true)];
      }
      WriteAloneIsSet(s, id, k, v, true, maxItems);
    } else {
      assert t == s by {
        assert s.calls[id := Older(k)] - {id} == s.calls;
      }
    }
  }

  lemma WriteAloneIsSet<K, V>(s: State<K, V>, id: nat, k: K, v: V, promotes: bool, maxItems: Positive)
    requires id !in s.calls
    ensures var t := Step(Begin(s, id, Writing(k, v, k in s.store.active, promotes)), Advance(id), maxItems);
            Step(Step(t, Advance(id), maxItems), Advance(id), maxItems) == s.(store := Lru.SetItem(s.store, k, v, maxItems))
  {
    var written := s.(store := Lru.Written(s.store, k, v));
    var calls: map<nat, Call<K, V>> := s.calls[id := Writing(k, v, k in s.store.active, promotes)];
    assert calls - {id} == s.calls && calls[id := Growing] == s.calls[id := Growing];
    CountAloneIsGrow(written, id, maxItems);
  }

  // ---- which value is found ----

  /** The plain map after one step: a set's write gives its key a value, and a promotion's changes nothing. */
  function Remember<K, V>(s: State<K, V>, m: map<K, V>, op: Op<K, V>): map<K, V> {
    match op
    case Remove(k) => m - {k}
    case Clear => map[]
    case Advance(id) =>
      if id in s.calls && s.calls[id].Writing? && !s.calls[id].promotes then m[s.calls[id].key := s.calls[id].value] else m
    case Set(_, _, _) => m
    case Get(_, _) => m
  }

  /** The value each key was last given by a set, in the order of the writes. */
  function Plain<K, V>(ops: seq<Op<K, V>>, maxItems: Positive): map<K, V> {
    if ops == [] then map[]
    else Remember(Run(ops[..|ops| - 1], maxItems), Plain(ops[..|ops| - 1], maxItems), ops[|ops| - 1])
  }

  /** A promotion about to write a value that is no longer its key's. */
  predicate Resurrects<K, V(==)>(s: State<K, V>, m: map<K, V>, op: Op<K, V>) {
    && op.Advance? && op.id in s.calls && s.calls[op.id].Writing? && s.calls[op.id].promotes
    && !(s.calls[op.id].key in m && m[s.calls[op.id].key] == s.calls[op.id].value)
  }

  lemma WriteAgrees<K, V>(s: Lru.Store<K, V>, m: map<K, V>, k: K, v: V)
    requires Lru.Agrees(s, m)
    ensures Lru.Agrees(Lru.Written(s, k, v), m[k := v])
    ensures Lru.Agrees(Lru.Written(s, k, v), m) <==> k in m && m[k] == v
  {
    assert k in Lru.Written(s, k, v).active;
  }

  lemma AdvanceAgrees<K, V>(s: State<K, V>, m: map<K, V>, id: nat, maxItems: Positive)
    requires id in s.calls && !s.calls[id].Writing? && Lru.Agrees(s.store, m)
    ensures Lru.Agrees(AdvanceCall(s, id, s.calls[id], maxItems).store, m)
  {
  }

  /** What is found stays what was last set, except exactly by a promotion that comes too late. */
  lemma StepAgreesExactly<K, V>(s: State<K, V>, m: map<K, V>, op: Op<K, V>, maxItems: Positive)
    requires Lru.Agrees(s.store, m)
    ensures Lru.Agrees(Step(s, op, maxItems).store, Remember(s, m, op)) <==> !Resurrects(s, m, op)
  {
    if op.Advance? && op.id in s.calls {
      var c := s.calls[op.id];
      if c.Writing? { WriteAgrees(s.store, m, c.key, c.value); }
      else { AdvanceAgrees(s, m, op.id, maxItems); }
    }
  }

  ghost predicate AgreesAt<K, V>(ops: seq<Op<K, V>>, i: nat, maxItems: Positive) {
    i <= |ops| && Lru.Agrees(Run(ops[..i], maxItems).store, Plain(ops[..i], maxItems))
  }

  ghost predicate ResurrectsAt<K, V>(ops: seq<Op<K, V>>, i: nat, maxItems: Positive) {
    i < |ops| && Resurrects(Run(ops[..i], maxItems), Plain(ops[..i], maxItems), ops[i])
  }

  lemma OneMore<K, V>(ops: seq<Op<K, V>>, i: nat, maxItems: Positive)
    requires i < |ops|
    ensures Run(ops[..i + 1], maxItems) == Step(Run(ops[..i], maxItems), ops[i], maxItems)
    ensures Plain(ops[..i + 1], maxItems) == Remember(Run(ops[..i], maxItems), Plain(ops[..i], maxItems), ops[i])
  {
    assert ops[..i + 1][..i] == ops[..i];
  }

  lemma AgreesNext<K, V>(ops: seq<Op<K, V>>, i: nat, maxItems: Positive)
    requires i < |ops| && AgreesAt(ops, i, maxItems)
    ensures AgreesAt(ops, i + 1, maxItems) <==> !ResurrectsAt(ops, i, maxItems)
  {
    OneMore(ops, i, maxItems);
    StepAgreesExactly(Run(ops[..i], maxItems), Plain(ops[..i], maxItems), ops[i], maxItems);
  }

  /**
   However calls overlap: at every moment of a run each key is found with the value last written for it, or
   not at all, if and only if no promotion of the run writes a value that its key has lost meanwhile.
   */
  lemma LatestValueExactly<K, V>(ops: seq<Op<K, V>>, maxItems: Positive)
    ensures (forall i: nat :: i <= |ops| ==> AgreesAt(ops, i, maxItems))
            <==> forall i: nat :: i < |ops| ==> !ResurrectsAt(ops, i, maxItems)
    ensures forall i: nat, k :: i <= |ops| && AgreesAt(ops, i, maxItems) && Lru.Lookup(Run(ops[..i], maxItems).store, k).Some?
              ==> k in Plain(ops[..i], maxItems) && Lru.Lookup(Run(ops[..i], maxItems).store, k).value == Plain(ops[..i], maxItems)[k]
  {
    var holds, breaks := (i: nat) => AgreesAt(ops, i, maxItems), (i: nat) => ResurrectsAt(ops, i, maxItems);
    assert ops[..0] == [];
    forall i: nat | i < |ops| && holds(i) ensures holds(i + 1) <==> !breaks(i) { AgreesNext(ops, i, maxItems); }
    Runs.ThroughoutExactly(holds, breaks, |ops|);
    assert forall i: nat | i <= |ops| :: holds(i) == AgreesAt(ops, i, maxItems);
    assert forall i: nat | i < |ops| :: breaks(i) == ResurrectsAt(ops, i, maxItems);
  }
}
