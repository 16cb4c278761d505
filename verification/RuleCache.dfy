/** The memo a rule computes through: bounded, never overwriting, and read many keys at once. */
module RuleCaches {
  import opened Wrappers
  import opened Sequences
  import Fifo

  /** A key within an epoch. */
  datatype Slot<K> = Slot(key: K, epoch: nat)

  // ---- which keys are read ----

  /** Each key once, where it first occurs. */
  function FirstSeen<K(==)>(keys: seq<K>): seq<K> {
    if keys == [] then []
    else
      var most, last := FirstSeen(keys[..|keys| - 1]), keys[|keys| - 1];
      if last in most then most else most + [last]
  }

  /** The keys nothing is stored for, in order. */
  function Missing<K(==), V>(keys: seq<K>, epoch: nat, stored: map<Slot<K>, V>): seq<K> {
    if keys == [] then []
    else
      var most, last := Missing(keys[..|keys| - 1], epoch, stored), keys[|keys| - 1];
      if Slot(last, epoch) in stored then most else most + [last]
  }

  lemma {:induction false} FirstSeenElements<K(!new)>(keys: seq<K>)
    ensures Distinct(FirstSeen(keys)) && forall k :: k in FirstSeen(keys) <==> k in keys
  {
    if keys != [] {
      var n := |keys| - 1;
      FirstSeenElements(keys[..n]);
      assert keys == keys[..n] + [keys[n]];
    }
  }

  /** In the order in which the keys first occur. */
  lemma {:induction false} FirstSeenInOrder<K(!new)>(keys: seq<K>, i: nat, j: nat)
    requires i < j < |FirstSeen(keys)|
    ensures exists p: nat :: p < |keys| && keys[p] == FirstSeen(keys)[i] && FirstSeen(keys)[j] !in keys[..p + 1]
  {
    var n := |keys| - 1;
    var most := FirstSeen(keys[..n]);
    FirstSeenElements(keys[..n]);
    if j < |most| {
      FirstSeenInOrder(keys[..n], i, j);
      var p: nat :| p < n && keys[..n][p] == most[i] && most[j] !in keys[..n][..p + 1];
      assert keys[..p + 1] == keys[..n][..p + 1] && keys[p] == most[i];
    } else {
      assert most[i] in keys[..n];
      var p: nat :| p < n && keys[..n][p] == most[i];
      assert keys[p] == most[i];
      assert forall x <- keys[..p + 1] :: x in keys[..n];
    }
  }

  lemma {:induction false} MissingElements<K(!new), V>(keys: seq<K>, epoch: nat, stored: map<Slot<K>, V>)
    requires Distinct(keys)
    ensures Distinct(Missing(keys, epoch, stored))
    ensures forall k :: k in Missing(keys, epoch, stored) <==> k in keys && Slot(k, epoch) !in stored
  {
    if keys != [] {
      var n := |keys| - 1;
      MissingElements(keys[..n], epoch, stored);
      assert keys == keys[..n] + [keys[n]];
      assert keys[n] !in keys[..n];
    }
  }

  // ---- the answers ----

  type Reader<!K, !V> = seq<K> -> Option<seq<V>>

  predicate Answers<K, V>(read: Reader<K, V>, asked: seq<K>) {
    asked == [] || (read(asked).Some? && |read(asked).value| == |asked|)
  }

  /** What position `j` gets: the stored value, or what the one read gave for its key. */
  ghost predicate ValueAt<K, V>(key: K, value: V, epoch: nat, stored: map<Slot<K>, V>, asked: seq<K>, read: Reader<K, V>)
    requires Answers(read, asked)
  {
    && (Slot(key, epoch) in stored ==> value == stored[Slot(key, epoch)])
    && (Slot(key, epoch) !in stored ==> exists m :: 0 <= m < |asked| && asked[m] == key && value == read(asked).value[m])
  }

  /** Everything stored afterwards was stored before, or was just read for its own key. */
  ghost predicate Grew<K, V>(before: map<Slot<K>, V>, after: map<Slot<K>, V>, epoch: nat, asked: seq<K>, read: Reader<K, V>)
    requires Answers(read, asked)
  {
    forall k <- after ::
      if k in before then after[k] == before[k]
      else k.epoch == epoch && exists m :: 0 <= m < |asked| && asked[m] == k.key && after[k] == read(asked).value[m]
  }

  // ---- what is held ----

  /** The entries, and the order in which they came. */
  datatype Contents<K(==), V> = Contents(byKey: map<Slot<K>, V>, order: seq<Slot<K>>)

  /** One value memoised: nothing changes if there is one already, and a full memo forgets its oldest. */
  function Put<K(==), V>(c: Contents<K, V>, k: Slot<K>, value: V, maxEntries: nat): Contents<K, V> {
    if k in c.byKey then c
    else if |c.order| + 1 > maxEntries then
      Contents(c.byKey[k := value] - {(c.order + [k])[0]}, (c.order + [k])[1..])
    else Contents(c.byKey[k := value], c.order + [k])
  }

  function PutAll<K(==), V>(c: Contents<K, V>, keys: seq<K>, epoch: nat, values: seq<V>, maxEntries: nat): Contents<K, V>
    requires |values| == |keys|
  {
    if keys == [] then c
    else
      var n := |keys| - 1;
      Put(PutAll(c, keys[..n], epoch, values[..n], maxEntries), Slot(keys[n], epoch), values[n], maxEntries)
  }

  /** The elements of `order` that are still kept, in order. */
  function Keeping<T(==)>(order: seq<T>, kept: set<T>): seq<T> {
    if order == [] then []
    else
      var n := |order| - 1;
      Keeping(order[..n], kept) + if order[n] in kept then [order[n]] else []
  }

  function Purged<K(==), V>(c: Contents<K, V>, epoch: nat, covers: K -> bool): Contents<K, V> {
    var kept := set s | s in c.byKey && !(covers(s.key) && s.epoch < epoch);
    Contents(map s | s in kept :: c.byKey[s], Keeping(c.order, kept))
  }

  /** The queue holds exactly the entries, each once, no more than fit. */
  ghost predicate WellKept<K(!new), V>(c: Contents<K, V>, maxEntries: nat) {
    Fifo.Bounded(c.order, maxEntries) && forall k :: k in c.byKey <==> k in c.order
  }

  /** The `p`-th entry is still there, with its value, and at most `n` more have come in behind it. */
  ghost predicate StillAt<K, V>(was: Contents<K, V>, now: Contents<K, V>, p: nat, n: nat)
    requires p < |was.order|
  {
    exists q: nat :: IsAt(was, now, p, q) && |now.order| - q <= |was.order| - p + n
  }

  ghost predicate IsAt<K, V>(was: Contents<K, V>, now: Contents<K, V>, p: nat, q: nat)
    requires p < |was.order|
  {
    && q < |now.order| && now.order[q] == was.order[p]
    && was.order[p] in was.byKey && now.order[q] in now.byKey && now.byKey[now.order[q]] == was.byKey[was.order[p]]
  }

  /** What `n` more entries cannot have pushed out has stayed. */
  ghost predicate Outlasts<K, V>(was: Contents<K, V>, now: Contents<K, V>, n: nat, maxEntries: nat) {
    forall p: nat | p < |was.order| && |was.order| - p + n <= maxEntries :: StillAt(was, now, p, n)
  }

  lemma OutlastsOn<K, V>(a: Contents<K, V>, b: Contents<K, V>, c: Contents<K, V>, m: nat, n: nat, maxEntries: nat)
    requires Outlasts(a, b, m, maxEntries) && Outlasts(b, c, n, maxEntries)
    ensures Outlasts(a, c, m + n, maxEntries)
  {
    var both := m + n;
    forall p: nat | p < |a.order| && |a.order| - p + both <= maxEntries ensures StillAt(a, c, p, both) {
      assert StillAt(a, b, p, m);
      var q: nat :| IsAt(a, b, p, q) && |b.order| - q <= |a.order| - p + m;
      assert StillAt(b, c, q, n);
      var r: nat :| IsAt(b, c, q, r) && |c.order| - r <= |b.order| - q + n;
      assert IsAt(a, c, p, r);
    }
  }

  lemma OutlastsMore<K, V>(a: Contents<K, V>, b: Contents<K, V>, m: nat, n: nat, maxEntries: nat)
    requires Outlasts(a, b, m, maxEntries) && m <= n
    ensures Outlasts(a, b, n, maxEntries)
  {
    forall p: nat | p < |a.order| && |a.order| - p + n <= maxEntries ensures StillAt(a, b, p, n) {
      assert StillAt(a, b, p, m);
      var q: nat :| IsAt(a, b, p, q) && |b.order| - q <= |a.order| - p + m;
      assert IsAt(a, b, p, q);
    }
  }

  lemma PutOutlasts<K(!new), V>(c: Contents<K, V>, k: Slot<K>, value: V, maxEntries: nat)
    requires WellKept(c, maxEntries)
    ensures WellKept(Put(c, k, value, maxEntries), maxEntries)
    ensures Outlasts(c, Put(c, k, value, maxEntries), 1, maxEntries)
  {
    var d := Put(c, k, value, maxEntries);
    Fifo.PushElements(c.order, k, maxEntries);
    assert d.order == Fifo.Push(c.order, k, maxEntries);
    forall p: nat | p < |c.order| && |c.order| - p + 1 <= maxEntries ensures StillAt(c, d, p, 1) {
      var q := if k !in c.byKey && |c.order| + 1 > maxEntries then p - 1 else p;
      assert IsAt(c, d, p, q);
    }
  }

  lemma {:induction false} PutAllOutlasts<K(!new), V>(c: Contents<K, V>, keys: seq<K>, epoch: nat, values: seq<V>, maxEntries: nat)
    requires |values| == |keys| && WellKept(c, maxEntries)
    ensures WellKept(PutAll(c, keys, epoch, values, maxEntries), maxEntries)
    ensures Outlasts(c, PutAll(c, keys, epoch, values, maxEntries), |keys|, maxEntries)
  {
    if keys == [] {
      forall p: nat | p < |c.order| ensures StillAt(c, c, p, 0) {
        assert IsAt(c, c, p, p);
      }
    } else {
      var n := |keys| - 1;
      var d := PutAll(c, keys[..n], epoch, values[..n], maxEntries);
      PutAllOutlasts(c, keys[..n], epoch, values[..n], maxEntries);
      PutOutlasts(d, Slot(keys[n], epoch), values[n], maxEntries);
      OutlastsOn(c, d, PutAll(c, keys, epoch, values, maxEntries), n, 1, maxEntries);
    }
  }

  /** Everything held afterwards was held before, or was put with its key. */
  lemma {:induction false} PutAllElements<K(!new), V(!new)>(c: Contents<K, V>, keys: seq<K>, epoch: nat, values: seq<V>, maxEntries: nat)
    requires |values| == |keys|
    ensures forall s <- PutAll(c, keys, epoch, values, maxEntries).byKey ::
              var v := PutAll(c, keys, epoch, values, maxEntries).byKey[s];
              (s in c.byKey && v == c.byKey[s])
              || (s.epoch == epoch && exists m :: 0 <= m < |keys| && keys[m] == s.key && values[m] == v)
  {
    if keys != [] {
      var n := |keys| - 1;
      var d, all := PutAll(c, keys[..n], epoch, values[..n], maxEntries), PutAll(c, keys, epoch, values, maxEntries);
      PutAllElements(c, keys[..n], epoch, values[..n], maxEntries);
      forall s <- all.byKey | !(s in c.byKey && all.byKey[s] == c.byKey[s])
        ensures s.epoch == epoch && exists m :: 0 <= m < |keys| && keys[m] == s.key && values[m] == all.byKey[s]
      {
        if s in d.byKey {
          var m :| 0 <= m < n && keys[..n][m] == s.key && values[..n][m] == d.byKey[s];
          assert keys[m] == s.key;
        } else {
          assert keys[n] == s.key;
        }
      }
    }
  }

  lemma PutAllGrew<K(!new), V(!new)>(c: Contents<K, V>, keys: seq<K>, epoch: nat, read: Reader<K, V>, maxEntries: nat)
    requires keys != [] && Answers(read, keys) && forall k <- keys :: Slot(k, epoch) !in c.byKey
    ensures Grew(c.byKey, PutAll(c, keys, epoch, read(keys).value, maxEntries).byKey, epoch, keys, read)
  {
    PutAllElements(c, keys, epoch, read(keys).value, maxEntries);
    assert forall m | 0 <= m < |keys| :: keys[m] in keys;
  }

  /** Filled in from what is stored and from the one read, every position has its value. */
  lemma FilledIn<K(!new), V>(keys: seq<K>, epoch: nat, stored: map<Slot<K>, V>, missing: seq<K>, read: Reader<K, V>, found: seq<Option<V>>)
    requires |found| == |keys| && Answers(read, missing)
    requires forall k :: k in missing <==> k in keys && Slot(k, epoch) !in stored
    requires forall j :: 0 <= j < |keys| ==>
               if keys[j] in missing then exists m :: 0 <= m < |missing| && missing[m] == keys[j] && found[j] == Some(read(missing).value[m])
               else Slot(keys[j], epoch) in stored ==> found[j] == Some(stored[Slot(keys[j], epoch)])
    ensures forall j :: 0 <= j < |keys| ==> found[j].Some? && ValueAt(keys[j], found[j].value, epoch, stored, missing, read)
  {
    forall j | 0 <= j < |keys| ensures found[j].Some? && ValueAt(keys[j], found[j].value, epoch, stored, missing, read) {
      assert keys[j] in keys;
    }
  }

  lemma {:induction false} KeepingDistinct<T(!new)>(order: seq<T>, kept: set<T>)
    requires Distinct(order)
    ensures Distinct(Keeping(order, kept)) && |Keeping(order, kept)| <= |order|
  {
    if order != [] {
      var n := |order| - 1;
      assert order == order[..n] + [order[n]] && order[n] !in order[..n];
      KeepingDistinct(order[..n], kept);
      KeepingElements(order[..n], kept);
    }
  }

  lemma PurgedWellKept<K(!new), V>(c: Contents<K, V>, epoch: nat, covers: K -> bool, maxEntries: nat)
    requires WellKept(c, maxEntries)
    ensures WellKept(Purged(c, epoch, covers), maxEntries)
  {
    var kept := set s | s in c.byKey && !(covers(s.key) && s.epoch < epoch);
    KeepingDistinct(c.order, kept);
    KeepingElements(c.order, kept);
    assert Purged(c, epoch, covers).order == Keeping(c.order, kept);
  }

  /** A purge that covers nothing changes nothing. */
  lemma PurgedSame<K(!new), V>(c: Contents<K, V>, epoch: nat, covers: K -> bool, maxEntries: nat)
    requires WellKept(c, maxEntries) && forall s <- c.byKey :: !(covers(s.key) && s.epoch < epoch)
    ensures Purged(c, epoch, covers) == c
  {
    var kept := set s | s in c.byKey && !(covers(s.key) && s.epoch < epoch);
    assert kept == c.byKey.Keys;
    KeepingAll(c.order, kept);
  }

  lemma OneKey<K, V>(c: Contents<K, V>, key: K, epoch: nat, value: V, maxEntries: nat)
    ensures FirstSeen([key]) == [key]
    ensures Missing([key], epoch, c.byKey) == if Slot(key, epoch) in c.byKey then [] else [key]
    ensures PutAll(c, [key], epoch, [value], maxEntries) == Put(c, Slot(key, epoch), value, maxEntries)
  {
    assert [key][..0] == [] && [value][..0] == [];
  }

  lemma {:induction false} MissingAreFewer<K, V>(keys: seq<K>, epoch: nat, stored: map<Slot<K>, V>)
    ensures |Missing(FirstSeen(keys), epoch, stored)| <= |FirstSeen(keys)| <= |keys|
  {
    if keys != [] {
      MissingAreFewer(keys[..|keys| - 1], epoch, stored);
      MissingShrinks(FirstSeen(keys), epoch, stored);
    }
  }

  lemma {:induction false} MissingShrinks<K, V>(keys: seq<K>, epoch: nat, stored: map<Slot<K>, V>)
    ensures |Missing(keys, epoch, stored)| <= |keys|
  {
    if keys != [] {
      MissingShrinks(keys[..|keys| - 1], epoch, stored);
    }
  }

  /** A purge under way: the entries still to be looked at are all there. */
  ghost predicate Purging<K(!new), V>(was: Contents<K, V>, now: Contents<K, V>, todo: set<Slot<K>>, epoch: nat, covers: K -> bool) {
    && Distinct(was.order) && todo <= now.byKey.Keys
    && now.order == Keeping(was.order, now.byKey.Keys)
    && (forall k :: k in now.byKey <==> k in was.byKey && (k in todo || !(covers(k.key) && k.epoch < epoch)))
    && (forall k <- now.byKey :: now.byKey[k] == was.byKey[k])
  }

  lemma PurgingEnds<K(!new), V>(was: Contents<K, V>, now: Contents<K, V>, epoch: nat, covers: K -> bool)
    requires Purging(was, now, {}, epoch, covers)
    ensures now == Purged(was, epoch, covers)
  {
    assert now.byKey.Keys == set s | s in was.byKey && !(covers(s.key) && s.epoch < epoch);
  }

  lemma {:induction false} KeepingElements<T(!new)>(order: seq<T>, kept: set<T>)
    ensures forall x :: x in Keeping(order, kept) <==> x in order && x in kept
  {
    if order != [] {
      var n := |order| - 1;
      KeepingElements(order[..n], kept);
      assert order == order[..n] + [order[n]];
    }
  }

  lemma {:induction false} KeepingShorter<T>(order: seq<T>, kept: set<T>)
    ensures |Keeping(order, kept)| <= |order|
  {
    if order != [] {
      KeepingShorter(order[..|order| - 1], kept);
    }
  }

  lemma PurgedShorter<K, V>(c: Contents<K, V>, epoch: nat, covers: K -> bool)
    ensures |Purged(c, epoch, covers).order| <= |c.order|
  {
    var kept := set s | s in c.byKey && !(covers(s.key) && s.epoch < epoch);
    KeepingShorter(c.order, kept);
    assert Purged(c, epoch, covers).order == Keeping(c.order, kept);
  }

  lemma {:induction false} KeepingAll<T(!new)>(order: seq<T>, kept: set<T>)
    requires forall x <- order :: x in kept
    ensures Keeping(order, kept) == order
  {
    if order != [] {
      var n := |order| - 1;
      assert order == order[..n] + [order[n]];
      KeepingAll(order[..n], kept);
    }
  }

  /** Dropping one more takes it out of its place. */
  lemma {:induction false} KeepingLess<T(!new)>(order: seq<T>, kept: set<T>, i: nat)
    requires Distinct(order) && i < |Keeping(order, kept)|
    ensures Keeping(order, kept - {Keeping(order, kept)[i]}) == Without(Keeping(order, kept), i)
  {
    var n, all := |order| - 1, Keeping(order, kept);
    var most, last := Keeping(order[..n], kept), order[n];
    var k := all[i];
    assert order == order[..n] + [last];
    assert forall x <- order[..n] :: x != last;
    KeepingElements(order[..n], kept);
    if i < |most| {
      assert k in most;
      KeepingLess(order[..n], kept, i);
      assert Without(all, i) == Without(most, i) + if last in kept then [last] else [];
    } else {
      KeepingSame(order[..n], kept, last);
      assert Without(all, i) == most;
    }
  }

  lemma {:induction false} KeepingSame<T(!new)>(order: seq<T>, kept: set<T>, gone: T)
    requires gone !in order
    ensures Keeping(order, kept - {gone}) == Keeping(order, kept)
  {
    if order != [] {
      var n := |order| - 1;
      assert order == order[..n] + [order[n]];
      KeepingSame(order[..n], kept, gone);
    }
  }

  class RuleCache<K(==, !new), V(==, !new)> {
    const maxEntries: nat
    var byKey: map<Slot<K>, V>
    var order: seq<Slot<K>>

    constructor (maxEntries: nat)
      ensures Valid() && byKey == map[] && order == [] && this.maxEntries == maxEntries
    {
      this.maxEntries := maxEntries;
      byKey, order := map[], [];
    }

    function Held(): Contents<K, V>
      reads this
    {
      Contents(byKey, order)
    }

    /** The map and the queue hold the same keys, each once, no more than fit. */
    ghost predicate Valid()
      reads this
    {
      Fifo.Bounded(order, maxEntries) && forall k :: k in byKey <==> k in order
    }

    method Get(key: K, epoch: nat) returns (value: Option<V>)
      ensures value == if Slot(key, epoch) in byKey then Some(byKey[Slot(key, epoch)]) else None
    {
      var k := Slot(key, epoch);
      value := if k in byKey then Some(byKey[k]) else None;
    }

    /** An existing entry is never overwritten; a full cache forgets its oldest. */
    method Set(key: K, epoch: nat, value: V)
      requires Valid()
      modifies this
      ensures Valid() && order == Fifo.Push(old(order), Slot(key, epoch), maxEntries)
      ensures forall k <- byKey :: if k in old(byKey) then byKey[k] == old(byKey)[k] else k == Slot(key, epoch) && byKey[k] == value
      ensures Held() == Put(old(Held()), Slot(key, epoch), value, maxEntries)
    {
      var k := Slot(key, epoch);
      Fifo.PushElements(order, k, maxEntries);
      if k in byKey { return; }
      byKey := byKey[k := value];
      order := order + [k];
      if |order| > maxEntries {
        var evicted := order[0];
        order := order[1..];
        byKey := byKey - {evicted};
      }
    }

    /** Drop the entries below `epoch` whose key the prefix covers, and only those. */
    method PurgeBelow(epoch: nat, covers: K -> bool)
      requires Valid()
      modifies this
      ensures Valid()
      ensures forall k :: k in byKey <==> k in old(byKey) && !(covers(k.key) && k.epoch < epoch)
      ensures forall k <- byKey :: byKey[k] == old(byKey)[k]
      ensures Held() == Purged(old(Held()), epoch, covers)
    {
      var todo := byKey.Keys;
      ghost var was := Held();
      KeepingAll(order, byKey.Keys);
      while todo != {}
        invariant Valid() && Purging(was, Held(), todo, epoch, covers)
        decreases todo
      {
        var k :| k in todo;
        if covers(k.key) && k.epoch < epoch {
          Forget(k, was.order);
        }
        todo := todo - {k};
      }
      PurgingEnds(was, Held(), epoch, covers);
    }

    method Forget(k: Slot<K>, ghost was: seq<Slot<K>>)
      requires Valid() && k in byKey && Distinct(was) && order == Keeping(was, byKey.Keys)
      modifies this
      ensures Valid() && byKey == old(byKey) - {k}
      ensures order == Keeping(was, byKey.Keys)
    {
      var i :| 0 <= i < |order| && order[i] == k;
      forall x ensures x in Without(order, i) <==> x in order && x != k {
        InWithout(order, i, x);
      }
      InWithout(order, i, k);
      KeepingLess(was, byKey.Keys, i);
      assert (byKey - {k}).Keys == byKey.Keys - {k};
      byKey := byKey - {k};
      order := Without(order, i);
    }

    /**
     Look up many keys; read the distinct misses once, in first-seen order; answer every position. A read
     that fails or returns the wrong number of values fails the whole lookup and stores nothing.
     */
    method MemoMany(keys: seq<K>, epoch: nat, read: Reader<K, V>) returns (values: Option<seq<V>>, asked: seq<seq<K>>)
      requires Valid()
      modifies this
      ensures Valid()
      ensures var missing := Missing(FirstSeen(keys), epoch, old(byKey));
              && asked == (if missing == [] then [] else [missing])
              && (values.Some? <==> Answers(read, missing))
              && (values.None? ==> Held() == old(Held()))
              && (values.Some? ==>
                    && |values.value| == |keys|
                    && (forall j :: 0 <= j < |keys| ==> ValueAt(keys[j], values.value[j], epoch, old(byKey), missing, read))
                    && Grew(old(byKey), byKey, epoch, missing, read)
                    && Held() == if missing == [] then old(Held())
                                     else PutAll(old(Held()), missing, epoch, read(missing).value, maxEntries))
    {
      var unique, positions := Positions(keys);
      ghost var before := byKey;
      var found: seq<Option<V>>;
      var missing: seq<K>;
      found, missing := LookUp(keys, epoch, unique, positions);
      MissingElements(unique, epoch, before);
      asked := [];
      if |missing| > 0 {
        asked := [missing];
        var answer := read(missing);
        if answer.None? || |answer.value| != |missing| { return None, asked; }
        found := Store(keys, epoch, missing, answer.value, positions, found, read);
      }
      FilledIn(keys, epoch, before, missing, read, found);
      values := Some(seq(|keys|, j requires 0 <= j < |keys| && found[j].Some? => found[j].value));
    }

    /** What is stored already, put at every position; and the keys that are not, in order. */
    method LookUp(keys: seq<K>, epoch: nat, unique: seq<K>, positions: map<K, seq<nat>>)
      returns (found: seq<Option<V>>, missing: seq<K>)
      requires PositionsOf(positions, keys) && Distinct(unique) && forall k :: k in unique <==> k in keys
      ensures missing == Missing(unique, epoch, byKey) && |found| == |keys|
      ensures forall j :: 0 <= j < |keys| ==>
                found[j] == if Slot(keys[j], epoch) in byKey then Some(byKey[Slot(keys[j], epoch)]) else None
    {
      found := seq(|keys|, _ => None);
      missing := [];
      for u := 0 to |unique|
        invariant |found| == |keys| && missing == Missing(unique[..u], epoch, byKey)
        invariant forall j :: 0 <= j < |keys| ==>
                    found[j] == if keys[j] in unique[..u] && Slot(keys[j], epoch) in byKey then Some(byKey[Slot(keys[j], epoch)]) else None
      {
        assert unique[..u + 1] == unique[..u] + [unique[u]];
        assert unique[u] in unique && unique[u] !in unique[..u];
        var hit := Get(unique[u], epoch);
        if hit.Some? {
          found := Fill(found, positions[unique[u]], hit.value);
        } else {
          missing := missing + [unique[u]];
        }
      }
      assert unique[..|unique|] == unique;
    }

    method Store(keys: seq<K>, epoch: nat, missing: seq<K>, answer: seq<V>, positions: map<K, seq<nat>>,
                 before: seq<Option<V>>, ghost read: Reader<K, V>) returns (found: seq<Option<V>>)
      requires Valid() && Distinct(missing) && missing != [] && read(missing) == Some(answer) && |answer| == |missing|
      requires |before| == |keys| && PositionsOf(positions, keys) && forall k <- missing :: k in keys && Slot(k, epoch) !in byKey
      requires forall j :: 0 <= j < |keys| ==> before[j].None? == (keys[j] in missing)
      modifies this
      ensures Valid() && Grew(old(byKey), byKey, epoch, missing, read)
      ensures Held() == PutAll(old(Held()), missing, epoch, answer, maxEntries)
      ensures |found| == |keys|
      ensures forall j :: 0 <= j < |keys| ==> if keys[j] in missing
                then exists m :: 0 <= m < |missing| && missing[m] == keys[j] && found[j] == Some(answer[m]) else found[j] == before[j]
    {
      found := before;
      for m := 0 to |missing|
        invariant Valid() && |found| == |keys|
        invariant Held() == PutAll(old(Held()), missing[..m], epoch, answer[..m], maxEntries)
        invariant FilledUpTo(keys, missing, answer, m, before, found)
      {
        assert missing[m] in missing;
        assert missing[..m + 1][..m] == missing[..m] && answer[..m + 1][..m] == answer[..m];
        Set(missing[m], epoch, answer[m]);
        var next := Fill(found, positions[missing[m]], answer[m]);
        FilledNext(keys, missing, answer, m, before, found, next, positions);
        found := next;
      }
      assert missing[..|missing|] == missing && answer[..|answer|] == answer;
      PutAllGrew(old(Held()), missing, epoch, read, maxEntries);
    }
  }

  /** The first `m` answers are in their places, and nothing else has changed there. */
  ghost predicate FilledUpTo<K, V>(keys: seq<K>, missing: seq<K>, answer: seq<V>, m: nat, before: seq<Option<V>>, found: seq<Option<V>>)
    requires m <= |missing| == |answer|
  {
    && |found| == |keys| == |before|
    && (forall j :: 0 <= j < |keys| && keys[j] !in missing ==> found[j] == before[j])
    && (forall i, j :: 0 <= i < m && 0 <= j < |keys| && keys[j] == missing[i] ==> found[j] == Some(answer[i]))
  }

  lemma FilledNext<K, V>(keys: seq<K>, missing: seq<K>, answer: seq<V>, m: nat, before: seq<Option<V>>, found: seq<Option<V>>,
                         next: seq<Option<V>>, positions: map<K, seq<nat>>)
    requires m < |missing| == |answer| && Distinct(missing) && PositionsOf(positions, keys) && missing[m] in positions
    requires FilledUpTo(keys, missing, answer, m, before, found) && |next| == |found|
    requires forall j :: 0 <= j < |found| ==> next[j] == if j in positions[missing[m]] then Some(answer[m]) else found[j]
    ensures FilledUpTo(keys, missing, answer, m + 1, before, next)
  {
    assert missing[m] in missing;
  }

  /** Every position of every key, and no other. */
  ghost predicate PositionsOf<K>(positions: map<K, seq<nat>>, keys: seq<K>) {
    && (forall j :: 0 <= j < |keys| ==> keys[j] in positions && j in positions[keys[j]])
    && (forall k <- positions :: forall j <- positions[k] :: j < |keys| && keys[j] == k)
  }

  method Positions<K(==, !new)>(keys: seq<K>) returns (unique: seq<K>, positions: map<K, seq<nat>>)
    ensures unique == FirstSeen(keys) && PositionsOf(positions, keys)
    ensures Distinct(unique) && forall k :: k in unique <==> k in keys
  {
    unique, positions := [], map[];
    for i := 0 to |keys|
      invariant unique == FirstSeen(keys[..i]) && (forall k :: k in unique <==> k in positions)
      invariant forall j :: 0 <= j < i ==> keys[j] in positions && j in positions[keys[j]]
      invariant forall k <- positions :: forall j <- positions[k] :: j < i && keys[j] == k
    {
      assert keys[..i + 1][..i] == keys[..i];
      var key := keys[i];
      if key in positions {
        positions := positions[key := positions[key] + [i]];
      } else {
        positions := positions[key := [i]];
        unique := unique + [key];
      }
    }
    assert keys[..|keys|] == keys;
    FirstSeenElements(keys);
  }

  method Fill<V>(before: seq<Option<V>>, at: seq<nat>, value: V) returns (after: seq<Option<V>>)
    requires forall j <- at :: j < |before|
    ensures |after| == |before|
    ensures forall j :: 0 <= j < |before| ==> after[j] == if j in at then Some(value) else before[j]
  {
    after := before;
    for i := 0 to |at|
      invariant |after| == |before|
      invariant forall j :: 0 <= j < |before| ==> after[j] == if j in at[..i] then Some(value) else before[j]
    {
      assert at[..i + 1] == at[..i] + [at[i]] && at[i] in at;
      after := after[at[i] := Some(value)];
    }
    assert at[..|at|] == at;
  }
}
