/** The browser cache as it runs: two databases, which of them is active, and a counter. */
module LruStorages {
  import opened Wrappers
  import opened Bundles
  import Lru

  class LruStorage<K(==), V> {
    const maxItems: Positive
    var active: map<K, V>
    var inactive: map<K, V>
    var activeSize: nat

    constructor (maxItems: Positive)
      ensures Store() == Lru.Empty() && this.maxItems == maxItems
    {
      this.maxItems := maxItems;
      active, inactive, activeSize := map[], map[], 0;
    }

    ghost function Store(): Lru.Store<K, V>
      reads this
    {
      Lru.Store(active, inactive, activeSize)
    }

    method Swap()
      modifies this
      ensures Store() == Lru.Swap(old(Store()))
    {
      activeSize := 0;
      active, inactive := inactive, active;
      active := map[];
    }

    /** First await of a set: is the key in the active half? */
    method Existing(key: K) returns (existing: bool)
      ensures existing <==> key in Store().active
    {
      existing := key in active;
    }

    /** Second await: into whichever half is active by now. */
    method Write(key: K, value: V)
      modifies this
      ensures Store() == Lru.Written(old(Store()), key, value)
    {
      active := active[key := value];
    }

    /** One more entry; at the limit the real length is asked for. */
    method Count() returns (length: Option<nat>)
      modifies this
      ensures Store() == Lru.Counted(old(Store()))
      ensures length == if activeSize >= maxItems then Some(|active|) else None
    {
      activeSize := activeSize + 1;
      length := if activeSize >= maxItems then Some(|active|) else None;
    }

    /** The length is back: the counter takes it, and a full half swaps. */
    method Measure(length: nat)
      modifies this
      ensures Store() == Lru.Measured(old(Store()), length, maxItems)
    {
      activeSize := length;
      if activeSize >= maxItems {
        Swap();
      }
    }

    method Grow()
      modifies this
      ensures Store() == Lru.Grow(old(Store()), maxItems)
    {
      var length := Count();
      if length.Some? {
        Measure(length.value);
      }
    }

    /** A set with nothing happening at its awaits. */
    method SetItem(key: K, value: V)
      modifies this
      ensures Store() == Lru.SetItem(old(Store()), key, value, maxItems)
    {
      var existing := Existing(key);
      Write(key, value);
      if !existing {
        Grow();
      }
    }

    /** A hit in the older half re-enters the active one. */
    method GetItem(key: K) returns (value: Option<V>)
      modifies this
      ensures Store() == Lru.GetItem(old(Store()), key, maxItems)
      ensures value == Lru.Lookup(old(Store()), key)
    {
      if key in active { return Some(active[key]); }
      if key !in inactive { return None; }
      var older := inactive[key];
      SetItem(key, older);
      return Some(older);
    }

    method RemoveItem(key: K)
      modifies this
      ensures Store() == Lru.RemoveItem(old(Store()), key)
    {
      active := active - {key};
      inactive := inactive - {key};
    }

    method Keys() returns (keys: set<K>)
      ensures forall k :: k in keys <==> Lru.Lookup(Store(), k).Some?
    {
      keys := active.Keys + inactive.Keys;
    }

    method Clear()
      modifies this
      ensures Store() == old(Store()).(active := map[], inactive := map[])
    {
      active, inactive := map[], map[];
    }
  }
}
