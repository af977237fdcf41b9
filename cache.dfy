/**
 * The in-memory key/value cache: one process-wide `Map` that `setCache`,
 * `getCache`, `hasCache` and `clearCache` read and update.
 */
module Cache {
  import opened Common

  class Store<K(==), V> {
    /** The entries of the underlying `Map`. */
    var entries: map<K, V>

    constructor ()
      ensures entries == map[]
    {
      entries := map[];
    }

    /** `setCache(key, value)`: the key now maps to the value; every other key keeps its entry. */
    method Set(key: K, value: V)
      modifies this
      ensures key in entries && entries[key] == value
      ensures forall k :: k != key ==> (k in entries <==> k in old(entries))
      ensures forall k :: k != key && k in entries ==> entries[k] == old(entries)[k]
    {
      entries := entries[key := value];
    }

    /** `getCache(key)`: the stored value, or `None` for `undefined` when the key is absent. */
    method Get(key: K) returns (r: Option<V>)
      ensures r.Some? <==> key in entries
      ensures r.Some? ==> r.value == entries[key]
    {
      if key in entries {
        r := Some(entries[key]);
      } else {
        r := None;
      }
    }

    /** `hasCache(key)`. */
    method Has(key: K) returns (b: bool)
      ensures b <==> key in entries
    {
      b := key in entries;
    }

    /** `clearCache()`: no key is present afterwards. */
    method Clear()
      modifies this
      ensures forall k :: k !in entries
    {
      entries := map[];
    }
  }

  /** A set followed by a get of the same key yields the stored value; another key is not disturbed. */
  method SetThenGet<K(==), V>(c: Store<K, V>, key: K, other: K, value: V) returns (got: Option<V>, otherBefore: Option<V>, otherAfter: Option<V>)
    requires key != other
    modifies c
    ensures got == Some(value)
    ensures otherAfter == otherBefore
  {
    otherBefore := c.Get(other);
    c.Set(key, value);
    got := c.Get(key);
    otherAfter := c.Get(other);
  }

  /** After a clear, neither get nor has finds any key. */
  method ClearThenHas<K(==), V>(c: Store<K, V>, key: K) returns (present: bool, got: Option<V>)
    modifies c
    ensures !present && got == None
  {
    c.Clear();
    present := c.Has(key);
    got := c.Get(key);
  }
}
