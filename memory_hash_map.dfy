/** MemoryHashMap: a plain string-keyed map that is updated in place. */
module MemoryHashMaps {
  import opened Base

  /** What a lookup of `key` in `list` reports: the stored value, or None (Go's nil)
      exactly when the key is absent. */
  function Find<V>(list: map<Key, V>, key: Key): (r: Option<V>)
    ensures r.None? <==> key !in list
    ensures r.Some? ==> key in list && r.value == list[key]
  {
    if key in list then Some(list[key]) else None
  }

  /** The map after an upsert of `key`: the key now finds `value`, every other key
      finds what it found before, and the count grows exactly when the key is new. */
  function Upsert<V>(list: map<Key, V>, key: Key, value: V): (r: map<Key, V>)
    ensures Find(r, key) == Some(value)
    ensures forall k :: k != key ==> Find(r, k) == Find(list, k)
    ensures |r| == if key in list then |list| else |list| + 1
  {
    list[key := value]
  }

  /** The map after deleting `key`: the key is gone, every other key is untouched,
      and deleting an absent key changes nothing at all. */
  function Erase<V>(list: map<Key, V>, key: Key): (r: map<Key, V>)
    ensures Find(r, key) == None
    ensures forall k :: k != key ==> Find(r, k) == Find(list, k)
    ensures |r| == if key in list then |list| - 1 else |list|
    ensures key !in list ==> r == list
  {
    var r := list - {key};
    assert r.Keys == list.Keys - {key};
    r
  }

  /** Upserting the same pair twice leaves the map as upserting it once. */
  lemma UpsertTwice<V>(list: map<Key, V>, key: Key, value: V)
    ensures Upsert(Upsert(list, key, value), key, value) == Upsert(list, key, value)
  {
  }

  /** Deleting twice is deleting once. */
  lemma EraseTwice<V>(list: map<Key, V>, key: Key)
    ensures Erase(Erase(list, key), key) == Erase(list, key)
  {
  }

  class MemoryHashMap<V> {
    /** The stored objects, by key. */
    var list: map<Key, V>

    /** CreateMemoryHashMap: a new map holds nothing, so its Count is 0. */
    constructor ()
      ensures list == map[]
    {
      list := map[];
    }

    /** The number of stored objects. */
    method Count() returns (n: int)
      ensures n == |list|
    {
      n := |list|;
    }

    /** All stored objects, by key. */
    method GetList() returns (all: map<Key, V>)
      ensures all == list
    {
      all := list;
    }

    /** The object stored under `key`, or None when there is none. */
    method FindByKey(key: Key) returns (value: Option<V>)
      ensures value.None? <==> key !in list
      ensures value.Some? ==> value.value == list[key]
    {
      if key in list {
        value := Some(list[key]);
      } else {
        value := None;
      }
    }

    /** Inserts `value` under `key`, replacing any earlier value. */
    method AddUpdateObject(key: Key, value: V)
      modifies this
      ensures list == Upsert(old(list), key, value)
    {
      list := list[key := value];
    }

    /** Removes `key` if it is present; otherwise does nothing. */
    method DeleteObject(key: Key)
      modifies this
      ensures list == Erase(old(list), key)
    {
      list := list - {key};
    }
  }
}
