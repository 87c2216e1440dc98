/**
 The `Dictionary<K, V>` class: two parallel lists, `keys` and `values`, that
 `put` updates in place and `get` scans. Its abstract value is the map
 `Contents()`; `put` is map update and `get` is map lookup.
 */
module Dictionaries {
  import opened Wrappers
  import opened Association

  class Dictionary<K(==), V> {
    var keys: seq<K>
    var values: seq<V>

    /** The class invariant: the lists are parallel and the keys are unique. */
    ghost predicate Valid()
      reads this
    {
      |keys| == |values| && NoDuplicates(keys)
    }

    /** The map the dictionary stands for. */
    ghost function Contents(): map<K, V>
      reads this
      requires Valid()
    {
      ToMap(keys, values)
    }

    /** A new dictionary holds no keys and no values. */
    constructor ()
      ensures Valid()
      ensures keys == [] && values == []
      ensures Contents() == map[]
    {
      keys := [];
      values := [];
    }

    /** Insert or update: a key already present has its value overwritten at
        its own index; a new key is appended, with its value, at the end. */
    method Put(key: K, value: V)
      requires Valid()
      modifies this
      ensures Valid()
      ensures key in old(keys) ==>
        keys == old(keys) && values == old(values)[FirstMatch(old(keys), key).value := value]
      ensures key !in old(keys) ==>
        keys == old(keys) + [key] && values == old(values) + [value]
      ensures Contents() == old(Contents())[key := value]
      ensures |keys| == |Contents()|
    {
      var i := 0;
      while i < |keys|
        invariant 0 <= i <= |keys|
        invariant key !in keys[..i]
        invariant keys == old(keys) && values == old(values)
      {
        if keys[i] == key {
          ToMapOverwrite(keys, values, i, value);
          values := values[i := value];
          EntryCount(keys, values);
          return;
        }
        i := i + 1;
      }
      assert keys[..i] == keys;
      AppendFresh(keys, key);
      ToMapAppend(keys, values, key, value);
      keys := keys + [key];
      values := values + [value];
      EntryCount(keys, values);
    }

    /** The value stored for `key`, or `None` when the key was never put. */
    method Get(key: K) returns (r: Option<V>)
      requires Valid()
      ensures r == Lookup(keys, values, key)
      ensures r == (if key in Contents() then Some(Contents()[key]) else None)
    {
      LookupIsMapLookup(keys, values, key);
      var i := 0;
      while i < |keys|
        invariant 0 <= i <= |keys|
        invariant key !in keys[..i]
      {
        if keys[i] == key {
          return Some(values[i]);
        }
        i := i + 1;
      }
      assert keys[..i] == keys;
      return None;
    }
  }
}
