/**
 The meaning of a pair of parallel sequences `keys` and `values`, where
 `keys[i]` is associated with `values[i]`. Both the dictionary class and the
 free-standing `lookup` helper scan such a pair from index 0 upward; this
 module states what that scan finds, and relates the pair to a `map`.
 */
module Association {
  import opened Wrappers

  /** No key occurs twice: the invariant the dictionary keeps. */
  predicate NoDuplicates<K(==)>(keys: seq<K>) {
    forall i, j :: 0 <= i < j < |keys| ==> keys[i] != keys[j]
  }

  /** The index at which a scan from index 0 upward first meets `key`. */
  function FirstMatch<K(==)>(keys: seq<K>, key: K): (r: Option<nat>)
    ensures r.None? <==> key !in keys
    ensures r.Some? ==> r.value < |keys| && keys[r.value] == key && key !in keys[..r.value]
  {
    if keys == [] then None
    else if keys[0] == key then Some(0)
    else
      match FirstMatch(keys[1..], key)
      case None => None
      case Some(i) =>
        assert keys[..i + 1] == [keys[0]] + keys[1..][..i];
        Some(i + 1)
  }

  /** The value paired with the first occurrence of `key`, or `None` when the
      key does not occur at all. */
  function Lookup<K(==), V>(keys: seq<K>, values: seq<V>, key: K): (r: Option<V>)
    requires |keys| == |values|
    ensures r.None? <==> key !in keys
    ensures forall i :: 0 <= i < |keys| && keys[i] == key && key !in keys[..i] ==> r == Some(values[i])
  {
    match FirstMatch(keys, key)
    case None => None
    case Some(i) =>
      Some(values[i])
  }

  /** The map the pair denotes, built by entering the pairs in order, so that
      a later pair for the same key replaces an earlier one. */
  function ToMap<K(==), V>(keys: seq<K>, values: seq<V>): (m: map<K, V>)
    requires |keys| == |values|
  {
    if keys == [] then map[]
    else
      var n := |keys| - 1;
      ToMap(keys[..n], values[..n])[keys[n] := values[n]]
  }

  /** The map has an entry for exactly the keys that occur in the sequence. */
  lemma {:induction false} ToMapKeys<K, V>(keys: seq<K>, values: seq<V>, k: K)
    requires |keys| == |values|
    ensures k in ToMap(keys, values) <==> k in keys
  {
    if keys != [] {
      var n := |keys| - 1;
      assert keys == keys[..n] + [keys[n]];
      ToMapKeys(keys[..n], values[..n], k);
    }
  }

  /** Without duplicates, the map sends each key to the value at its position. */
  lemma {:induction false} ToMapAt<K, V>(keys: seq<K>, values: seq<V>, i: nat)
    requires |keys| == |values| && NoDuplicates(keys) && i < |keys|
    ensures keys[i] in ToMap(keys, values) && ToMap(keys, values)[keys[i]] == values[i]
  {
    var n := |keys| - 1;
    assert ToMap(keys, values) == ToMap(keys[..n], values[..n])[keys[n] := values[n]];
    if i < n {
      assert NoDuplicates(keys[..n]);
      ToMapAt(keys[..n], values[..n], i);
      assert keys[..n][i] == keys[i] != keys[n];
    }
  }

  /** Without duplicates, the first-match scan and the map agree on every key. */
  lemma LookupIsMapLookup<K, V>(keys: seq<K>, values: seq<V>, key: K)
    requires |keys| == |values| && NoDuplicates(keys)
    ensures Lookup(keys, values, key) == (var m := ToMap(keys, values); if key in m then Some(m[key]) else None)
  {
    match FirstMatch(keys, key)
    case None => ToMapKeys(keys, values, key);
    case Some(i) => ToMapAt(keys, values, i);
  }

  /** Overwriting the value at position `i` updates the map at `keys[i]` and
      nowhere else. */
  lemma {:induction false} ToMapOverwrite<K, V>(keys: seq<K>, values: seq<V>, i: nat, v: V)
    requires |keys| == |values| && NoDuplicates(keys) && i < |keys|
    ensures ToMap(keys, values[i := v]) == ToMap(keys, values)[keys[i] := v]
  {
    var n := |keys| - 1;
    var values' := values[i := v];
    if i == n {
      assert values'[..n] == values[..n];
    } else {
      assert NoDuplicates(keys[..n]);
      assert values'[..n] == values[..n][i := v];
      ToMapOverwrite(keys[..n], values[..n], i, v);
      assert keys[i] != keys[n];
      assert values'[n] == values[n];
    }
  }

  /** Appending a key that is not yet present enters it into the map. */
  lemma ToMapAppend<K, V>(keys: seq<K>, values: seq<V>, k: K, v: V)
    requires |keys| == |values|
    ensures ToMap(keys + [k], values + [v]) == ToMap(keys, values)[k := v]
  {
    assert (keys + [k])[..|keys|] == keys;
    assert (values + [v])[..|keys|] == values;
  }

  /** Appending a fresh key keeps the keys free of duplicates. */
  lemma AppendFresh<K>(keys: seq<K>, k: K)
    requires NoDuplicates(keys) && k !in keys
    ensures NoDuplicates(keys + [k])
  {
  }

  /** Without duplicates there is exactly one entry per distinct key: the map
      has as many entries as the sequence has positions. */
  lemma {:induction false} EntryCount<K, V>(keys: seq<K>, values: seq<V>)
    requires |keys| == |values| && NoDuplicates(keys)
    ensures |ToMap(keys, values)| == |keys|
  {
    if keys != [] {
      var n := |keys| - 1;
      assert NoDuplicates(keys[..n]);
      EntryCount(keys[..n], values[..n]);
      var m := ToMap(keys[..n], values[..n]);
      assert keys[n] !in keys[..n];
      ToMapKeys(keys[..n], values[..n], keys[n]);
    }
  }
}
