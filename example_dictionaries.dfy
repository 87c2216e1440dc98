/**
 The `ExampleDictionaries` class: the generic `lookup` helper over two
 externally supplied lists, and the behaviour its two test methods expect.
 */
module ExampleDictionaries {
  import opened Wrappers
  import opened Association
  import opened Dictionaries

  /** Linear search: the value at the first index whose key equals `key`, or
      `None` when no key does. The lists must have the same length. */
  method Lookup<K(==), V>(keys: seq<K>, values: seq<V>, key: K) returns (r: Option<V>)
    requires |keys| == |values|
    ensures r == Association.Lookup(keys, values, key)
  {
    var i := 0;
    while i < |keys|
      invariant 0 <= i <= |keys|
      invariant key !in keys[..i]
    {
      if keys[i] == key {
        return Some(values[i]);
      }
      i := i + 1;
    }
    assert keys[..i] == keys;
    return None;
  }

  /** `lookup` applied to a dictionary's own lists answers as its `get` does. */
  method LookupAgreesWithGet<K(==), V>(d: Dictionary<K, V>, key: K)
    returns (viaGet: Option<V>, viaLookup: Option<V>)
    requires d.Valid()
    ensures viaGet == viaLookup
  {
    viaGet := d.Get(key);
    viaLookup := Lookup(d.keys, d.values, key);
  }

  /** The lookups of the lookup test, on integer and string lists. */
  method LookupScenario() returns (found: seq<Option<string>>, missing: Option<int>)
    ensures found == [Some("ucsd"), Some("11")]
    ensures missing == None
  {
    var intKeys, strKeys := [1, 2, 3], ["a", "b", "c"];
    var intValues, strValues := [4, 5, 6], ["ucsd", "cse", "11"];
    var a := Lookup(intKeys, intValues, 1);
    assert a == Some(4);
    var b := Lookup(strKeys, intValues, "b");
    assert b == Some(5);
    var c := Lookup(intKeys, strValues, 3);
    var d := Lookup(strKeys, strValues, "a");
    found := [d, c];
    missing := Lookup(intKeys, intValues, 5);
    var e := Lookup(strKeys, intValues, "abc");
    assert e == None;
  }

  /** The dictionary test: three insertions into a new dictionary; an update
      of an existing key that leaves the size and the other entries alone;
      then a fourth insertion, after which every key reads back its latest
      value and a key never put reads back as absent. */
  method DictionaryScenario() returns (d: Dictionary<string, int>, results: seq<Option<int>>)
    ensures fresh(d) && d.Valid()
    ensures d.keys == ["a", "b", "c", "d"] && d.values == [4, 2, 3, 5]
    ensures results == [Some(4), Some(2), Some(3), Some(5), None]
  {
    d := InsertThree();
    UpdateExisting(d);
    d.Put("d", 5);
    var a, b, c, x, y := ReadAll(d);
    results := [a, b, c, x, y];
  }

  /** First stage: a new dictionary is empty; three distinct keys are
      appended in order and each reads back its value. */
  method InsertThree() returns (d: Dictionary<string, int>)
    ensures fresh(d) && d.Valid()
    ensures d.keys == ["a", "b", "c"] && d.values == [1, 2, 3]
  {
    d := new Dictionary();
    assert |d.keys| == 0 && |d.values| == 0;
    d.Put("a", 1);
    d.Put("b", 2);
    d.Put("c", 3);
    var a, b, c, x := ReadFirstThree(d);
    assert a == Some(1) && b == Some(2) && c == Some(3) && x == None;
  }

  /** The four reads after the first three insertions. */
  method ReadFirstThree(d: Dictionary<string, int>) returns (a: Option<int>, b: Option<int>, c: Option<int>, x: Option<int>)
    requires d.Valid() && d.keys == ["a", "b", "c"] && d.values == [1, 2, 3]
    ensures a == Some(1) && b == Some(2) && c == Some(3) && x == None
  {
    a := d.Get("a");
    b := d.Get("b");
    c := d.Get("c");
    x := d.Get("d");
  }

  /** Second stage: putting an existing key overwrites its value in place;
      the size stays at three and the other entries are unchanged. */
  method UpdateExisting(d: Dictionary<string, int>)
    requires d.Valid() && d.keys == ["a", "b", "c"] && d.values == [1, 2, 3]
    modifies d
    ensures d.Valid() && d.keys == ["a", "b", "c"] && d.values == [4, 2, 3]
  {
    d.Put("a", 4);
    var a := d.Get("a");
    assert a == Some(4);
    assert |d.keys| == 3;
    var b := d.Get("b");
    var c := d.Get("c");
    var x := d.Get("d");
    assert b == Some(2) && c == Some(3) && x == None;
  }

  /** The five reads that close the dictionary test. */
  method ReadAll(d: Dictionary<string, int>) returns (a: Option<int>, b: Option<int>, c: Option<int>, x: Option<int>, y: Option<int>)
    requires d.Valid() && d.keys == ["a", "b", "c", "d"] && d.values == [4, 2, 3, 5]
    ensures a == Some(4) && b == Some(2) && c == Some(3) && x == Some(5) && y == None
  {
    a := d.Get("a");
    b := d.Get("b");
    c := d.Get("c");
    x := d.Get("d");
    y := d.Get("e");
  }
}
