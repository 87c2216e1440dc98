# Linear-scan dictionary, modelled in Dafny

This project models `DictionarySolution.java`, a teaching example with two
linear-scan association structures:

- `Dictionary<K, V>`: two parallel lists, `keys` and `values`. `put` scans
  the keys; on a match it overwrites the value at that index in place,
  otherwise it appends the key and the value at the end. `get` scans the keys
  and returns the value at the first match, or `null`.
- `ExampleDictionaries.lookup`: the same read-only scan over two lists that
  the caller supplies.

Layout:

- `wrappers.dfy` (`Wrappers`): `Option`, whose `None` stands for the `null`
  that `get` and `lookup` return when the key is absent.
- `association.dfy` (`Association`): what a pair of parallel sequences means.
  `FirstMatch` is the index a scan from 0 upward stops at. `Lookup` is the
  value found there. `ToMap` is the map the pair stands for. The lemmas relate
  the scan to the map. They also show that overwriting or appending a pair is
  a map update, and that without duplicate keys there is one entry per key.
- `dictionary.dfy` (`Dictionaries`): the class `Dictionary` with its two
  `seq` fields. `Valid()` is its invariant: equal lengths and no duplicate
  keys. `Contents()` is its abstract map. `Put` and `Get` keep the Java loops
  and are proved against `Association`.
- `example_dictionaries.dfy` (`ExampleDictionaries`): `lookup` as a loop
  method. Also the behaviour the two test methods expect, stated as client
  methods of the contracts above.

Key equality is Dafny's `==` on a `K(==)` type. Absence is `Option.None`.

## Model

| member | source | states |
|---|---|---|
| Association.FirstMatch | DictionarySolution.java:36-40 | the scan stops at an index holding the key with no earlier occurrence; it finds nothing exactly when the key does not occur |
| Association.Lookup | DictionarySolution.java:53-59 | the result is absent exactly when the key is not among the keys; otherwise it is `values[i]` for the smallest `i` with `keys[i] == key` |
| Association.ToMapKeys | DictionarySolution.java:7-9 | the dictionary's map has an entry for a key exactly when that key is in `keys` |
| Association.ToMapAt | DictionarySolution.java:7-9 | without duplicate keys, the map sends `keys[i]` to `values[i]`, i.e. the two lists are paired by position |
| Association.LookupIsMapLookup | DictionarySolution.java:35-42 | without duplicate keys, the first-match scan returns what the map holds for the key, or absent when the map has no entry |
| Association.ToMapOverwrite | DictionarySolution.java:23-27 | overwriting `values[i]` in place is a map update at `keys[i]` that leaves every other key's value unchanged |
| Association.ToMapAppend | DictionarySolution.java:31-32 | appending a key and a value at the end is a map update at that key |
| Association.EntryCount | DictionarySolution.java:23-32 | without duplicate keys, the number of map entries equals the list length: one entry per distinct key |
| Dictionaries.Dictionary.constructor | DictionarySolution.java:11-14 | a new dictionary has empty `keys` and `values`, satisfies the invariant and denotes the empty map |
| Dictionaries.Dictionary.Put | DictionarySolution.java:16-33 | keeps the invariant; a present key keeps `keys` unchanged and overwrites only `values` at the key's index; an absent key is appended to both lists; the map becomes the old map updated at the key; the size still equals the number of distinct keys |
| Dictionaries.Dictionary.Get | DictionarySolution.java:35-42 | returns the value at the first matching index, or absent exactly when the key is not in `keys`; equivalently, the map lookup of the key |
| ExampleDictionaries.Lookup | DictionarySolution.java:53-60 | the loop returns exactly what `Association.Lookup` gives: the value at the first matching index, or absent |
| ExampleDictionaries.LookupAgreesWithGet | DictionarySolution.java:53-60 | `lookup` applied to a dictionary's own `keys` and `values` answers as `get` does on that dictionary, for every key |
| ExampleDictionaries.LookupScenario | DictionarySolution.java:62-77 | on integer and string lists, `lookup` finds 4, 5, "11" and "ucsd" and returns absent for keys 5 and "abc" |
| ExampleDictionaries.DictionaryScenario | DictionarySolution.java:79-115 | after the test's five puts, the keys are a, b, c, d, the values are 4, 2, 3, 5, and the reads give 4, 2, 3, 5 and absent for "e" |
| ExampleDictionaries.InsertThree | DictionarySolution.java:80-93 | a new dictionary has size 0; after putting a, b, c the lists are [a, b, c] and [1, 2, 3] |
| ExampleDictionaries.ReadFirstThree | DictionarySolution.java:90-93 | on that dictionary `get` gives 1, 2, 3 and absent for "d" |
| ExampleDictionaries.UpdateExisting | DictionarySolution.java:95-105 | putting a again gives 4 for a, keeps the size at 3 and keeps b and c at 2 and 3 |
| ExampleDictionaries.ReadAll | DictionarySolution.java:109-114 | after putting d, `get` gives 4, 2, 3, 5 and absent for "e" |

## Left out

- Java's `equals`: a user-defined equality may be inconsistent, and a stored `null` key throws `NullPointerException` (DictionarySolution.java:24, 37, 55). The model uses Dafny's value equality and has no null keys.
- `null` as a stored value. In Java it cannot be told apart from "not found". The model returns `Option`, so a stored value is always `Some`.
- ExampleDictionaries.Lookup: requires `keys` and `values` to have equal length. The Java method throws `IndexOutOfBoundsException` only when the first match lies beyond the end of `values` (DictionarySolution.java:56); that exception is not modelled.
- Dictionaries.Dictionary.Put: requires the class invariant `Valid()`. Every dictionary built by the constructor and changed only by `Put` satisfies it. The Java fields are package-visible, and direct writes to them that break the invariant are not modelled.
- `ArrayList` growth and capacity: the lists are plain sequences.
- The `tester` harness and the commented-out earlier version of `put` (DictionarySolution.java:17-21). The test expectations appear only as the scenario methods above.
