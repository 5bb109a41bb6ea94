/**
 * The adapter registries of the registry service: a list of adapters is
 * collected once into a map keyed by the type each adapter reports
 * (Collectors.toMap, which refuses a key seen twice), and a lookup of a
 * type with no adapter fails with "unsupported type".
 */
module Registries {
  import opened Common

  /** The keys of a list of entries. */
  function Keys<K, V>(entries: seq<(K, V)>): seq<K> {
    seq(|entries|, i requires 0 <= i < |entries| => entries[i].0)
  }

  predicate Distinct<K(==)>(ks: seq<K>) {
    forall i, j :: 0 <= i < j < |ks| ==> ks[i] != ks[j]
  }

  /** Collectors.toMap: entries are added left to right; the first key met a second time fails the build. */
  function ToMap<K(==), V>(entries: seq<(K, V)>): (r: Result<map<K, V>, K>)
    decreases |entries|
  {
    if entries == [] then Ok(map[])
    else
      var front := ToMap(entries[..|entries| - 1]);
      var (k, v) := entries[|entries| - 1];
      if front.Err? then front
      else if k in front.value then Err(k)
      else Ok(front.value[k := v])
  }

  /** The build succeeds exactly when no key repeats, and then maps every key to its entry's value. */
  lemma {:induction false} ToMapSpec<K, V>(entries: seq<(K, V)>)
    ensures ToMap(entries).Ok? <==> Distinct(Keys(entries))
    ensures ToMap(entries).Ok? ==>
              && ToMap(entries).value.Keys == (set i | 0 <= i < |entries| :: entries[i].0)
              && forall i :: 0 <= i < |entries| ==> ToMap(entries).value[entries[i].0] == entries[i].1
    ensures ToMap(entries).Err? ==> ToMap(entries).error in Keys(entries)
    decreases |entries|
  {
    if entries != [] {
      var n := |entries|;
      var front := entries[..n - 1];
      ToMapSpec(front);
      var (k, v) := entries[n - 1];
      assert forall i :: 0 <= i < n - 1 ==> front[i] == entries[i];
      assert Keys(entries) == Keys(front) + [k];
      if ToMap(front).Ok? {
        if k in ToMap(front).value {
          var i :| 0 <= i < n - 1 && front[i].0 == k;
          assert Keys(entries)[i] == Keys(entries)[n - 1];
        } else {
          assert forall i :: 0 <= i < n - 1 ==> Keys(entries)[i] != k;
        }
      } else {
        assert !Distinct(Keys(front));
        var i, j :| 0 <= i < j < n - 1 && Keys(front)[i] == Keys(front)[j];
        assert Keys(entries)[i] == Keys(entries)[j];
      }
    }
  }

  /** getAdapter: the adapter registered for the key, or "unsupported type: <key>". */
  function Lookup<K(==), V>(registry: map<K, V>, key: K, keyName: string): (r: Result<V, string>)
    ensures r.Ok? <==> key in registry
    ensures r.Ok? ==> r.value == registry[key]
    ensures r.Err? ==> r.error == "unsupported type: " + keyName
  {
    if key in registry then Ok(registry[key]) else Err("unsupported type: " + keyName)
  }
}
