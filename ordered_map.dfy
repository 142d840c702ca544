/**
 * A JavaScript object used as a dictionary with string keys: lookups by key
 * plus the insertion order that `Object.keys` reports. The game's bomb
 * inventories (`bombsRemaining`) and level bomb tables are such objects.
 */
module OrderedMap {

  import opened Wrappers

  datatype Dict<V> = Dict(keys: seq<string>, vals: map<string, V>)

  /** Keys are listed once each, and exactly the keys of the map are listed. */
  predicate Valid<V>(d: Dict<V>)
  {
    (forall i, j :: 0 <= i < j < |d.keys| ==> d.keys[i] != d.keys[j]) &&
    (forall k :: k in d.vals ==> k in d.keys) &&
    (forall i :: 0 <= i < |d.keys| ==> d.keys[i] in d.vals)
  }

  function Empty<V>(): (d: Dict<V>)
    ensures Valid(d) && d.keys == []
  {
    Dict([], map[])
  }

  /** `hasOwnProperty`. */
  predicate Has<V>(d: Dict<V>, k: string)
  {
    k in d.vals
  }

  function Get<V>(d: Dict<V>, k: string): Option<V>
  {
    if k in d.vals then Some(d.vals[k]) else None
  }

  /** `o[k] = v`: an existing key keeps its place, a new key goes last. */
  function Put<V>(d: Dict<V>, k: string, v: V): (r: Dict<V>)
    ensures Valid(d) ==> Valid(r)
    ensures r.vals == d.vals[k := v]
    ensures r.keys == if k in d.vals then d.keys else d.keys + [k]
  {
    Dict(if k in d.vals then d.keys else d.keys + [k], d.vals[k := v])
  }

  /** An object literal: the given distinct keys in order, each with its value. */
  function FromLists<V>(keys: seq<string>, vals: seq<V>): (d: Dict<V>)
    requires |keys| == |vals|
    requires forall i, j :: 0 <= i < j < |keys| ==> keys[i] != keys[j]
    ensures Valid(d) && d.keys == keys
    ensures forall i :: 0 <= i < |keys| ==> d.vals[keys[i]] == vals[i]
  {
    var m := map i | 0 <= i < |keys| :: keys[i] := vals[i];
    assert forall i :: 0 <= i < |keys| ==> keys[i] in m && m[keys[i]] == vals[i];
    Dict(keys, m)
  }

  /** Every existing key set to `v`; order unchanged. */
  function SetAll<V>(d: Dict<V>, v: V): (r: Dict<V>)
    ensures Valid(d) ==> Valid(r)
    ensures r.keys == d.keys && r.vals.Keys == d.vals.Keys
    ensures forall k :: k in r.vals ==> r.vals[k] == v
  {
    Dict(d.keys, map k | k in d.vals :: v)
  }

  /** The first of `keys` whose count is positive, in order (a missing count is not positive). */
  function FirstPositiveIn(keys: seq<string>, vals: map<string, int>): (r: Option<string>)
    ensures r.Some? ==> r.value in keys && r.value in vals && vals[r.value] > 0
    ensures r.None? <==> forall i :: 0 <= i < |keys| ==> !(keys[i] in vals && vals[keys[i]] > 0)
    ensures r.Some? ==> exists i :: 0 <= i < |keys| && keys[i] == r.value &&
                                    forall j :: 0 <= j < i ==> !(keys[j] in vals && vals[keys[j]] > 0)
    decreases |keys|
  {
    if |keys| == 0 then None
    else if keys[0] in vals && vals[keys[0]] > 0 then Some(keys[0])
    else
      var r := FirstPositiveIn(keys[1..], vals);
      assert r.Some? ==> exists i :: 0 <= i < |keys| - 1 && keys[1..][i] == r.value &&
                                      forall j :: 0 <= j < i ==> !(keys[1..][j] in vals && vals[keys[1..][j]] > 0);
      r
  }

  /** `Object.keys(d).find(k => d[k] > 0)`. */
  function FirstPositive(d: Dict<int>): Option<string>
  {
    FirstPositiveIn(d.keys, d.vals)
  }

  /** `Object.values(d).some(c => c > 0)`. */
  predicate AnyPositive(d: Dict<int>)
  {
    exists k :: k in d.vals && d.vals[k] > 0
  }

  /** No count is negative. */
  predicate NonNegative(d: Dict<int>)
  {
    forall k :: k in d.vals ==> d.vals[k] >= 0
  }

  /** The first positive key exists exactly when some count is positive. */
  lemma FirstPositiveIffAny(d: Dict<int>)
    requires Valid(d)
    ensures FirstPositive(d).Some? <==> AnyPositive(d)
  {
    if AnyPositive(d) {
      var k :| k in d.vals && d.vals[k] > 0;
      assert k in d.keys;
      var i :| 0 <= i < |d.keys| && d.keys[i] == k;
    }
  }
}
