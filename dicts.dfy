/**
 * Python's `dict` keyed by strings: a map together with the order in which
 * keys were first inserted, which is the order `dict.items()` iterates.
 */
module Dicts {

  datatype Dict<V> = Dict(keys: seq<string>, entries: map<string, V>)

  /** Each key is listed once, and the listed keys are exactly the entries' keys. */
  ghost predicate Valid<V>(d: Dict<V>) {
    && (forall i, j :: 0 <= i < j < |d.keys| ==> d.keys[i] != d.keys[j])
    && (forall k :: k in d.entries <==> k in d.keys)
  }

  function Empty<V>(): (d: Dict<V>)
    ensures Valid(d) && d.keys == []
  {
    Dict([], map[])
  }

  /** `d[k] = v`: a new key goes last; an existing key keeps its place. */
  function Put<V>(d: Dict<V>, k: string, v: V): (r: Dict<V>)
    requires Valid(d)
    ensures Valid(r)
    ensures r.entries == d.entries[k := v]
    ensures r.keys == if k in d.entries then d.keys else d.keys + [k]
  {
    if k in d.entries then Dict(d.keys, d.entries[k := v])
    else Dict(d.keys + [k], d.entries[k := v])
  }

  /** `d.get(k, default)`. */
  function Get<V>(d: Dict<V>, k: string, default: V): (v: V)
    ensures k in d.entries ==> v == d.entries[k]
    ensures k !in d.entries ==> v == default
  {
    if k in d.entries then d.entries[k] else default
  }
}
