/** Optional values, standing in for the C# `null` that the handlers test for. */
module Wrappers {

  /** `None` plays the part of a null reference; `Some(v)` a present value. */
  datatype Option<+T> = None | Some(value: T)

  /** The value stored under `k`, if any, in the manner of `Dictionary.TryGetValue`. */
  function Get<K, V>(m: map<K, V>, k: K): (r: Option<V>)
    ensures r.Some? <==> k in m
    ensures r.Some? ==> r.value == m[k]
  {
    if k in m then Some(m[k]) else None
  }
}
