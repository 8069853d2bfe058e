/** The function constants of react/Functions.java that carry logic. */
module Functions {
  import opened Common

  /** `NOT`: boolean negation. */
  function Not(b: bool): (r: bool)
    ensures r != b
  {
    !b
  }

  /** `Map.get`: the value stored under `k`, or null when `k` has no entry. */
  function Get<K, V>(m: map<K, Option<V>>, k: K): (r: Option<V>)
    ensures k !in m ==> r.None?
  {
    if k in m then m[k] else None
  }

  /**
   * The function that `forMap(m, dflt)` returns, applied to `k`, with the
   * test as written: a non-null value, or a key the map contains.
   */
  function ForMap<K, V>(m: map<K, Option<V>>, dflt: Option<V>, k: K): (r: Option<V>)
  {
    var value := Get(m, k);
    if value.Some? || k in m then value else dflt
  }

  /**
   * `forMap` answers the stored value for every key the map contains, even
   * a null one, and the default exactly for the keys it does not contain.
   */
  lemma ForMapMeaning<K, V>(m: map<K, Option<V>>, dflt: Option<V>, k: K)
    ensures k in m ==> ForMap(m, dflt, k) == m[k]
    ensures k in m && m[k].None? ==> ForMap(m, dflt, k).None?
    ensures k !in m ==> ForMap(m, dflt, k) == dflt
  {
  }
}
