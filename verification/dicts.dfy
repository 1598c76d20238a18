/**
 * Insertion-ordered dictionaries with integer keys, the shape of the
 * per-opponent dictionaries of the tournament: the order in which the keys
 * were inserted, and the key-to-value map.
 */
module Dicts {

  datatype Dict<V> = Dict(keys: seq<int>, values: map<int, V>) {

    /** Keys are listed once each, and exactly the listed keys have values. */
    ghost predicate Valid() {
      && (forall i, j :: 0 <= i < j < |keys| ==> keys[i] != keys[j])
      && (forall k :: k in values <==> k in keys)
      && (forall i :: 0 <= i < |keys| ==> keys[i] in values)
    }
  }

  /** `d.get(k, default)` */
  function Get<V>(d: Dict<V>, k: int, default: V): V {
    if k in d.values then d.values[k] else default
  }
}
