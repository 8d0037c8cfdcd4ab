/** The JavaScript `Map` the engine keeps its groups and counters in: a finite
    map that also remembers the order in which keys were first set, which is
    the order `forEach`, `entries()` and `values()` visit them. */
module OrderedMaps {

  datatype OrderedMap<K(==,!new), V> = OrderedMap(keys: seq<K>, values: map<K, V>)
  {
    /** Every key is listed exactly once, and only keys are listed. */
    ghost predicate Valid()
    {
      && (forall i, j | 0 <= i < j < |keys| :: keys[i] != keys[j])
      && (forall k :: k in values <==> k in keys)
    }

    /** `Map.prototype.set`: a new key goes last, an existing key keeps its place. */
    function Set(k: K, v: V): (r: OrderedMap<K, V>)
      requires Valid()
      ensures r.Valid()
      ensures r.values == values[k := v]
      ensures k in values ==> r.keys == keys
      ensures k !in values ==> r.keys == keys + [k]
    {
      OrderedMap(if k in values then keys else keys + [k], values[k := v])
    }

    /** `Map.prototype.get(k) || dflt`. */
    function GetOr(k: K, dflt: V): V
    {
      if k in values then values[k] else dflt
    }

    /** `Array.from(map.entries())`: key and value pairs in key order. */
    function Entries(): (r: seq<(K, V)>)
      requires Valid()
      ensures |r| == |keys|
      ensures forall i | 0 <= i < |keys| :: r[i] == (keys[i], values[keys[i]])
    {
      seq(|keys|, i requires 0 <= i < |keys| => (keys[i], values[keys[i]]))
    }

    /** `Array.from(map.values())`. */
    function Values(): (r: seq<V>)
      requires Valid()
      ensures |r| == |keys|
      ensures forall i | 0 <= i < |keys| :: r[i] == values[keys[i]]
    {
      seq(|keys|, i requires 0 <= i < |keys| => values[keys[i]])
    }
  }

  /** `new Map()`. */
  function Empty<K(==,!new), V>(): (m: OrderedMap<K, V>)
    ensures m.Valid() && m.keys == [] && m.values == map[]
  {
    OrderedMap([], map[])
  }

  /** Overwriting the value of a listed key changes only that key's place in `Values()`. */
  lemma SetExistingValues<K(!new), V>(m: OrderedMap<K, V>, i: nat, v: V)
    requires m.Valid() && i < |m.keys|
    ensures m.Set(m.keys[i], v).Values() == m.Values()[i := v]
  {
  }

  /** Setting a new key appends its value to `Values()`. */
  lemma SetNewValues<K(!new), V>(m: OrderedMap<K, V>, k: K, v: V)
    requires m.Valid() && k !in m.values
    ensures m.Set(k, v).Values() == m.Values() + [v]
  {
  }
}
