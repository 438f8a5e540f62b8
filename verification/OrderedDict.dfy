/** Python dictionaries: a finite map together with its insertion order. */
module OrderedDict {

  predicate Distinct<T(==)>(s: seq<T>)
  {
    forall i, j :: 0 <= i < j < |s| ==> s[i] != s[j]
  }

  datatype Dict<K(==), V> = Dict(keys: seq<K>, vals: map<K, V>)
  {
    predicate Valid()
    {
      && Distinct(keys)
      && (forall k | k in keys :: k in vals)
      && (forall k | k in vals :: k in keys)
    }

    /** `d[k] = v`: an existing key keeps its place, a new one goes last. */
    function Put(k: K, v: V): (d: Dict<K, V>)
      requires Valid()
      ensures d.Valid()
      ensures d.vals == vals[k := v]
      ensures d.keys == if k in vals then keys else keys + [k]
    {
      if k in vals then Dict(keys, vals[k := v]) else Dict(keys + [k], vals[k := v])
    }
  }

  function Empty<K(==), V>(): (d: Dict<K, V>)
    ensures d.Valid()
  {
    Dict([], map[])
  }
}
