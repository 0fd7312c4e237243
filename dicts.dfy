/**
  Python's `dict`: a finite map that also remembers the order in which its keys
  were first inserted (iteration order). Assigning to a key that is already
  present replaces the value and keeps the key's position.
*/
module Dicts {

  datatype Dict<K(==, !new), V> = Dict(keys: seq<K>, m: map<K, V>) {

    /** The keys are listed once each, and they are exactly the keys of the map. */
    ghost predicate Valid() {
      && (forall i, j :: 0 <= i < j < |keys| ==> keys[i] != keys[j])
      && (forall k :: k in m <==> k in keys)
    }

    /** `d[k] = v` */
    function Put(k: K, v: V): (r: Dict<K, V>)
      requires Valid()
      ensures r.Valid()
      ensures r.m == m[k := v]
      ensures k in m ==> r.keys == keys
      ensures k !in m ==> r.keys == keys + [k]
    {
      if k in m then Dict(keys, m[k := v]) else Dict(keys + [k], m[k := v])
    }

    /** `list(d.values())`, in iteration order. */
    function Values(): (r: seq<V>)
      requires Valid()
      ensures |r| == |keys|
      ensures forall i :: 0 <= i < |keys| ==> r[i] == m[keys[i]]
    {
      seq(|keys|, i requires 0 <= i < |keys| => m[keys[i]])
    }
  }

  /** `dict()` */
  function Empty<K(==, !new), V>(): (d: Dict<K, V>)
    ensures d.Valid() && d.keys == [] && d.m == map[]
  {
    Dict([], map[])
  }

  /** Every value of a dict appears among its values. */
  lemma ValuesListAll<K(!new), V>(d: Dict<K, V>)
    requires d.Valid()
    ensures forall k :: k in d.m ==> d.m[k] in d.Values()
  {
    forall k | k in d.m
      ensures d.m[k] in d.Values()
    {
      var j :| 0 <= j < |d.keys| && d.keys[j] == k;
      assert d.Values()[j] == d.m[k];
    }
  }
}
