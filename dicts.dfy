/**
 * A Python `dict` with string keys: its keys in insertion order and the value
 * stored under each. Assigning to a present key keeps its position.
 */
module Dicts {
  datatype Dict<V> = Dict(order: seq<string>, values: map<string, V>)
  {
    /** Every key occurs once in `order`, and `order` lists exactly the stored keys. */
    ghost predicate Valid()
    {
      (forall i, j :: 0 <= i < j < |order| ==> order[i] != order[j]) &&
      (forall k :: k in values <==> k in order)
    }

    /** `d[k] = v`. */
    function Put(k: string, v: V): (r: Dict<V>)
      ensures Valid() ==> r.Valid()
      ensures r.values == values[k := v]
      ensures k in values ==> r.order == order
      ensures k !in values ==> r.order == order + [k]
    {
      Dict(if k in values then order else order + [k], values[k := v])
    }
  }

  function Empty<V>(): (d: Dict<V>)
    ensures d.Valid() && d.values == map[]
  {
    Dict([], map[])
  }
}
