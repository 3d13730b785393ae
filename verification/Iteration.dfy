/** Iterating over a map: the keys come in an arbitrary order. */
module Iteration {

  /** A map yields its keys in some order, each once. */
  ghost predicate IsOrder<K(!new)>(order: seq<K>, keys: set<K>) {
    && |order| == |keys|
    && (forall k :: k in order <==> k in keys)
    && (forall i :: 0 <= i < |order| ==> order[i] in keys)
    && (forall i, j :: 0 <= i < j < |order| ==> order[i] != order[j])
  }

  method IterationOrder<K(==,!new)>(keys: set<K>) returns (order: seq<K>)
    ensures IsOrder(order, keys)
  {
    order := [];
    var rest := keys;
    while rest != {}
      invariant rest <= keys && IsOrder(order, keys - rest)
      decreases |rest|
    {
      var k :| k in rest;
      order := order + [k];
      rest := rest - {k};
    }
  }

  /** Every finite set of keys has an order. */
  lemma {:induction false} OrderExists<K(!new)>(keys: set<K>) returns (order: seq<K>)
    ensures IsOrder(order, keys)
  {
    if keys == {} {
      order := [];
    } else {
      var k :| k in keys;
      var rest := OrderExists(keys - {k});
      order := rest + [k];
    }
  }

  /** The values of a map, its keys visited in the given order. */
  function InOrder<K, V>(m: map<K, V>, order: seq<K>): (vs: seq<V>)
    requires forall i :: 0 <= i < |order| ==> order[i] in m
    ensures |vs| == |order| && forall i :: 0 <= i < |vs| ==> vs[i] == m[order[i]]
  {
    seq(|order|, i requires 0 <= i < |order| => m[order[i]])
  }
}
