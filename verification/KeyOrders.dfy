/** The orders in which a loop may take the keys of a map: Go leaves the choice open. */
module KeyOrders {
  /** Every one of the keys once. */
  ghost predicate Lists(order: seq<string>, keys: set<string>) {
    (forall k :: k in order <==> k in keys) && forall i, j :: 0 <= i < j < |order| ==> order[i] != order[j]
  }

  lemma ListsOneMore(order: seq<string>, keys: set<string>, key: string)
    requires Lists(order, keys) && key !in keys
    ensures Lists(order + [key], keys + {key})
  {
  }

  lemma {:induction false} SomeOrder(keys: set<string>) returns (order: seq<string>)
    ensures Lists(order, keys)
    decreases |keys|
  {
    order := [];
    if keys != {} {
      var k :| k in keys;
      order := OrderFrom(keys, k);
    }
  }

  /** Any key can come first. */
  lemma {:induction false} OrderFrom(keys: set<string>, first: string) returns (order: seq<string>)
    requires first in keys
    ensures Lists(order, keys) && order != [] && order[0] == first
    decreases |keys|, 0
  {
    var rest := SomeOrder(keys - {first});
    order := [first] + rest;
    assert forall x :: x in order <==> x == first || x in rest;
  }
}
