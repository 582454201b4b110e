/** The keys of a Python dictionary in the order they were inserted or last moved. */
module KeyOrder {

  function KeySet(order: seq<string>): set<string> {
    if order == [] then {} else {order[0]} + KeySet(order[1..])
  }

  ghost predicate Distinct(order: seq<string>) {
    order != [] ==> order[0] !in KeySet(order[1..]) && Distinct(order[1..])
  }

  lemma {:induction false} KeysAppend(order: seq<string>, key: string)
    ensures KeySet(order + [key]) == KeySet(order) + {key}
    ensures Distinct(order + [key]) <==> Distinct(order) && key !in KeySet(order)
  {
    if order != [] {
      assert (order + [key])[1..] == order[1..] + [key];
      KeysAppend(order[1..], key);
    } else {
      assert (order + [key])[1..] == [];
    }
  }

  lemma KeysInit(order: seq<string>)
    requires order != []
    ensures var init, last := order[..|order| - 1], order[|order| - 1];
            && KeySet(order) == KeySet(init) + {last}
            && (Distinct(order) <==> Distinct(init) && last !in KeySet(init))
  {
    assert order == order[..|order| - 1] + [order[|order| - 1]];
    KeysAppend(order[..|order| - 1], order[|order| - 1]);
  }

  lemma {:induction false} SizeOfDistinct(order: seq<string>)
    requires Distinct(order)
    ensures |order| == |KeySet(order)|
  {
    if order != [] { SizeOfDistinct(order[1..]); }
  }
}
