/** Walking a set: the program goes through maps and directories in orders it does not choose. */
module Orderings {
  /** `order` names every element of `s` once. */
  ghost predicate Orders(order: seq<string>, s: set<string>) {
    && (forall k :: k in order <==> k in s)
    && (forall i, j :: 0 <= i < j < |order| ==> order[i] != order[j])
  }

  lemma OrdersOneMore(order: seq<string>, s: set<string>, k: string)
    requires Orders(order, s) && k !in s
    ensures Orders(order + [k], s + {k})
  {
  }

  lemma {:induction false} SomeOrder(s: set<string>) returns (order: seq<string>)
    ensures Orders(order, s)
  {
    if s == {} {
      order := [];
    } else {
      var k :| k in s;
      order := SomeOrder(s - {k});
      OrdersOneMore(order, s - {k}, k);
      assert s - {k} + {k} == s;
      order := order + [k];
    }
  }
}
