/** The JavaScript Map with string keys: its entries, and its keys in the order they were first set. */
module InsertionMap {
  import opened Basics

  datatype Map<V> = Map(order: seq<string>, table: map<string, V>)

  function Without(order: seq<string>, gone: set<string>): seq<string> {
    if order == [] then [] else Without(order[..|order| - 1], gone) + if Last(order) !in gone then [Last(order)] else []
  }

  /** map.set: a known key keeps its place. */
  function Put<V>(m: Map<V>, k: string, v: V): Map<V> {
    Map(if k in m.table then m.order else m.order + [k], m.table[k := v])
  }

  /** map.delete, of any number of keys. */
  function Drop<V>(m: Map<V>, gone: set<string>): Map<V> {
    Map(Without(m.order, gone), m.table - gone)
  }

  ghost predicate Distinct(order: seq<string>) {
    forall i, j :: 0 <= i < j < |order| ==> order[i] != order[j]
  }

  /** The order lists every key once. */
  ghost predicate Consistent<V(!new)>(m: Map<V>) {
    (forall k :: k in m.order <==> k in m.table) && Distinct(m.order)
  }

  lemma LastIsNew(order: seq<string>)
    requires order != [] && Distinct(order)
    ensures Last(order) !in order[..|order| - 1]
  {
  }

  lemma {:induction false} WithoutSelects(order: seq<string>, gone: set<string>)
    requires Distinct(order)
    ensures forall k :: k in Without(order, gone) <==> k in order && k !in gone
    ensures Distinct(Without(order, gone))
  {
    if order != [] {
      assert order == order[..|order| - 1] + [Last(order)];
      WithoutSelects(order[..|order| - 1], gone);
      LastIsNew(order);
    }
  }

  lemma DropKeepsConsistent<V(!new)>(m: Map<V>, gone: set<string>)
    requires Consistent(m)
    ensures Consistent(Drop(m, gone))
  {
    WithoutSelects(m.order, gone);
  }

  lemma {:induction false} WithoutTwice(order: seq<string>, gone: set<string>, more: set<string>)
    ensures Without(Without(order, gone), more) == Without(order, gone + more)
  {
    if order != [] {
      var front := Without(order[..|order| - 1], gone);
      WithoutTwice(order[..|order| - 1], gone, more);
      assert (front + [Last(order)])[..|front|] == front;
      assert front + [] == front;
    }
  }

  lemma {:induction false} WithoutNothing(order: seq<string>)
    ensures Without(order, {}) == order
  {
    if order != [] {
      WithoutNothing(order[..|order| - 1]);
      assert order == order[..|order| - 1] + [Last(order)];
    }
  }
}
