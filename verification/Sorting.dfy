/** Sorting by an integer key. */
module Sorting {
  predicate OrderedBy<T>(es: seq<T>, key: T -> int) {
    forall i, j | 0 <= i < j < |es| :: key(es[i]) <= key(es[j])
  }

  function Inserted<T>(e: T, es: seq<T>, key: T -> int): seq<T> {
    if es == [] || key(e) <= key(es[0]) then [e] + es else [es[0]] + Inserted(e, es[1..], key)
  }

  function SortBy<T>(es: seq<T>, key: T -> int): seq<T> {
    if es == [] then [] else Inserted(es[0], SortBy(es[1..], key), key)
  }

  lemma {:induction false} InsertedIsThere<T>(e: T, es: seq<T>, key: T -> int)
    ensures multiset(Inserted(e, es, key)) == multiset(es) + multiset{e}
  {
    if es != [] && key(e) > key(es[0]) {
      InsertedIsThere(e, es[1..], key);
      assert es == [es[0]] + es[1..];
    }
  }

  lemma {:induction false} InsertedInOrder<T>(e: T, es: seq<T>, key: T -> int)
    requires OrderedBy(es, key)
    ensures OrderedBy(Inserted(e, es, key), key)
  {
    if es != [] && key(e) > key(es[0]) {
      InsertedInOrder(e, es[1..], key);
      var rest := Inserted(e, es[1..], key);
      InsertedIsThere(e, es[1..], key);
      forall x | x in rest
        ensures key(es[0]) <= key(x)
      {
        assert x in multiset(rest);
      }
    }
  }

  /** Sorting rearranges the elements into key order. */
  lemma {:induction false} SortByOrders<T>(es: seq<T>, key: T -> int)
    ensures OrderedBy(SortBy(es, key), key) && multiset(SortBy(es, key)) == multiset(es)
  {
    if es != [] {
      SortByOrders(es[1..], key);
      InsertedInOrder(es[0], SortBy(es[1..], key), key);
      InsertedIsThere(es[0], SortBy(es[1..], key), key);
      assert es == [es[0]] + es[1..];
    }
  }
}
