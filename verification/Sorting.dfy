/** Array.prototype.sort: a stable sort by a comparator, given as "may stand before". */
module Sorting {
  import opened Basics

  ghost predicate TotalOrder<T(!new)>(leq: (T, T) -> bool) {
    && (forall a, b :: leq(a, b) || leq(b, a))
    && (forall a, b, c :: leq(a, b) && leq(b, c) ==> leq(a, c))
  }

  ghost predicate SortedBy<T(!new)>(leq: (T, T) -> bool, s: seq<T>) {
    forall i, j :: 0 <= i < j < |s| ==> leq(s[i], s[j])
  }

  function Insert<T>(leq: (T, T) -> bool, s: seq<T>, x: T): seq<T> {
    if s == [] || leq(Last(s), x) then s + [x] else Insert(leq, s[..|s| - 1], x) + [Last(s)]
  }

  function StableSort<T>(leq: (T, T) -> bool, s: seq<T>): seq<T> {
    if s == [] then [] else Insert(leq, StableSort(leq, s[..|s| - 1]), Last(s))
  }

  lemma FrontAndLast<T>(s: seq<T>)
    requires s != []
    ensures multiset(s) == multiset(s[..|s| - 1]) + multiset{Last(s)}
    ensures multiset(s[..|s| - 1]) == multiset(s) - multiset{Last(s)}
  {
    assert s == s[..|s| - 1] + [Last(s)];
  }

  lemma {:induction false} InsertPermutes<T>(leq: (T, T) -> bool, s: seq<T>, x: T)
    ensures multiset(Insert(leq, s, x)) == multiset(s) + multiset{x}
  {
    if s != [] && !leq(Last(s), x) {
      InsertPermutes(leq, s[..|s| - 1], x);
      FrontAndLast(s);
    }
  }

  lemma {:induction false} InsertSorts<T(!new)>(leq: (T, T) -> bool, s: seq<T>, x: T)
    requires TotalOrder(leq) && SortedBy(leq, s)
    ensures SortedBy(leq, Insert(leq, s, x))
  {
    if s != [] {
      var front := s[..|s| - 1];
      var r := Insert(leq, front, x);
      InsertSorts(leq, front, x);
      InsertPermutes(leq, front, x);
      forall i | 0 <= i < |r| && !leq(Last(s), x) ensures leq(r[i], Last(s)) {
        assert r[i] in multiset(r);
        assert r[i] in multiset(front) || r[i] == x;
      }
      forall i | 0 <= i < |s| && leq(Last(s), x) ensures leq(s[i], x) {
        assert i < |s| - 1 ==> leq(s[i], Last(s));
      }
    }
  }

  /** Sorting gives a permutation. */
  lemma {:induction false} SortPermutes<T>(leq: (T, T) -> bool, s: seq<T>)
    ensures multiset(StableSort(leq, s)) == multiset(s)
  {
    if s != [] {
      SortPermutes(leq, s[..|s| - 1]);
      InsertPermutes(leq, StableSort(leq, s[..|s| - 1]), Last(s));
      FrontAndLast(s);
    }
  }

  /** By a total order it gives a sorted one. */
  lemma {:induction false} SortSorts<T(!new)>(leq: (T, T) -> bool, s: seq<T>)
    requires TotalOrder(leq)
    ensures SortedBy(leq, StableSort(leq, s))
  {
    if s != [] {
      SortSorts(leq, s[..|s| - 1]);
      InsertSorts(leq, StableSort(leq, s[..|s| - 1]), Last(s));
    }
  }
}
