/** Python's stable sort, by the order `leq` on keys. */
module Sorting {

  ghost predicate IsOrder<T(!new)>(leq: (T, T) -> bool) {
    && (forall a, b :: leq(a, b) || leq(b, a))
    && (forall a, b, c :: leq(a, b) && leq(b, c) ==> leq(a, c))
  }

  /** Puts `x` behind every element that is not greater. */
  function Insert<T>(s: seq<T>, x: T, leq: (T, T) -> bool): seq<T> {
    if s == [] || leq(s[|s| - 1], x) then s + [x]
    else Insert(s[..|s| - 1], x, leq) + [s[|s| - 1]]
  }

  function Sort<T>(s: seq<T>, leq: (T, T) -> bool): seq<T> {
    if s == [] then [] else Insert(Sort(s[..|s| - 1], leq), s[|s| - 1], leq)
  }

  ghost predicate Sorted<T>(s: seq<T>, leq: (T, T) -> bool) {
    forall i, j :: 0 <= i < j < |s| ==> leq(s[i], s[j])
  }

  lemma {:induction false} InsertPermutes<T>(s: seq<T>, x: T, leq: (T, T) -> bool)
    ensures multiset(Insert(s, x, leq)) == multiset(s) + multiset{x}
  {
    if s != [] && !leq(s[|s| - 1], x) {
      InsertPermutes(s[..|s| - 1], x, leq);
      assert s == s[..|s| - 1] + [s[|s| - 1]];
    }
  }

  lemma {:induction false} InsertSorts<T(!new)>(s: seq<T>, x: T, leq: (T, T) -> bool)
    requires IsOrder(leq) && Sorted(s, leq)
    ensures Sorted(Insert(s, x, leq), leq)
  {
    if s != [] && !leq(s[|s| - 1], x) {
      var front, last := s[..|s| - 1], s[|s| - 1];
      InsertSorts(front, x, leq);
      InsertPermutes(front, x, leq);
      var r := Insert(front, x, leq);
      forall i | 0 <= i < |r| ensures leq(r[i], last) {
        assert r[i] in multiset(r);
      }
    }
  }

  lemma {:induction false} SortPermutes<T>(s: seq<T>, leq: (T, T) -> bool)
    ensures multiset(Sort(s, leq)) == multiset(s) && |Sort(s, leq)| == |s|
  {
    if s != [] {
      SortPermutes(s[..|s| - 1], leq);
      InsertPermutes(Sort(s[..|s| - 1], leq), s[|s| - 1], leq);
      assert s == s[..|s| - 1] + [s[|s| - 1]];
    }
    assert |multiset(Sort(s, leq))| == |Sort(s, leq)| && |multiset(s)| == |s|;
  }

  lemma {:induction false} SortSorts<T(!new)>(s: seq<T>, leq: (T, T) -> bool)
    requires IsOrder(leq)
    ensures Sorted(Sort(s, leq), leq)
  {
    if s != [] {
      SortSorts(s[..|s| - 1], leq);
      InsertSorts(Sort(s[..|s| - 1], leq), s[|s| - 1], leq);
    }
  }

  lemma SameElements<T>(s: seq<T>, leq: (T, T) -> bool, x: T)
    ensures x in Sort(s, leq) <==> x in s
  {
    SortPermutes(s, leq);
    assert x in Sort(s, leq) <==> x in multiset(Sort(s, leq));
    assert x in s <==> x in multiset(s);
  }

  /** Two orders that never disagree about an element and a later one sort alike:
      stability makes the position in the input the last tie-breaker. */
  lemma {:induction false} SortsAlike<T>(s: seq<T>, leq: (T, T) -> bool, other: (T, T) -> bool)
    requires forall i, j :: 0 <= i < j < |s| ==> leq(s[i], s[j]) == other(s[i], s[j])
    ensures Sort(s, leq) == Sort(s, other)
  {
    if s != [] {
      var front, last := s[..|s| - 1], s[|s| - 1];
      SortsAlike(front, leq, other);
      forall e | e in Sort(front, leq) ensures leq(e, last) == other(e, last) {
        SameElements(front, leq, e);
        var i :| 0 <= i < |front| && front[i] == e;
        assert s[i] == e;
      }
      InsertsAlike(Sort(front, leq), last, leq, other);
    }
  }

  lemma {:induction false} InsertsAlike<T>(s: seq<T>, x: T, leq: (T, T) -> bool, other: (T, T) -> bool)
    requires forall e :: e in s ==> leq(e, x) == other(e, x)
    ensures Insert(s, x, leq) == Insert(s, x, other)
  {
    if s != [] {
      InsertsAlike(s[..|s| - 1], x, leq, other);
      assert s[|s| - 1] in s;
    }
  }

  /** A sorted list is a fixpoint. */
  lemma {:induction false} SortedStays<T>(s: seq<T>, leq: (T, T) -> bool)
    requires Sorted(s, leq)
    ensures Sort(s, leq) == s
  {
    if s != [] {
      SortedStays(s[..|s| - 1], leq);
      assert s == s[..|s| - 1] + [s[|s| - 1]];
    }
  }
}
