/** Reciprocal-rank fusion of the popularity order with a relevance ranking. */
module Fusion {
  import opened Tables
  import opened Sorting

  const RRF_K := 60

  /** A row with its fused score and its popularity rank. */
  datatype Entry = Entry(score: real, pop: nat, row: Id)

  function Term(rank: nat): (r: real)
    ensures 0.0 < r <= 1.0 / RRF_K as real
  {
    1.0 / (RRF_K + rank) as real
  }

  function Score(pop: nat, rel: Option<nat>): real {
    Term(pop) + if rel.Some? then Term(rel.value) else 0.0
  }

  function RankIn(relevance: map<Id, nat>, row: Id): Option<nat> {
    if row in relevance then Some(relevance[row]) else None
  }

  function EntryAt(rows: seq<Id>, relevance: map<Id, nat>, i: nat): Entry
    requires i < |rows|
  {
    Entry(Score(i, RankIn(relevance, rows[i])), i, rows[i])
  }

  function Entries(rows: seq<Id>, relevance: map<Id, nat>): seq<Entry> {
    seq(|rows|, i requires 0 <= i < |rows| => EntryAt(rows, relevance, i))
  }

  /** The local store sorts by descending score, then by popularity rank. */
  predicate ByScoreThenPop(a: Entry, b: Entry) {
    a.score > b.score || (a.score == b.score && a.pop <= b.pop)
  }

  /** The remote store sorts by descending score and relies on stability. */
  predicate ByScore(a: Entry, b: Entry) {
    a.score >= b.score
  }

  function Rows(entries: seq<Entry>): seq<Id> {
    seq(|entries|, i requires 0 <= i < |entries| => entries[i].row)
  }

  /** The order of the fused entries: the specification of both loops. */
  function Fused(rows: seq<Id>, relevance: map<Id, nat>): seq<Entry> {
    Sort(Entries(rows, relevance), ByScoreThenPop)
  }

  method FuseByRelevance(rows: seq<Id>, relevance: map<Id, nat>) returns (out: seq<Id>)
    ensures out == Rows(Fused(rows, relevance))
  {
    if relevance == map[] {
      NothingMatched(rows, relevance);
      return rows;
    }
    var scored: seq<Entry> := [];
    for pop := 0 to |rows|
      invariant scored == Entries(rows, relevance)[..pop]
    {
      var score := 1.0 / (RRF_K + pop) as real;
      if rows[pop] in relevance {
        score := score + 1.0 / (RRF_K + relevance[rows[pop]]) as real;
      }
      scored := scored + [Entry(score, pop, rows[pop])];
    }
    assert scored == Entries(rows, relevance);
    out := Rows(Sort(scored, ByScoreThenPop));
  }

  /** The remote store's fusion, which sorts also when no row of the bucket matched. */
  method FuseBucket(rows: seq<Id>, relevance: map<Id, nat>) returns (out: seq<Id>)
    ensures out == Rows(Fused(rows, relevance))
  {
    StableSortAgrees(rows, relevance);
    out := Rows(Sort(Entries(rows, relevance), ByScore));
  }

  // ---- what the fused order promises ----

  lemma OrderIsTotal()
    ensures IsOrder(ByScoreThenPop)
  {
  }

  /** Leaving ties to stability gives the order of the explicit tie-breaker. */
  lemma StableSortAgrees(rows: seq<Id>, relevance: map<Id, nat>)
    ensures Sort(Entries(rows, relevance), ByScore) == Fused(rows, relevance)
  {
    SortsAlike(Entries(rows, relevance), ByScore, ByScoreThenPop);
  }

  /** Fusion loses, adds and repeats nothing. */
  lemma FusedIsPermutation(rows: seq<Id>, relevance: map<Id, nat>)
    ensures multiset(Rows(Fused(rows, relevance))) == multiset(rows)
    ensures multiset(Fused(rows, relevance)) == multiset(Entries(rows, relevance))
  {
    var entries := Entries(rows, relevance);
    SortPermutes(entries, ByScoreThenPop);
    RowsOfSort(entries);
    assert Rows(entries) == rows;
  }

  lemma {:induction false} RowsOfInsert(s: seq<Entry>, x: Entry)
    ensures multiset(Rows(Insert(s, x, ByScoreThenPop))) == multiset(Rows(s)) + multiset{x.row}
  {
    var last := |s| - 1;
    if s == [] || ByScoreThenPop(s[last], x) {
      assert Rows(s + [x]) == Rows(s) + [x.row];
    } else {
      RowsOfInsert(s[..last], x);
      var front := Insert(s[..last], x, ByScoreThenPop);
      assert Rows(front + [s[last]]) == Rows(front) + [s[last].row];
      assert Rows(s) == Rows(s[..last]) + [s[last].row];
    }
  }

  lemma {:induction false} RowsOfSort(s: seq<Entry>)
    ensures multiset(Rows(Sort(s, ByScoreThenPop))) == multiset(Rows(s))
  {
    if s != [] {
      var last := |s| - 1;
      RowsOfSort(s[..last]);
      RowsOfInsert(Sort(s[..last], ByScoreThenPop), s[last]);
      assert Rows(s) == Rows(s[..last]) + [s[last].row];
    }
  }

  /** When no row is matched the order stays as it was. */
  lemma NothingMatched(rows: seq<Id>, relevance: map<Id, nat>)
    requires forall r :: r in rows ==> r !in relevance
    ensures Rows(Fused(rows, relevance)) == rows
  {
    var entries := Entries(rows, relevance);
    forall i, j | 0 <= i < j < |entries| ensures ByScoreThenPop(entries[i], entries[j]) {
      assert rows[i] in rows && rows[j] in rows;
      TermFalls(i, j);
    }
    SortedStays(entries, ByScoreThenPop);
    assert Rows(entries) == rows;
  }

  lemma TermFalls(a: nat, b: nat)
    ensures a <= b <==> Term(a) >= Term(b)
    ensures a < b <==> Term(a) > Term(b)
  {
    Reciprocals((RRF_K + a) as real, (RRF_K + b) as real, Term(a), Term(b));
  }

  lemma Reciprocals(x: real, y: real, u: real, v: real)
    requires x > 0.0 && y > 0.0 && u * x == 1.0 && v * y == 1.0
    ensures x < y <==> u > v
    ensures x == y <==> u == v
  {
    assert (u - v) * (x * y) == (u * x) * y - (v * y) * x;
    assert x * y > 0.0;
  }

  /** At least as good on both legs; no rank is worse than any rank. */
  predicate NotWorse(a: Option<nat>, b: Option<nat>) {
    b.None? || (a.Some? && a.value <= b.value)
  }

  /** Row `i` comes before row `j` in the fused list. */
  ghost predicate Precedes(rows: seq<Id>, relevance: map<Id, nat>, i: nat, j: nat)
    requires i < |rows| && j < |rows|
  {
    var f := Fused(rows, relevance);
    exists p, q :: 0 <= p < q < |f| && f[p] == EntryAt(rows, relevance, i) && f[q] == EntryAt(rows, relevance, j)
  }

  lemma Placed(rows: seq<Id>, relevance: map<Id, nat>, i: nat) returns (p: nat)
    requires i < |rows|
    ensures p < |Fused(rows, relevance)| && Fused(rows, relevance)[p] == EntryAt(rows, relevance, i)
  {
    var e := Entries(rows, relevance)[i];
    assert e in Entries(rows, relevance);
    SameElements(Entries(rows, relevance), ByScoreThenPop, e);
    p :| 0 <= p < |Fused(rows, relevance)| && Fused(rows, relevance)[p] == e;
  }

  /** The fused order is exactly: higher score first, then better popularity rank. */
  lemma PrecedesIff(rows: seq<Id>, relevance: map<Id, nat>, i: nat, j: nat)
    requires i < |rows| && j < |rows| && i != j
    ensures Precedes(rows, relevance, i, j) <==> ByScoreThenPop(EntryAt(rows, relevance, i), EntryAt(rows, relevance, j))
  {
    OrderIsTotal();
    SortSorts(Entries(rows, relevance), ByScoreThenPop);
    var p := Placed(rows, relevance, i);
    var q := Placed(rows, relevance, j);
    assert p != q;
    if p > q {
      assert ByScoreThenPop(EntryAt(rows, relevance, j), EntryAt(rows, relevance, i));
    }
  }

  /** A row that is better or equal on both legs, and better on one, comes first. In
      particular unmatched rows keep their order among themselves. */
  lemma Dominance(rows: seq<Id>, relevance: map<Id, nat>, i: nat, j: nat)
    requires i < j < |rows|
    requires NotWorse(RankIn(relevance, rows[i]), RankIn(relevance, rows[j]))
    ensures Precedes(rows, relevance, i, j)
  {
    TermFalls(i, j);
    var a, b := RankIn(relevance, rows[i]), RankIn(relevance, rows[j]);
    if a.Some? && b.Some? {
      TermFalls(a.value, b.value);
    }
    PrecedesIff(rows, relevance, i, j);
  }

  /** A matched row whose two ranks are below the constant passes every unmatched
      row, however popular. */
  lemma MatchedAheadOfUnmatched(rows: seq<Id>, relevance: map<Id, nat>, i: nat, j: nat)
    requires i < |rows| && j < |rows|
    requires i < RRF_K && rows[i] in relevance && relevance[rows[i]] < RRF_K
    requires rows[j] !in relevance
    ensures Precedes(rows, relevance, i, j)
  {
    TermFalls(i, RRF_K - 1);
    TermFalls(relevance[rows[i]], RRF_K - 1);
    TermFalls(0, j);
    PrecedesIff(rows, relevance, i, j);
  }

  /** The bound cannot be raised: with both ranks at the constant a matched row ties
      with the most popular row and loses the tie. */
  lemma BoundIsTight(rows: seq<Id>, relevance: map<Id, nat>)
    requires |rows| > RRF_K && rows[0] !in relevance
    requires rows[RRF_K] in relevance && relevance[rows[RRF_K]] == RRF_K
    ensures Precedes(rows, relevance, 0, RRF_K)
  {
    PrecedesIff(rows, relevance, 0, RRF_K);
  }
}
