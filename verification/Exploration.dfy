/** The bucket fill with one slot reserved for a memory too young to be ranked. */
module Exploration {
  import opened Tables
  import opened Sorting

  /** Below this many rated exposures a row is untested. */
  const EXPLORATION_RATED_FLOOR := 3

  datatype Row = Row(id: Id, useful: nat, overlooked: nat, ignored: nat)

  function Rated(r: Row): nat {
    r.useful + r.overlooked + r.ignored
  }

  predicate Tested(r: Row) {
    Rated(r) >= EXPLORATION_RATED_FLOOR
  }

  /** How many of the first `n` rows are tested (or are untested). */
  function Count(group: seq<Row>, tested: bool, n: nat): (c: nat)
    requires n <= |group|
    ensures c <= n
  {
    if n == 0 then 0
    else Count(group, tested, n - 1) + if Tested(group[n - 1]) == tested then 1 else 0
  }

  /** Row `i` is among the best `a` tested or the best `b` untested rows. */
  predicate Among(group: seq<Row>, a: nat, b: nat, i: nat)
    requires i < |group|
  {
    Count(group, Tested(group[i]), i) < if Tested(group[i]) then a else b
  }

  predicate Increasing(s: seq<nat>) {
    forall i, j :: 0 <= i < j < |s| ==> s[i] < s[j]
  }

  function Min(a: int, b: int): int {
    if a <= b then a else b
  }

  /** How many tested rows the bucket takes: one slot is kept free when some row is
      untested. */
  function TestedSlots(group: seq<Row>, cap: nat): (a: nat)
    requires cap >= 2
  {
    Min(Count(group, true, |group|), if Count(group, false, |group|) > 0 then cap - 1 else cap)
  }

  function UntestedSlots(group: seq<Row>, cap: nat): (b: nat)
    requires cap >= 2
  {
    Min(Count(group, false, |group|), cap - TestedSlots(group, cap))
  }

  /** What the fill promises for a cap of at least 2. */
  ghost predicate Fills(group: seq<Row>, cap: nat, chosen: seq<nat>)
    requires cap >= 2
  {
    && Increasing(chosen)
    && |chosen| == Min(cap, |group|)
    && (forall i :: i in chosen ==> i < |group|)
    && (forall i :: 0 <= i < |group| ==>
          (i in chosen <==> Among(group, TestedSlots(group, cap), UntestedSlots(group, cap), i)))
  }

  // ---- counting ----

  lemma {:induction false} CountMonotone(group: seq<Row>, tested: bool, m: nat, n: nat)
    requires m <= n <= |group|
    ensures Count(group, tested, m) <= Count(group, tested, n)
    ensures m < n && Tested(group[m]) == tested ==> Count(group, tested, m) < Count(group, tested, n)
  {
    if m < n {
      CountMonotone(group, tested, m, n - 1);
    }
  }

  lemma {:induction false} CountsAddUp(group: seq<Row>, n: nat)
    requires n <= |group|
    ensures Count(group, true, n) + Count(group, false, n) == n
  {
    if n > 0 {
      CountsAddUp(group, n - 1);
    }
  }

  /** The rows chosen so far, in any order: nothing twice, and exactly the best `a`
      tested and the best `b` untested rows. */
  ghost predicate Holds(group: seq<Row>, a: nat, b: nat, chosen: seq<nat>) {
    && (forall i, j :: 0 <= i < j < |chosen| ==> chosen[i] != chosen[j])
    && |chosen| == a + b
    && (forall i :: i in chosen ==> i < |group|)
    && (forall i :: 0 <= i < |group| ==> (i in chosen <==> Among(group, a, b, i)))
  }

  predicate IsNth(group: seq<Row>, tested: bool, i: nat, k: nat) {
    i < |group| && Tested(group[i]) == tested && Count(group, tested, i) == k
  }

  /** The indices of the tested (or untested) rows among the first `n`. */
  function Listed(group: seq<Row>, tested: bool, n: nat): (idx: seq<nat>)
    requires n <= |group|
    ensures |idx| == Count(group, tested, n)
  {
    if n == 0 then []
    else Listed(group, tested, n - 1) + if Tested(group[n - 1]) == tested then [n - 1] else []
  }

  lemma {:induction false} ListedInRank(group: seq<Row>, tested: bool, n: nat, k: nat)
    requires n <= |group| && k < Count(group, tested, n)
    ensures IsNth(group, tested, Listed(group, tested, n)[k], k)
  {
    if k < Count(group, tested, n - 1) {
      ListedInRank(group, tested, n - 1, k);
    }
  }

  method IndicesOf(group: seq<Row>, tested: bool) returns (idx: seq<nat>)
    ensures idx == Listed(group, tested, |group|)
  {
    idx := [];
    for i := 0 to |group|
      invariant idx == Listed(group, tested, i)
    {
      if Tested(group[i]) == tested {
        idx := idx + [i];
      }
    }
  }

  lemma NthIsUnique(group: seq<Row>, tested: bool, i: nat, j: nat, k: nat)
    requires IsNth(group, tested, i, k) && IsNth(group, tested, j, k)
    ensures i == j
  {
    if i < j {
      CountMonotone(group, tested, i, j);
    } else if j < i {
      CountMonotone(group, tested, j, i);
    }
  }

  function ReservedTested(group: seq<Row>, cap: nat): nat
    requires cap >= 2
  {
    Min(Count(group, true, |group|), cap - 1)
  }

  function ReservedUntested(group: seq<Row>, cap: nat): nat {
    Min(Count(group, false, |group|), 1)
  }

  /** The reserved part: all slots but one for tested rows, the last one for the
      first untested row. */
  function Reserved(group: seq<Row>, cap: nat): seq<nat>
    requires cap >= 2
  {
    var t, u := Listed(group, true, |group|), Listed(group, false, |group|);
    t[..Min(|t|, cap - 1)] + u[..Min(|u|, 1)]
  }

  lemma ReservedMembers(group: seq<Row>, cap: nat, i: nat)
    requires cap >= 2 && i < |group|
    ensures i in Reserved(group, cap) <==>
      Among(group, ReservedTested(group, cap), ReservedUntested(group, cap), i)
  {
    var tested := Tested(group[i]);
    var t, u := Listed(group, true, |group|), Listed(group, false, |group|);
    var a, b := Min(|t|, cap - 1), Min(|u|, 1);
    CountMonotone(group, tested, i, |group|);
    var k := Count(group, tested, i);
    ListedInRank(group, tested, |group|, k);
    NthIsUnique(group, tested, i, Listed(group, tested, |group|)[k], k);
    if Among(group, a, b, i) {
      assert i == if tested then t[..a][k] else u[..b][k];
    }
    forall j | 0 <= j < a && t[j] == i ensures tested && k == j {
      ListedInRank(group, true, |group|, j);
    }
    forall j | 0 <= j < b && u[j] == i ensures !tested && k == j {
      ListedInRank(group, false, |group|, j);
    }
  }

  lemma ReservedDistinct(group: seq<Row>, cap: nat)
    requires cap >= 2
    ensures forall i, j :: 0 <= i < j < |Reserved(group, cap)| ==> Reserved(group, cap)[i] != Reserved(group, cap)[j]
    ensures forall i :: i in Reserved(group, cap) ==> i < |group|
  {
    var r := Reserved(group, cap);
    var a := Min(Count(group, true, |group|), cap - 1);
    forall i | 0 <= i < |r|
      ensures IsNth(group, i < a, r[i], if i < a then i else i - a)
    {
      ListedInRank(group, i < a, |group|, if i < a then i else i - a);
    }
  }

  method FirstPass(group: seq<Row>, cap: nat) returns (chosen: seq<nat>, exploration: Option<nat>)
    requires cap >= 2
    ensures chosen == Reserved(group, cap)
    ensures Holds(group, ReservedTested(group, cap), ReservedUntested(group, cap), chosen)
    ensures exploration.None? <==> Count(group, false, |group|) == 0
    ensures exploration.Some? ==> IsNth(group, false, exploration.value, 0)
  {
    var testedIdx := IndicesOf(group, true);
    var untestedIdx := IndicesOf(group, false);
    chosen := testedIdx[..Min(|testedIdx|, cap - 1)];
    exploration := None;
    if |untestedIdx| > 0 {
      ListedInRank(group, false, |group|, 0);
      assert untestedIdx[..1] == [untestedIdx[0]];
      chosen := chosen + [untestedIdx[0]];
      exploration := Some(untestedIdx[0]);
    }
    assert chosen == Reserved(group, cap);
    ReservedDistinct(group, cap);
    forall i | 0 <= i < |group|
      ensures i in chosen <==>
        Among(group, ReservedTested(group, cap), ReservedUntested(group, cap), i)
    {
      ReservedMembers(group, cap, i);
    }
  }

  lemma AddBest(group: seq<Row>, a: nat, b: nat, chosen: seq<nat>, i: nat)
    requires i < |group| && Holds(group, a, b, chosen)
    requires Count(group, Tested(group[i]), i) == if Tested(group[i]) then a else b
    ensures i !in chosen
    ensures Tested(group[i]) ==> Holds(group, a + 1, b, chosen + [i])
    ensures !Tested(group[i]) ==> Holds(group, a, b + 1, chosen + [i])
  {
    var next := chosen + [i];
    forall j | 0 <= j < |group| && Tested(group[j]) == Tested(group[i])
      ensures Count(group, Tested(group[i]), j) == Count(group, Tested(group[i]), i) ==> j == i
    {
      if j < i {
        CountMonotone(group, Tested(group[i]), j, i);
      } else {
        CountMonotone(group, Tested(group[i]), i, j);
      }
    }
    forall j | 0 <= j < |group|
      ensures j in next <==> Among(group, if Tested(group[i]) then a + 1 else a, if Tested(group[i]) then b else b + 1, j)
    {
      assert j in next <==> j in chosen || j == i;
    }
  }

  function Max(a: int, b: int): int {
    if a >= b then a else b
  }

  predicate Leq(a: nat, b: nat) { a <= b }

  /** Sorting indices without repetition. */
  lemma DistinctSort(chosen: seq<nat>)
    requires forall i, j :: 0 <= i < j < |chosen| ==> chosen[i] != chosen[j]
    ensures Increasing(Sort(chosen, Leq)) && |Sort(chosen, Leq)| == |chosen|
    ensures forall i :: i in Sort(chosen, Leq) <==> i in chosen
  {
    SortSorts(chosen, Leq);
    SortPermutes(chosen, Leq);
    var r := Sort(chosen, Leq);
    forall i ensures i in r <==> i in chosen {
      SameElements(chosen, Leq, i);
    }
    DistinctMultiset(chosen);
    forall i, j | 0 <= i < j < |r| ensures r[i] != r[j] {
      CountOfTwo(r, i, j);
    }
  }

  lemma CountOfTwo(r: seq<nat>, i: nat, j: nat)
    requires i < j < |r|
    ensures r[i] == r[j] ==> multiset(r)[r[i]] >= 2
  {
    assert r == r[..i] + [r[i]] + r[i + 1..j] + [r[j]] + r[j + 1..];
  }

  lemma {:induction false} DistinctMultiset(s: seq<nat>)
    requires forall i, j :: 0 <= i < j < |s| ==> s[i] != s[j]
    ensures forall x :: multiset(s)[x] <= 1
  {
    if s != [] {
      var front, last := s[..|s| - 1], s[|s| - 1];
      DistinctMultiset(front);
      assert s == front + [last];
      assert last !in front;
    }
  }

  /** The state of the top-up after looking at the first `i` rows. */
  ghost predicate ToppedUp(group: seq<Row>, cap: nat, i: nat, chosen: seq<nat>)
    requires cap >= 2 && i <= |group|
  {
    Holds(group, Max(ReservedTested(group, cap), Count(group, true, i)),
          Max(ReservedUntested(group, cap), Count(group, false, i)), chosen)
  }

  lemma TopUpStep(group: seq<Row>, cap: nat, reserved: seq<nat>, chosen: seq<nat>, i: nat)
    requires cap >= 2 && i < |group| && ToppedUp(group, cap, i, chosen)
    requires Holds(group, ReservedTested(group, cap), ReservedUntested(group, cap), reserved)
    ensures ToppedUp(group, cap, i + 1, if i in reserved then chosen else chosen + [i])
  {
    var a, b := ReservedTested(group, cap), ReservedUntested(group, cap);
    assert i in reserved <==> Among(group, a, b, i);
    if i !in reserved {
      AddBest(group, Max(a, Count(group, true, i)), Max(b, Count(group, false, i)), chosen, i);
    }
  }

  lemma TopUpStarts(group: seq<Row>, cap: nat, reserved: seq<nat>)
    requires cap >= 2 && Holds(group, ReservedTested(group, cap), ReservedUntested(group, cap), reserved)
    ensures ToppedUp(group, cap, 0, reserved)
  {
  }

  /** What was reserved is taken, so the top-up ends at the promised slots. */
  lemma SlotsReached(group: seq<Row>, cap: nat, i: nat, chosen: seq<nat>)
    requires cap >= 2 && i <= |group| && ToppedUp(group, cap, i, chosen)
    requires |chosen| == cap || (|chosen| < cap && i == |group|)
    ensures Holds(group, TestedSlots(group, cap), UntestedSlots(group, cap), chosen)
  {
    CountsAddUp(group, |group|);
    CountMonotone(group, true, i, |group|);
    CountMonotone(group, false, i, |group|);
  }

  lemma TopUpEnds(group: seq<Row>, cap: nat, i: nat, chosen: seq<nat>)
    requires cap >= 2 && i <= |group| && ToppedUp(group, cap, i, chosen)
    requires |chosen| <= cap && (i == |group| || |chosen| >= cap)
    ensures Holds(group, TestedSlots(group, cap), UntestedSlots(group, cap), chosen)
  {
    SlotsReached(group, cap, i, chosen);
  }

  /** Fills up with the best rows that were not reserved. */
  method TopUp(group: seq<Row>, cap: nat, reserved: seq<nat>) returns (chosen: seq<nat>)
    requires cap >= 2 && |reserved| <= cap
    requires Holds(group, ReservedTested(group, cap), ReservedUntested(group, cap), reserved)
    ensures Holds(group, TestedSlots(group, cap), UntestedSlots(group, cap), chosen)
  {
    chosen := reserved;
    var taken := set k | k in reserved;
    var i := 0;
    TopUpStarts(group, cap, reserved);
    while i < |group| && |chosen| < cap
      invariant 0 <= i <= |group|
      invariant ToppedUp(group, cap, i, chosen)
      invariant |chosen| <= cap
    {
      TopUpStep(group, cap, reserved, chosen, i);
      if i !in taken {
        chosen := chosen + [i];
      }
      i := i + 1;
    }
    TopUpEnds(group, cap, i, chosen);
  }

  lemma SortedFills(group: seq<Row>, cap: nat, chosen: seq<nat>)
    requires cap >= 2 && Holds(group, TestedSlots(group, cap), UntestedSlots(group, cap), chosen)
    ensures Fills(group, cap, Sort(chosen, Leq))
  {
    OneSlotForTheUntested(group, cap);
    DistinctSort(chosen);
  }

  /** The two-pass fill for a cap of at least 2. */
  method Reserve(group: seq<Row>, cap: nat) returns (chosen: seq<nat>, exploration: Option<nat>)
    requires cap >= 2
    ensures Fills(group, cap, chosen)
    ensures exploration.None? <==> Count(group, false, |group|) == 0
    ensures exploration.Some? ==> IsNth(group, false, exploration.value, 0) && exploration.value in chosen
  {
    chosen, exploration := FirstPass(group, cap);
    if |chosen| < cap {
      chosen := TopUp(group, cap, chosen);
    } else {
      SlotsReached(group, cap, 0, chosen);
    }
    SortedFills(group, cap, chosen);
    chosen := Sort(chosen, Leq);
  }

  /** Python's `s[:k]`, which counts a negative `k` from the end. */
  function Upto<T>(s: seq<T>, k: int): seq<T> {
    if k >= 0 then s[..Min(k, |s|)] else s[..Max(0, |s| + k)]
  }

  /** The rows at the chosen indices. */
  ghost predicate Picks(group: seq<Row>, chosen: seq<nat>, rows: seq<Row>) {
    |rows| == |chosen| && forall k :: 0 <= k < |rows| ==> chosen[k] < |group| && rows[k] == group[chosen[k]]
  }

  /** The id that is reported as the exploration pick: the best untested row's. */
  ghost predicate IsPick(group: seq<Row>, pick: Option<Id>) {
    && (pick.None? <==> Count(group, false, |group|) == 0)
    && (pick.Some? ==> exists i: nat :: IsNth(group, false, i, 0) && pick.value == group[i].id)
  }

  /** One bucket: without a cap, with one too small to reserve a slot, or with two
      slots or more. */
  method FillBucket(group: seq<Row>, cap: Option<int>) returns (rows: seq<Row>, exploration: Option<Id>)
    ensures cap.None? ==> rows == group && exploration == None
    ensures cap.Some? && cap.value < 2 ==> rows == Upto(group, cap.value) && exploration == None
    ensures cap.Some? && cap.value >= 2 ==>
      IsPick(group, exploration) && exists chosen :: Fills(group, cap.value, chosen) && Picks(group, chosen, rows)
  {
    if cap.None? {
      return group, None;
    }
    if cap.value < 2 {
      return Upto(group, cap.value), None;
    }
    var chosen, first := Reserve(group, cap.value);
    assert forall k :: 0 <= k < |chosen| ==> chosen[k] in chosen;
    rows := seq(|chosen|, k requires 0 <= k < |chosen| => group[chosen[k]]);
    exploration := if first.Some? then Some(group[first.value].id) else None;
    assert Picks(group, chosen, rows);
  }

  // ---- consequences ----

  /** The promise leaves no choice. */
  lemma FillIsUnique(group: seq<Row>, cap: nat, one: seq<nat>, other: seq<nat>)
    requires cap >= 2 && Fills(group, cap, one) && Fills(group, cap, other)
    ensures one == other
  {
    forall i ensures i in one <==> i in other {
      if 0 <= i < |group| {
        assert i in one <==> i in other;
      }
    }
    IncreasingUnique(one, other);
  }

  lemma FrontMembers(s: seq<nat>, i: nat)
    requires Increasing(s) && s != []
    ensures i in s[..|s| - 1] <==> i in s && i != s[|s| - 1]
  {
    assert s == s[..|s| - 1] + [s[|s| - 1]];
  }

  lemma {:induction false} IncreasingUnique(s: seq<nat>, t: seq<nat>)
    requires Increasing(s) && Increasing(t) && forall i :: i in s <==> i in t
    ensures s == t
    decreases |s|
  {
    assert s != [] ==> s[|s| - 1] in t;
    assert t != [] ==> t[|t| - 1] in s;
    if s != [] {
      var front, rest := s[..|s| - 1], t[..|t| - 1];
      assert s[|s| - 1] == t[|t| - 1];
      forall i ensures i in front <==> i in rest {
        FrontMembers(s, i);
        FrontMembers(t, i);
      }
      IncreasingUnique(front, rest);
      assert s == front + [s[|s| - 1]] && t == rest + [t[|t| - 1]];
    }
  }

  /** While a bucket has room for two, an untested row never starves and never takes
      more than one slot from the tested ones. */
  lemma OneSlotForTheUntested(group: seq<Row>, cap: nat)
    requires cap >= 2
    ensures Count(group, false, |group|) > 0 ==> UntestedSlots(group, cap) >= 1
    ensures TestedSlots(group, cap) >= Min(Count(group, true, |group|), cap - 1)
    ensures UntestedSlots(group, cap) > 1 ==> TestedSlots(group, cap) == Count(group, true, |group|)
    ensures TestedSlots(group, cap) + UntestedSlots(group, cap) == Min(cap, |group|)
  {
    CountsAddUp(group, |group|);
  }
}
