/** The merge graph. `superseded_by` pointers form a forest: from every reflection
    they lead, in at most as many hops as there are superseded rows, to a row that
    is not superseded, its root. A merge joins two trees at their roots. */
module Forest {
  import opened Tables
  import opened Synthesis

  type Rows = map<Id, Reflection>

  function SupersededRows(rows: Rows): set<Id> {
    set r | r in rows && rows[r].supersededBy.Some?
  }

  /** At most `hops` steps along `superseded_by`. */
  function Follow(rows: Rows, id: Id, hops: nat): Id
    decreases hops
  {
    if hops == 0 || id !in rows || rows[id].supersededBy.None? then id
    else Follow(rows, rows[id].supersededBy.value, hops - 1)
  }

  predicate IsRoot(rows: Rows, id: Id) {
    id in rows && rows[id].supersededBy.None?
  }

  /** A row points elsewhere exactly when its status says superseded. */
  predicate Matched(rows: Rows) {
    forall r :: r in rows ==> (rows[r].status == Superseded <==> rows[r].supersededBy.Some?)
  }

  predicate IsForest(rows: Rows) {
    && Matched(rows)
    && (forall r :: r in rows ==> IsRoot(rows, Follow(rows, r, |SupersededRows(rows)|)))
  }

  function Root(rows: Rows, id: Id): Id {
    Follow(rows, id, |SupersededRows(rows)|)
  }

  lemma {:induction false} FollowSettles(rows: Rows, id: Id, n: nat, m: nat)
    requires n <= m && IsRoot(rows, Follow(rows, id, n))
    ensures Follow(rows, id, m) == Follow(rows, id, n)
    decreases n
  {
    if n > 0 && id in rows && rows[id].supersededBy.Some? {
      FollowSettles(rows, rows[id].supersededBy.value, n - 1, m - 1);
    }
  }

  /** A root is its own root, and every hop stays in the same tree. */
  lemma RootOfHop(rows: Rows, id: Id)
    requires IsForest(rows) && id in rows
    ensures IsRoot(rows, Root(rows, id))
    ensures IsRoot(rows, id) ==> Root(rows, id) == id
    ensures rows[id].supersededBy.Some? ==>
              && rows[id].supersededBy.value in rows
              && Root(rows, id) == Root(rows, rows[id].supersededBy.value)
  {
    if rows[id].supersededBy.Some? {
      var n := |SupersededRows(rows)|;
      var next := rows[id].supersededBy.value;
      assert id in SupersededRows(rows);
      assert Follow(rows, id, n) == Follow(rows, next, n - 1);
      FollowSettles(rows, next, n - 1, n);
    }
  }

  // ---- operations that leave every pointer alone ----

  /** `after` keeps every pointer of `before` and adds only roots. */
  predicate SamePointers(before: Rows, after: Rows) {
    && (forall r :: r in before ==> r in after && after[r].supersededBy == before[r].supersededBy)
    && (forall r :: r in after && r !in before ==> after[r].supersededBy.None?)
  }

  /** A dangling id is its own end, so what settles is a row. */
  lemma SettledIsRow(rows: Rows, id: Id, n: nat)
    requires IsRoot(rows, Follow(rows, id, n))
    ensures id in rows
  {
  }

  lemma {:induction false} FollowFrame(before: Rows, after: Rows, id: Id, n: nat)
    requires SamePointers(before, after) && id in before && IsRoot(before, Follow(before, id, n))
    ensures Follow(after, id, n) == Follow(before, id, n)
    decreases n
  {
    if n > 0 && before[id].supersededBy.Some? {
      var next := before[id].supersededBy.value;
      SettledIsRow(before, next, n - 1);
      FollowFrame(before, after, next, n - 1);
    }
  }

  lemma PointersFrame(before: Rows, after: Rows)
    requires IsForest(before) && SamePointers(before, after)
    requires Matched(after)
    ensures IsForest(after)
    ensures forall r :: r in before ==> Root(after, r) == Root(before, r)
    ensures forall r :: r in after && r !in before ==> Root(after, r) == r
  {
    assert SupersededRows(after) == SupersededRows(before);
    var n := |SupersededRows(before)|;
    forall r | r in before ensures Follow(after, r, n) == Follow(before, r, n) {
      FollowFrame(before, after, r, n);
    }
  }

  // ---- a merge ----

  /** `after` differs from `before` only in that the root `s` points to the root `t`. */
  predicate Joins(before: Rows, after: Rows, s: Id, t: Id) {
    && IsRoot(before, s) && IsRoot(before, t) && s != t
    && after.Keys == before.Keys
    && after[s].supersededBy == Some(t)
    && (forall r :: r in before && r != s ==> after[r].supersededBy == before[r].supersededBy)
  }

  lemma {:induction false} FollowJoin(before: Rows, after: Rows, s: Id, t: Id, id: Id, n: nat)
    requires Joins(before, after, s, t) && id in before && IsRoot(before, Follow(before, id, n))
    ensures Follow(after, id, n + 1) ==
            if Follow(before, id, n) == s then t else Follow(before, id, n)
    decreases n
  {
    if n > 0 && before[id].supersededBy.Some? {
      var next := before[id].supersededBy.value;
      SettledIsRow(before, next, n - 1);
      FollowJoin(before, after, s, t, next, n - 1);
    } else if id == s {
      assert Follow(after, s, n + 1) == Follow(after, t, n);
    }
  }

  /** The tree of `s`, and nothing else, now hangs under `t`. */
  predicate RootsJoin(before: Rows, after: Rows, s: Id, t: Id) {
    forall r :: r in before ==> Root(after, r) == if Root(before, r) == s then t else Root(before, r)
  }

  lemma JoinCounts(before: Rows, after: Rows, s: Id, t: Id)
    requires Joins(before, after, s, t)
    ensures |SupersededRows(after)| == |SupersededRows(before)| + 1
  {
    assert SupersededRows(after) == SupersededRows(before) + {s};
  }

  /** Merging root `s` into root `t` keeps the forest and moves exactly the tree of
      `s` under `t`. */
  lemma JoinKeepsForest(before: Rows, after: Rows, s: Id, t: Id)
    requires IsForest(before) && Joins(before, after, s, t)
    requires Matched(after)
    ensures IsForest(after)
    ensures RootsJoin(before, after, s, t)
  {
    JoinCounts(before, after, s, t);
    var n := |SupersededRows(before)|;
    forall r | r in before
      ensures Follow(after, r, n + 1) == if Follow(before, r, n) == s then t else Follow(before, r, n)
    {
      FollowJoin(before, after, s, t, r, n);
    }
  }
}
