/** Conservation of ratings. Each rated exposure is counted exactly once, in the
    column of its class, by the root of the reflection it was served from: a merge
    loses no rating and counts none twice. */
module Conservation {
  import opened Tables
  import opened Synthesis
  import opened Rating
  import opened Forest

  /** One ledger row per session, kind and memory. */
  predicate UniqueExposures(exposures: seq<Exposure>) {
    forall i, j :: 0 <= i < j < |exposures| ==>
      !IsFor(exposures[j], exposures[i].session, Item(exposures[i].kind, exposures[i].memory))
  }

  predicate RatedAs(e: Exposure, kind: Kind, group: Group) {
    e.kind == kind && e.rating.Some? && GroupOf(e.rating.value.verdict) == group
  }

  /** Rated exposures of one kind and group whose memory is in `ids`. */
  function RatedIn(exposures: seq<Exposure>, kind: Kind, group: Group, ids: set<Id>): nat {
    if |exposures| == 0 then 0
    else
      var last := exposures[|exposures| - 1];
      RatedIn(exposures[..|exposures| - 1], kind, group, ids)
      + if RatedAs(last, kind, group) && last.memory in ids then 1 else 0
  }

  /** The reflections that lead to `root` along `superseded_by`. */
  function Tree(rows: Rows, root: Id): set<Id> {
    set m | m in rows && Root(rows, m) == root
  }

  predicate RatedKnown(exposures: seq<Exposure>, rows: Rows) {
    forall i :: 0 <= i < |exposures| && exposures[i].kind == ReflectionKind && exposures[i].rating.Some?
      ==> exposures[i].memory in rows
  }

  ghost predicate ReflectionsConserved(exposures: seq<Exposure>, rows: Rows) {
    forall r, g :: IsRoot(rows, r) ==>
      CounterOf(rows[r].counters, g) == RatedIn(exposures, ReflectionKind, g, Tree(rows, r))
  }

  ghost predicate SemanticsConserved(exposures: seq<Exposure>, semantics: map<Id, Counters>) {
    forall m, g :: m in semantics ==> CounterOf(semantics[m], g) == RatedIn(exposures, SemanticKind, g, {m})
  }

  ghost predicate ConservationInv(db: Database) {
    && IsForest(db.reflections)
    && UniqueExposures(db.exposures)
    && RatedKnown(db.exposures, db.reflections)
    && ReflectionsConserved(db.exposures, db.reflections)
    && SemanticsConserved(db.exposures, db.semantics)
  }

  // ---- counting ----

  lemma {:induction false} RatedInSplits(exposures: seq<Exposure>, kind: Kind, group: Group, a: set<Id>, b: set<Id>)
    requires a !! b
    ensures RatedIn(exposures, kind, group, a + b)
            == RatedIn(exposures, kind, group, a) + RatedIn(exposures, kind, group, b)
  {
    if |exposures| > 0 { RatedInSplits(exposures[..|exposures| - 1], kind, group, a, b); }
  }

  lemma {:induction false} RatedInNone(exposures: seq<Exposure>, kind: Kind, group: Group, ids: set<Id>)
    requires forall i :: 0 <= i < |exposures| && RatedAs(exposures[i], kind, group) ==> exposures[i].memory !in ids
    ensures RatedIn(exposures, kind, group, ids) == 0
  {
    if |exposures| > 0 { RatedInNone(exposures[..|exposures| - 1], kind, group, ids); }
  }

  /** Rating one unrated row moves one count by one and no other. */
  lemma {:induction false} RatedInUpdate(
      exposures: seq<Exposure>, i: nat, e: Exposure, kind: Kind, group: Group, ids: set<Id>)
    requires i < |exposures| && exposures[i].rating.None?
    requires e.memory == exposures[i].memory
    ensures RatedIn(exposures[i := e], kind, group, ids)
            == RatedIn(exposures, kind, group, ids) + if RatedAs(e, kind, group) && e.memory in ids then 1 else 0
  {
    var n := |exposures| - 1;
    if i < n {
      RatedInUpdate(exposures[..n], i, e, kind, group, ids);
      assert exposures[i := e][..n] == exposures[..n][i := e];
    } else {
      assert exposures[i := e][..n] == exposures[..n];
    }
  }

  // ---- trees ----

  lemma TreeFrame(before: Rows, after: Rows, root: Id)
    requires IsForest(before) && IsForest(after) && SamePointers(before, after)
    requires forall r :: r in before ==> Root(after, r) == Root(before, r)
    requires forall r :: r in after && r !in before ==> Root(after, r) == r
    ensures Tree(after, root) == Tree(before, root) + if root in after && root !in before then {root} else {}
  {
  }

  lemma TreeOfNewRow(before: Rows, id: Id)
    requires IsForest(before) && id !in before
    ensures Tree(before, id) == {}
  {
    forall m | m in before ensures Root(before, m) != id { RootOfHop(before, m); }
  }

  lemma TreeAfterJoin(before: Rows, after: Rows, s: Id, t: Id, root: Id)
    requires after.Keys == before.Keys && s != t && root != s
    requires RootsJoin(before, after, s, t)
    ensures Tree(after, root) == if root == t then Tree(before, t) + Tree(before, s) else Tree(before, root)
    ensures Tree(before, t) !! Tree(before, s)
  {
  }

  lemma RowsWithSameTrees(before: Rows, after: Rows)
    requires IsForest(before) && SamePointers(before, after) && after.Keys == before.Keys
    requires forall r :: r in before ==> (after[r].status == Superseded <==> before[r].status == Superseded)
    ensures IsForest(after)
    ensures forall r :: Tree(after, r) == Tree(before, r)
  {
    PointersFrame(before, after);
    forall r ensures Tree(after, r) == Tree(before, r) { TreeFrame(before, after, r); }
  }

  // ---- the ledger ----

  lemma RecordOneKeeps(exposures: seq<Exposure>, session: Text, item: Item)
    requires UniqueExposures(exposures)
    ensures UniqueExposures(RecordOne(exposures, session, item))
    ensures Exposed(RecordOne(exposures, session, item), session, item)
    ensures forall k, g, ids :: RatedIn(RecordOne(exposures, session, item), k, g, ids) == RatedIn(exposures, k, g, ids)
  {
    if !Exposed(exposures, session, item) {
      var after := exposures + [Exposure(session, item.kind, item.memory, None)];
      assert after[..|exposures|] == exposures;
      assert IsFor(after[|exposures|], session, item);
    }
  }

  lemma {:induction false} RecordAllKeeps(exposures: seq<Exposure>, rows: Rows, session: Text, items: seq<Item>)
    requires UniqueExposures(exposures) && RatedKnown(exposures, rows)
    ensures UniqueExposures(RecordAll(exposures, session, items)) && RatedKnown(RecordAll(exposures, session, items), rows)
    ensures forall k, g, ids :: RatedIn(RecordAll(exposures, session, items), k, g, ids) == RatedIn(exposures, k, g, ids)
  {
    if |items| > 0 {
      var n := |items| - 1;
      RecordAllKeeps(exposures, rows, session, items[..n]);
      RecordOneKeeps(RecordAll(exposures, session, items[..n]), session, items[n]);
    }
  }

  lemma RecordKeepsConservation(db: Database, session: Text, items: seq<Item>)
    requires ConservationInv(db)
    ensures ConservationInv(Record(db, session, items))
  {
    RecordAllKeeps(db.exposures, db.reflections, session, items);
  }

  /** With one row per memory, a stamp is an update of exactly one row. */
  lemma StampIsUpdate(exposures: seq<Exposure>, session: Text, item: Item, verdict: Class, now: Time) returns (i: nat)
    requires UniqueExposures(exposures) && Unrated(exposures, session, item)
    ensures i < |exposures| && IsFor(exposures[i], session, item) && exposures[i].rating.None?
    ensures Stamp(exposures, session, item, verdict, now)
            == exposures[i := exposures[i].(rating := Some(Rating(verdict, now)))]
  {
    i :| 0 <= i < |exposures| && IsFor(exposures[i], session, item) && exposures[i].rating.None?;
    forall j | 0 <= j < |exposures| && j != i ensures !IsFor(exposures[j], session, item) {
      var low, high := if i < j then i else j, if i < j then j else i;
      assert !IsFor(exposures[high], exposures[low].session, Item(exposures[low].kind, exposures[low].memory));
    }
  }

  lemma BumpMovesOneGroup(counters: Counters, verdict: Class, now: Time, g: Group)
    ensures CounterOf(Bump(counters, verdict, now), g)
            == CounterOf(counters, g) + if GroupOf(verdict) == g then 1 else 0
  {
  }

  /** The counters of one row after one rating of a root. */
  lemma RatedRow(exposures: seq<Exposure>, i: nat, e: Exposure, rows: Rows, r: Id, g: Group)
    requires IsForest(rows) && ReflectionsConserved(exposures, rows) && IsRoot(rows, r)
    requires i < |exposures| && exposures[i].rating.None? && e.memory == exposures[i].memory && e.rating.Some?
    requires e.kind == ReflectionKind ==> IsRoot(rows, e.memory)
    ensures RatedIn(exposures[i := e], ReflectionKind, g, Tree(rows, r))
            == CounterOf(rows[r].counters, g)
               + if e.kind == ReflectionKind && e.memory == r && GroupOf(e.rating.value.verdict) == g then 1 else 0
  {
    RatedInUpdate(exposures, i, e, ReflectionKind, g, Tree(rows, r));
    RootOfHop(rows, r);
    if e.kind == ReflectionKind { RootOfHop(rows, e.memory); }
  }

  lemma RatedSemantic(exposures: seq<Exposure>, i: nat, e: Exposure, semantics: map<Id, Counters>, m: Id, g: Group)
    requires SemanticsConserved(exposures, semantics) && m in semantics
    requires i < |exposures| && exposures[i].rating.None? && e.memory == exposures[i].memory && e.rating.Some?
    ensures RatedIn(exposures[i := e], SemanticKind, g, {m})
            == CounterOf(semantics[m], g)
               + if e.kind == SemanticKind && e.memory == m && GroupOf(e.rating.value.verdict) == g then 1 else 0
  {
    RatedInUpdate(exposures, i, e, SemanticKind, g, {m});
  }

  lemma RateReflection(db: Database, session: Text, m: Id, verdict: Class, now: Time)
    requires ConservationInv(db)
    requires Verdict(db, session, Item(ReflectionKind, m), verdict).Applied?
    ensures ConservationInv(RateOne(db, session, Item(ReflectionKind, m), verdict, now))
  {
    var after := RateOne(db, session, Item(ReflectionKind, m), verdict, now);
    var i := StampIsUpdate(db.exposures, session, Item(ReflectionKind, m), verdict, now);
    var e := db.exposures[i].(rating := Some(Rating(verdict, now)));
    RowsWithSameTrees(db.reflections, after.reflections);
    forall r, g | IsRoot(after.reflections, r)
      ensures CounterOf(after.reflections[r].counters, g)
              == RatedIn(after.exposures, ReflectionKind, g, Tree(after.reflections, r))
    {
      RatedRow(db.exposures, i, e, db.reflections, r, g);
      BumpMovesOneGroup(db.reflections[m].counters, verdict, now, g);
    }
    forall k, g | k in after.semantics
      ensures CounterOf(after.semantics[k], g) == RatedIn(after.exposures, SemanticKind, g, {k})
    {
      RatedSemantic(db.exposures, i, e, db.semantics, k, g);
    }
  }

  lemma RateSemantic(db: Database, session: Text, m: Id, verdict: Class, now: Time)
    requires ConservationInv(db)
    requires Verdict(db, session, Item(SemanticKind, m), verdict).Applied?
    ensures ConservationInv(RateOne(db, session, Item(SemanticKind, m), verdict, now))
  {
    var after := RateOne(db, session, Item(SemanticKind, m), verdict, now);
    var i := StampIsUpdate(db.exposures, session, Item(SemanticKind, m), verdict, now);
    var e := db.exposures[i].(rating := Some(Rating(verdict, now)));
    forall r, g | IsRoot(db.reflections, r)
      ensures CounterOf(db.reflections[r].counters, g)
              == RatedIn(after.exposures, ReflectionKind, g, Tree(db.reflections, r))
    {
      RatedRow(db.exposures, i, e, db.reflections, r, g);
    }
    forall k, g | k in after.semantics
      ensures CounterOf(after.semantics[k], g) == RatedIn(after.exposures, SemanticKind, g, {k})
    {
      RatedSemantic(db.exposures, i, e, db.semantics, k, g);
      BumpMovesOneGroup(db.semantics[m], verdict, now, g);
    }
  }

  /** A rating adds one to one counter of one root: live rows are roots. */
  lemma RateKeepsConservation(db: Database, session: Text, item: Item, verdict: Class, now: Time)
    requires ConservationInv(db)
    ensures ConservationInv(RateOne(db, session, item, verdict, now))
  {
    if Verdict(db, session, item, verdict).Applied? {
      if item.kind == ReflectionKind { RateReflection(db, session, item.memory, verdict, now); }
      else { RateSemantic(db, session, item.memory, verdict, now); }
    }
  }

  // ---- reflection rows ----

  /** The rows keep every pointer, every counter and who is superseded. */
  predicate SameStanding(before: Rows, after: Rows) {
    && after.Keys == before.Keys
    && (forall r :: r in before ==>
          && after[r].supersededBy == before[r].supersededBy
          && after[r].counters == before[r].counters
          && (after[r].status == Superseded <==> before[r].status == Superseded))
  }

  lemma StandingKeepsRows(exposures: seq<Exposure>, before: Rows, after: Rows)
    requires IsForest(before) && ReflectionsConserved(exposures, before) && SameStanding(before, after)
    ensures IsForest(after) && ReflectionsConserved(exposures, after)
  {
    RowsWithSameTrees(before, after);
  }

  lemma StandingKeepsConservation(db: Database, after: Rows)
    requires ConservationInv(db) && SameStanding(db.reflections, after)
    ensures ConservationInv(db.(reflections := after))
  {
    StandingKeepsRows(db.exposures, db.reflections, after);
  }

  lemma OtherTablesDoNotMatter(before: Database, after: Database)
    requires ConservationInv(before)
    requires after.exposures == before.exposures && after.reflections == before.reflections
    requires after.semantics == before.semantics
    ensures ConservationInv(after)
  {
  }

  lemma AugmentStanding(db: Database, action: AugmentAction, now: Time)
    ensures SameStanding(db.reflections, AugmentOne(db, action, now).reflections)
    ensures AugmentOne(db, action, now).exposures == db.exposures
    ensures AugmentOne(db, action, now).semantics == db.semantics
  {
  }

  lemma AugmentKeepsConservation(db: Database, action: AugmentAction, now: Time)
    requires ConservationInv(db)
    ensures ConservationInv(AugmentOne(db, action, now))
  {
    var after := AugmentOne(db, action, now);
    AugmentStanding(db, action, now);
    StandingKeepsConservation(db, after.reflections);
    OtherTablesDoNotMatter(db.(reflections := after.reflections), after);
  }

  lemma NewRowIsConserved(exposures: seq<Exposure>, before: Rows, id: Id, row: Reflection)
    requires IsForest(before) && RatedKnown(exposures, before) && ReflectionsConserved(exposures, before)
    requires id !in before && row.supersededBy.None? && row.status != Superseded && row.counters == ZERO_COUNTERS
    ensures IsForest(before[id := row]) && ReflectionsConserved(exposures, before[id := row])
  {
    var after := before[id := row];
    PointersFrame(before, after);
    TreeOfNewRow(before, id);
    forall r: Id, g: Group | IsRoot(after, r)
      ensures CounterOf(after[r].counters, g) == RatedIn(exposures, ReflectionKind, g, Tree(after, r))
    {
      TreeFrame(before, after, r);
      if r == id {
        assert Tree(after, id) == {id} && after[id] == row;
        RatedInNone(exposures, ReflectionKind, g, {id});
        ZeroCounts(g);
      } else {
        assert IsRoot(before, r) && after[r] == before[r] && Tree(after, r) == Tree(before, r);
        assert CounterOf(before[r].counters, g) == RatedIn(exposures, ReflectionKind, g, Tree(before, r));
      }
    }
  }

  lemma ZeroCounts(g: Group)
    ensures CounterOf(ZERO_COUNTERS, g) == 0
  {
  }

  /** A new reflection starts at zero, and no exposure of it has been rated. */
  lemma CreateKeepsConservation(db: Database, action: NewAction, project: Text, now: Time)
    requires ConservationInv(db)
    ensures var r := CreateOne(db, action, project, now); r.Some? ==> ConservationInv(r.value)
  {
    var valid := ActiveOnly(db.observations, action.sources);
    if |valid| > 0 && action.uuid !in db.reflections {
      NewRowIsConserved(db.exposures, db.reflections, action.uuid, NewReflection(project, |valid|, action.confidence, now));
    }
  }

  lemma MergedRow(exposures: seq<Exposure>, before: Rows, after: Rows, s: Id, t: Id, r: Id, g: Group)
    requires IsForest(before) && Joins(before, after, s, t) && ReflectionsConserved(exposures, before)
    requires RootsJoin(before, after, s, t) && IsRoot(after, r)
    ensures RatedIn(exposures, ReflectionKind, g, Tree(after, r))
            == CounterOf(before[r].counters, g) + if r == t then CounterOf(before[s].counters, g) else 0
  {
    TreeAfterJoin(before, after, s, t, r);
    if r == t {
      RatedInSplits(exposures, ReflectionKind, g, Tree(before, t), Tree(before, s));
    }
  }

  lemma MergeShape(db: Database, action: MergeAction, now: Time)
    requires IsForest(db.reflections) && MergeApplies(db.reflections, action)
    ensures var s, t, rows, after := action.source, action.target, db.reflections, MergeOne(db, action, now).reflections;
      && Joins(rows, after, s, t)
      && Matched(after)
      && (forall r, g :: r in after && r != s ==> CountersJoin(rows, after, s, t, r, g))
  {
  }

  /** A merge sums the four counters, and the two trees become one. */
  lemma MergeKeepsConservation(db: Database, action: MergeAction, now: Time)
    requires ConservationInv(db)
    ensures ConservationInv(MergeOne(db, action, now))
  {
    if MergeApplies(db.reflections, action) {
      MergeShape(db, action, now);
      var after := MergeOne(db, action, now).reflections;
      JoinKeepsForest(db.reflections, after, action.source, action.target);
      MergeKeepsRows(db.exposures, db.reflections, after, action.source, action.target);
    }
  }

  predicate CountersJoin(before: Rows, after: Rows, s: Id, t: Id, r: Id, g: Group)
    requires r in before && r in after && s in before
  {
    CounterOf(after[r].counters, g) == CounterOf(before[r].counters, g) + if r == t then CounterOf(before[s].counters, g) else 0
  }

  lemma MergedRowConserved(exposures: seq<Exposure>, before: Rows, after: Rows, s: Id, t: Id, r: Id, g: Group)
    requires IsForest(before) && Joins(before, after, s, t) && ReflectionsConserved(exposures, before)
    requires RootsJoin(before, after, s, t)
    requires IsRoot(after, r) && r in before && CountersJoin(before, after, s, t, r, g)
    ensures CounterOf(after[r].counters, g) == RatedIn(exposures, ReflectionKind, g, Tree(after, r))
  {
    MergedRow(exposures, before, after, s, t, r, g);
  }

  lemma MergeKeepsRows(exposures: seq<Exposure>, before: Rows, after: Rows, s: Id, t: Id)
    requires IsForest(before) && Joins(before, after, s, t) && ReflectionsConserved(exposures, before)
    requires RootsJoin(before, after, s, t)
    requires forall r, g :: r in after && r != s ==> CountersJoin(before, after, s, t, r, g)
    ensures ReflectionsConserved(exposures, after)
  {
    forall r, g | IsRoot(after, r)
      ensures CounterOf(after[r].counters, g) == RatedIn(exposures, ReflectionKind, g, Tree(after, r))
    {
      assert CountersJoin(before, after, s, t, r, g);
      MergedRowConserved(exposures, before, after, s, t, r, g);
    }
  }

  // ---- semantic memories ----

  /** `uuid4` does not hand out again the id of a semantic memory that was rated
      and then deleted. */
  predicate NeverRated(db: Database, m: Id) {
    forall i :: 0 <= i < |db.exposures| && db.exposures[i].kind == SemanticKind && db.exposures[i].rating.Some?
      ==> db.exposures[i].memory != m
  }

  lemma SemanticKeepsConservation(before: Database, after: Database, m: Id)
    requires ConservationInv(before)
    requires after.exposures == before.exposures && after.reflections == before.reflections
    requires (m !in before.semantics && NeverRated(before, m) && after.semantics == before.semantics[m := ZERO_COUNTERS])
             || after.semantics == before.semantics - {m}
    ensures ConservationInv(after)
  {
    forall m', g | m' in after.semantics
      ensures CounterOf(after.semantics[m'], g) == RatedIn(after.exposures, SemanticKind, g, {m'})
    {
      if m' !in before.semantics { RatedInNone(after.exposures, SemanticKind, g, {m'}); }
    }
  }
}
