/** The exposure ledger and the ratings that drain it: one exposure row per memory
    served in a session, one counter bump and one stamp per rating. */
module Rating {
  import opened Tables
  import opened Synthesis

  datatype Outcome = Applied(verdict: Class) | NotExposed | AlreadyRated | MemoryMissing | MemoryRetired

  /** What one counter column counts: `cited` and `shaped` share a column. */
  datatype Group = UsefulGroup | MisledGroup | OverlookedGroup | IgnoredGroup

  function GroupOf(verdict: Class): Group {
    match verdict
    case Cited => UsefulGroup
    case Shaped => UsefulGroup
    case Misled => MisledGroup
    case Overlooked => OverlookedGroup
    case Ignored => IgnoredGroup
  }

  function CounterOf(counters: Counters, group: Group): nat {
    match group
    case UsefulGroup => counters.useful
    case MisledGroup => counters.misled
    case OverlookedGroup => counters.overlooked
    case IgnoredGroup => counters.ignored
  }

  function Bump(counters: Counters, verdict: Class, now: Time): Counters {
    match verdict
    case Cited => counters.(useful := counters.useful + 1, lastUseful := Some(now))
    case Shaped => counters.(useful := counters.useful + 1, lastUseful := Some(now))
    case Misled => counters.(misled := counters.misled + 1, lastMisled := Some(now))
    case Overlooked => counters.(overlooked := counters.overlooked + 1, lastOverlooked := Some(now))
    case Ignored => counters.(ignored := counters.ignored + 1, lastIgnored := Some(now))
  }

  // ---- recording exposures ----

  datatype Item = Item(kind: Kind, memory: Id)

  predicate IsFor(e: Exposure, session: Text, item: Item) {
    e.session == session && e.kind == item.kind && e.memory == item.memory
  }

  predicate Exposed(exposures: seq<Exposure>, session: Text, item: Item) {
    exists i :: 0 <= i < |exposures| && IsFor(exposures[i], session, item)
  }

  /** `INSERT .. WHERE NOT EXISTS`: the first serve of a memory in a session wins. */
  function RecordOne(exposures: seq<Exposure>, session: Text, item: Item): seq<Exposure> {
    if Exposed(exposures, session, item) then exposures
    else exposures + [Exposure(session, item.kind, item.memory, None)]
  }

  function RecordAll(exposures: seq<Exposure>, session: Text, items: seq<Item>): seq<Exposure> {
    if |items| == 0 then exposures
    else RecordOne(RecordAll(exposures, session, items[..|items| - 1]), session, items[|items| - 1])
  }

  function Record(db: Database, session: Text, items: seq<Item>): Database {
    if session == NO_TEXT then db else db.(exposures := RecordAll(db.exposures, session, items))
  }

  // ---- rating ----

  predicate Unrated(exposures: seq<Exposure>, session: Text, item: Item) {
    exists i :: 0 <= i < |exposures| && IsFor(exposures[i], session, item) && exposures[i].rating.None?
  }

  /** The `UPDATE` stamps every unrated row of the memory in the session. */
  function Stamp(exposures: seq<Exposure>, session: Text, item: Item, verdict: Class, now: Time): seq<Exposure> {
    seq(|exposures|, i requires 0 <= i < |exposures| =>
      var e := exposures[i];
      if IsFor(e, session, item) && e.rating.None? then e.(rating := Some(Rating(verdict, now))) else e)
  }

  function Verdict(db: Database, session: Text, item: Item, verdict: Class): Outcome {
    if !Exposed(db.exposures, session, item) then NotExposed
    else if !Unrated(db.exposures, session, item) then AlreadyRated
    else match item.kind
      case ReflectionKind =>
        if item.memory !in db.reflections then MemoryMissing
        else if !Live(db.reflections, item.memory) then MemoryRetired
        else Applied(verdict)
      case SemanticKind =>
        if item.memory !in db.semantics then MemoryMissing else Applied(verdict)
  }

  function RateOne(db: Database, session: Text, item: Item, verdict: Class, now: Time): Database {
    if !Verdict(db, session, item, verdict).Applied? then db
    else
      var exposures := Stamp(db.exposures, session, item, verdict, now);
      match item.kind
      case ReflectionKind =>
        var row := db.reflections[item.memory];
        db.(exposures := exposures,
            reflections := db.reflections[item.memory := row.(counters := Bump(row.counters, verdict, now))])
      case SemanticKind =>
        db.(exposures := exposures,
            semantics := db.semantics[item.memory := Bump(db.semantics[item.memory], verdict, now)])
  }

  // ---- the session-end batch ----

  datatype Request = Request(item: Item, verdict: Class)

  function RateAll(db: Database, session: Text, requests: seq<Request>, now: Time): Database {
    if |requests| == 0 then db
    else
      var last := requests[|requests| - 1];
      RateOne(RateAll(db, session, requests[..|requests| - 1], now), session, last.item, last.verdict, now)
  }

  predicate ValidBatch(session: Text, requests: seq<Request>) {
    && session != NO_TEXT
    && |requests| > 0
    && forall i, j :: 0 <= i < j < |requests| ==> requests[i].item != requests[j].item
  }

  function RateSession(db: Database, session: Text, requests: seq<Request>, now: Time): Option<Database> {
    if !ValidBatch(session, requests) then None else Some(RateAll(db, session, requests, now))
  }

  // ---- what a rating counts ----

  /** The memory can be rated: it exists, and a reflection is pending review or
      confirmed. */
  predicate Ratable(db: Database, item: Item) {
    match item.kind
    case ReflectionKind =>
      item.memory in db.reflections && db.reflections[item.memory].status in {PendingReview, Confirmed}
    case SemanticKind => item.memory in db.semantics
  }

  function CountersOf(db: Database, item: Item): Option<Counters> {
    match item.kind
    case ReflectionKind => if item.memory in db.reflections then Some(db.reflections[item.memory].counters) else None
    case SemanticKind => if item.memory in db.semantics then Some(db.semantics[item.memory]) else None
  }

  function LastOf(counters: Counters, group: Group): Option<Time> {
    match group
    case UsefulGroup => counters.lastUseful
    case MisledGroup => counters.lastMisled
    case OverlookedGroup => counters.lastOverlooked
    case IgnoredGroup => counters.lastIgnored
  }

  /** One more in the column of the verdict, moved now; the other columns stay. */
  predicate CountedOnce(before: Counters, after: Counters, verdict: Class, now: Time) {
    forall g ::
      if g == GroupOf(verdict) then CounterOf(after, g) == CounterOf(before, g) + 1 && LastOf(after, g) == Some(now)
      else CounterOf(after, g) == CounterOf(before, g) && LastOf(after, g) == LastOf(before, g)
  }

  lemma BumpCountsOnce(counters: Counters, verdict: Class, now: Time)
    ensures CountedOnce(counters, Bump(counters, verdict, now), verdict, now)
  {
  }

  /** No unrated exposure of the memory is left in the session; rated ones stay, and
      nothing but ratings is written. */
  predicate StampedFor(before: seq<Exposure>, after: seq<Exposure>, session: Text, item: Item) {
    && |after| == |before| && !Unrated(after, session, item)
    && forall i :: 0 <= i < |before| ==>
         && after[i].(rating := None) == before[i].(rating := None)
         && (before[i].rating.Some? || !IsFor(before[i], session, item) ==> after[i] == before[i])
  }

  lemma StampStamps(exposures: seq<Exposure>, session: Text, item: Item, verdict: Class, now: Time)
    ensures StampedFor(exposures, Stamp(exposures, session, item, verdict, now), session, item)
  {
  }

  lemma AppliedIff(db: Database, session: Text, item: Item, verdict: Class)
    ensures Verdict(db, session, item, verdict).Applied? <==> Unrated(db.exposures, session, item) && Ratable(db, item)
    ensures Verdict(db, session, item, verdict).Applied? ==> Verdict(db, session, item, verdict) == Applied(verdict)
  {
  }

  /** A rating changes a counter exactly when the session has an unrated exposure of a
      memory that can be rated; then it counts once, for that memory alone, and stamps
      its exposure. Otherwise nothing changes. */
  lemma RatedIff(db: Database, session: Text, item: Item, verdict: Class, now: Time, other: Item)
    ensures var after := RateOne(db, session, item, verdict, now);
      if Unrated(db.exposures, session, item) && Ratable(db, item) then
        && CountersOf(after, item).Some?
        && CountedOnce(CountersOf(db, item).value, CountersOf(after, item).value, verdict, now)
        && (other != item ==> CountersOf(after, other) == CountersOf(db, other))
        && StampedFor(db.exposures, after.exposures, session, item)
      else after == db
  {
    AppliedIff(db, session, item, verdict);
    StampStamps(db.exposures, session, item, verdict, now);
    if Ratable(db, item) {
      BumpCountsOnce(CountersOf(db, item).value, verdict, now);
    }
  }

  /** An exposure is recorded once per session and memory; what is there stays. */
  lemma {:induction false} RecordedIff(exposures: seq<Exposure>, session: Text, items: seq<Item>, item: Item)
    ensures var after := RecordAll(exposures, session, items);
      && exposures <= after
      && (Exposed(after, session, item) <==> Exposed(exposures, session, item) || item in items)
      && forall i :: |exposures| <= i < |after| ==>
           after[i].session == session && after[i].rating.None? && Item(after[i].kind, after[i].memory) in items
  {
    if |items| > 0 {
      var front, last := items[..|items| - 1], items[|items| - 1];
      RecordedIff(exposures, session, front, item);
      RecordedIff(exposures, session, front, last);
      assert items == front + [last];
      ExposedAfter(RecordAll(exposures, session, front), session, last, item);
    }
  }

  lemma ExposedAfter(exposures: seq<Exposure>, session: Text, last: Item, item: Item)
    ensures Exposed(RecordOne(exposures, session, last), session, item) <==> Exposed(exposures, session, item) || item == last
    ensures exposures <= RecordOne(exposures, session, last)
  {
    var after := RecordOne(exposures, session, last);
    if !Exposed(exposures, session, last) {
      assert after[..|exposures|] == exposures;
      assert IsFor(after[|exposures|], session, last);
      if Exposed(exposures, session, item) {
        var i :| 0 <= i < |exposures| && IsFor(exposures[i], session, item);
        assert IsFor(after[i], session, item);
      }
    }
  }

  /** Why a rating is refused. */
  lemma RefusedBecause(db: Database, session: Text, item: Item, verdict: Class)
    ensures var outcome := Verdict(db, session, item, verdict);
      && (outcome.NotExposed? <==> !Exposed(db.exposures, session, item))
      && (outcome.AlreadyRated? <==> Exposed(db.exposures, session, item) && !Unrated(db.exposures, session, item))
      && (outcome.MemoryRetired? <==>
            && Unrated(db.exposures, session, item) && item.kind == ReflectionKind && item.memory in db.reflections
            && db.reflections[item.memory].status in {Retired, Superseded})
      && (outcome.MemoryMissing? <==> Unrated(db.exposures, session, item) && CountersOf(db, item).None?)
  {
  }

  lemma OthersUnmoved(db: Database, session: Text, item: Item, verdict: Class, now: Time, other: Item)
    requires other != item
    ensures var after := RateOne(db, session, item, verdict, now);
      && (Exposed(after.exposures, session, other) <==> Exposed(db.exposures, session, other))
      && (Unrated(after.exposures, session, other) <==> Unrated(db.exposures, session, other))
      && (Ratable(after, other) <==> Ratable(db, other)) && (CountersOf(after, other) == CountersOf(db, other))
  {
    var after := RateOne(db, session, item, verdict, now);
    StampStamps(db.exposures, session, item, verdict, now);
    if after != db {
      assert after.exposures == Stamp(db.exposures, session, item, verdict, now);
      StampSpares(db.exposures, session, item, verdict, now, other);
    }
  }

  lemma StampSpares(exposures: seq<Exposure>, session: Text, item: Item, verdict: Class, now: Time, other: Item)
    requires other != item
    ensures var after := Stamp(exposures, session, item, verdict, now);
      && (Exposed(after, session, other) <==> Exposed(exposures, session, other))
      && (Unrated(after, session, other) <==> Unrated(exposures, session, other))
  {
    var after := Stamp(exposures, session, item, verdict, now);
    forall i | 0 <= i < |exposures| ensures IsFor(after[i], session, other) <==> IsFor(exposures[i], session, other) {
    }
    forall i | 0 <= i < |exposures| && IsFor(exposures[i], session, other) ensures after[i] == exposures[i] {
    }
    if i :| 0 <= i < |exposures| && IsFor(exposures[i], session, other) && exposures[i].rating.None? {
      assert IsFor(after[i], session, other);
    }
    if i :| 0 <= i < |exposures| && IsFor(exposures[i], session, other) {
      assert IsFor(after[i], session, other);
    }
  }

  /** The ratings of a valid batch do not get in each other's way: each is judged as if it
      were alone, and counts for its memory exactly then. */
  lemma {:induction false} BatchIsIndependent(db: Database, session: Text, requests: seq<Request>, now: Time, item: Item)
    requires forall i, j :: 0 <= i < j < |requests| ==> requests[i].item != requests[j].item
    requires forall i :: 0 <= i < |requests| ==> requests[i].item != item
    ensures var after := RateAll(db, session, requests, now);
      && (Exposed(after.exposures, session, item) <==> Exposed(db.exposures, session, item))
      && (Unrated(after.exposures, session, item) <==> Unrated(db.exposures, session, item))
      && (Ratable(after, item) <==> Ratable(db, item)) && (CountersOf(after, item) == CountersOf(db, item))
  {
    if |requests| > 0 {
      var last := requests[|requests| - 1];
      BatchIsIndependent(db, session, requests[..|requests| - 1], now, item);
      OthersUnmoved(RateAll(db, session, requests[..|requests| - 1], now), session, last.item, last.verdict, now, item);
    }
  }

  /** A batch is refused exactly without a session, without requests, or when it names a
      memory twice; and in a valid one every request is judged by the tables as they
      were before the batch. */
  lemma BatchVerdict(db: Database, session: Text, requests: seq<Request>, now: Time, k: nat)
    ensures RateSession(db, session, requests, now).None? <==>
      session == NO_TEXT || requests == [] || exists i, j :: 0 <= i < j < |requests| && requests[i].item == requests[j].item
    ensures RateSession(db, session, requests, now).Some? && k < |requests| ==>
      Verdict(RateAll(db, session, requests[..k], now), session, requests[k].item, requests[k].verdict)
      == Verdict(db, session, requests[k].item, requests[k].verdict)
  {
    if ValidBatch(session, requests) && k < |requests| {
      var before, item := RateAll(db, session, requests[..k], now), requests[k].item;
      BatchIsIndependent(db, session, requests[..k], now, item);
      SameVerdict(before, db, session, item, requests[k].verdict);
    }
  }

  lemma SameVerdict(a: Database, b: Database, session: Text, item: Item, verdict: Class)
    requires Exposed(a.exposures, session, item) <==> Exposed(b.exposures, session, item)
    requires Unrated(a.exposures, session, item) <==> Unrated(b.exposures, session, item)
    requires (Ratable(a, item) <==> Ratable(b, item)) && CountersOf(a, item) == CountersOf(b, item)
    ensures Verdict(a, session, item, verdict) == Verdict(b, session, item, verdict)
  {
  }

  /** Which column a verdict counts in. */
  lemma ColumnOfVerdict(counters: Counters, verdict: Class, now: Time)
    ensures var after := Bump(counters, verdict, now);
      && after.useful == counters.useful + (if verdict in {Cited, Shaped} then 1 else 0)
      && after.misled == counters.misled + (if verdict == Misled then 1 else 0)
      && after.overlooked == counters.overlooked + (if verdict == Overlooked then 1 else 0)
      && after.ignored == counters.ignored + (if verdict == Ignored then 1 else 0)
  {
  }
}
