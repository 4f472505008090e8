/** What a synthesis decision does to the database: the new, augment, merge and
    ignore actions, the sweep of what the decision left unmentioned, and the
    all-or-nothing application of one decision to one episode. `None` stands for
    the error that makes the caller roll its savepoint back. */
module Synthesis {
  import opened Tables

  /** `uuid` is the value the id generator yields for the action, used if a row is
      inserted. */
  datatype NewAction = NewAction(uuid: Id, confidence: real, sources: seq<Id>)
  datatype AugmentAction = AugmentAction(reflection: Id, confidenceDelta: real, addSources: seq<Id>)
  datatype MergeAction = MergeAction(source: Id, target: Id)
  datatype Response = Response(
    create: seq<NewAction>, augment: seq<AugmentAction>, merge: seq<MergeAction>, ignore: seq<Id>)

  /** Keeps a confidence within the column's CHECK, and moves it as little as that takes. */
  function Clamp(c: real): (r: real)
    ensures 0.1 <= r <= 1.0
    ensures forall other :: 0.1 <= other <= 1.0 ==> Distance(c, r) <= Distance(c, other)
  {
    var low := if c < 1.0 then c else 1.0;
    if low > 0.1 then low else 0.1
  }

  function Distance(a: real, b: real): real {
    if a < b then b - a else a - b
  }

  /** The later of two timestamps, a missing one counting as earliest. */
  function Later(a: Option<Time>, b: Option<Time>): Option<Time> {
    if a.None? then b else if b.None? then a else if a.value >= b.value then a else b
  }

  /** A reflection that synthesis and ratings may still touch. */
  predicate Live(reflections: map<Id, Reflection>, id: Id) {
    id in reflections && reflections[id].status != Retired && reflections[id].status != Superseded
  }

  predicate IsActive(observations: map<Id, Observation>, id: Id) {
    id in observations && observations[id].status == Active
  }

  /** The ids that exist and are active, order and repetitions kept. */
  function ActiveOnly(observations: map<Id, Observation>, ids: seq<Id>): seq<Id> {
    if |ids| == 0 then []
    else if IsActive(observations, ids[0]) then [ids[0]] + ActiveOnly(observations, ids[1..])
    else ActiveOnly(observations, ids[1..])
  }

  function Elements(ids: seq<Id>): set<Id> {
    set i | i in ids
  }

  /** `UPDATE observations SET status, status_changed_at WHERE id IN ids`. */
  function SetStatus(observations: map<Id, Observation>, ids: set<Id>, status: ObservationStatus, now: Time)
    : map<Id, Observation>
  {
    map o | o in observations ::
      if o in ids then observations[o].(status := status, changedAt := Some(now)) else observations[o]
  }

  function Pairs(reflection: Id, observations: set<Id>): set<Link> {
    set o | o in observations :: Link(reflection, o)
  }

  // ---- new ----

  /** Plain inserts into the link table, one per id: a second insert of the same
      pair breaks the primary key. */
  function InsertLinks(sources: set<Link>, reflection: Id, ids: seq<Id>): Option<set<Link>> {
    if |ids| == 0 then Some(sources)
    else
      var before := InsertLinks(sources, reflection, ids[..|ids| - 1]);
      var row := Link(reflection, ids[|ids| - 1]);
      if before.None? || row in before.value then None else Some(before.value + {row})
  }

  function NewReflection(project: Text, evidence: nat, confidence: real, now: Time): Reflection {
    Reflection(project, PendingReview, None, evidence, Clamp(confidence), ZERO_COUNTERS, now)
  }

  function CreateOne(db: Database, action: NewAction, project: Text, now: Time): Option<Database> {
    var valid := ActiveOnly(db.observations, action.sources);
    if |valid| == 0 then Some(db)
    else if action.uuid in db.reflections then None
    else
      var links := InsertLinks(db.sources, action.uuid, valid);
      if links.None? then None
      else Some(db.(
        reflections := db.reflections[action.uuid := NewReflection(project, |valid|, action.confidence, now)],
        sources := links.value,
        observations := SetStatus(db.observations, Elements(valid), ConsumedIntoReflection, now)))
  }

  function CreateAll(db: Database, actions: seq<NewAction>, project: Text, now: Time): Option<Database> {
    var n := |actions|;
    if n == 0 then Some(db)
    else
      var before := CreateAll(db, actions[..n - 1], project, now);
      if before.None? then None
      else CreateOne(before.value, actions[n - 1], project, now)
  }

  // ---- augment ----

  function AugmentOne(db: Database, action: AugmentAction, now: Time): Database {
    if !Live(db.reflections, action.reflection) then db
    else
      var valid := Elements(ActiveOnly(db.observations, action.addSources));
      var sources := db.sources + Pairs(action.reflection, valid);
      var row := db.reflections[action.reflection];
      db.(
        sources := sources,
        observations := SetStatus(db.observations, valid, ConsumedIntoReflection, now),
        reflections := db.reflections[action.reflection := row.(
          confidence := Clamp(row.confidence + action.confidenceDelta),
          evidenceCount := |LinksOf(sources, action.reflection)|,
          updatedAt := now)])
  }

  function AugmentAll(db: Database, actions: seq<AugmentAction>, now: Time): Database {
    if |actions| == 0 then db
    else AugmentOne(AugmentAll(db, actions[..|actions| - 1], now), actions[|actions| - 1], now)
  }

  // ---- merge ----

  predicate MergeApplies(reflections: map<Id, Reflection>, action: MergeAction) {
    && action.source != action.target
    && Live(reflections, action.source)
    && Live(reflections, action.target)
  }

  function SumCounters(target: Counters, source: Counters): Counters {
    Counters(
      target.useful + source.useful, target.misled + source.misled,
      target.overlooked + source.overlooked, target.ignored + source.ignored,
      Later(target.lastUseful, source.lastUseful), Later(target.lastMisled, source.lastMisled),
      Later(target.lastOverlooked, source.lastOverlooked), Later(target.lastIgnored, source.lastIgnored))
  }

  /** The source's link rows rewritten to the target, the source's rows deleted. */
  function MoveLinks(sources: set<Link>, source: Id, target: Id): set<Link> {
    var copied := sources + set l | l in sources && l.reflection == source :: Link(target, l.observation);
    copied - LinksOf(copied, source)
  }

  function MergeOne(db: Database, action: MergeAction, now: Time): Database {
    if !MergeApplies(db.reflections, action) then db
    else
      var sources := MoveLinks(db.sources, action.source, action.target);
      var source, target := db.reflections[action.source], db.reflections[action.target];
      db.(
        sources := sources,
        reflections := db.reflections
          [action.source := source.(status := Superseded, supersededBy := Some(action.target), updatedAt := now)]
          [action.target := target.(
            evidenceCount := |LinksOf(sources, action.target)|,
            counters := SumCounters(target.counters, source.counters),
            updatedAt := now)])
  }

  function MergeAll(db: Database, actions: seq<MergeAction>, now: Time): Database {
    if |actions| == 0 then db
    else MergeOne(MergeAll(db, actions[..|actions| - 1], now), actions[|actions| - 1], now)
  }

  // ---- ignore and sweep ----

  /** Flip those of `ids` that are active to consumed without reflection. Serves
      both the decision's `ignore` list and the sweep of the episode's batch. */
  function Consume(db: Database, ids: set<Id>, now: Time): Database {
    var flipped := set i | i in ids && IsActive(db.observations, i);
    db.(observations := SetStatus(db.observations, flipped, ConsumedWithoutReflection, now))
  }

  // ---- one decision ----

  predicate Awaiting(db: Database, episode: Id, project: Text) {
    && episode in db.episodes
    && db.episodes[episode].project == project
    && db.episodes[episode].synthesizedAt.None?
  }

  function ActiveIn(db: Database, episode: Id): set<Id> {
    set o | o in db.observations && db.observations[o].episode == episode && db.observations[o].status == Active
  }

  function MarkSynthesized(db: Database, episode: Id, now: Time): Database {
    if episode !in db.episodes then db
    else db.(episodes := db.episodes[episode := db.episodes[episode].(synthesizedAt := Some(now))])
  }

  /** The steps after the `new` actions went through. */
  function ApplyRest(db: Database, batch: set<Id>, response: Response, now: Time): Database {
    var augmented := AugmentAll(db, response.augment, now);
    var merged := MergeAll(augmented, response.merge, now);
    var ignored := Consume(merged, Elements(response.ignore), now);
    Consume(ignored, batch, now)
  }

  function ApplyDecision(db: Database, episode: Id, response: Response, project: Text, now: Time)
    : Option<Database>
  {
    if !Awaiting(db, episode, project) then None
    else
      var created := CreateAll(db, response.create, project, now);
      if created.None? then None
      else
        Some(MarkSynthesized(ApplyRest(created.value, ActiveIn(db, episode), response, now), episode, now))
  }
}
