/** The episode lifecycle: opening, hardening, superseding and closing, the side
    effects of drained hook events, and the observation write that opens a
    background episode on demand. `None` stands for a raised error. */
module Episodes {
  import opened Tables

  predicate OpenBinding(bindings: map<BindingKey, Option<Time>>, e: Id, session: Text) {
    BindingKey(e, session) in bindings && bindings[BindingKey(e, session)].None?
  }

  /** The rows the active-episode query can return for a session. */
  predicate IsActiveFor(db: Database, session: Text, e: Id) {
    && OpenBinding(db.bindings, e, session)
    && e in db.episodes
    && db.episodes[e].endedAt.None?
  }

  /** The query has `LIMIT 1`; under the lifecycle invariant there is one row. */
  ghost function ActiveEpisode(db: Database, session: Text): (r: Option<Id>)
    ensures r.Some? ==> IsActiveFor(db, session, r.value)
    ensures r.None? ==> forall e :: !IsActiveFor(db, session, e)
  {
    if e :| IsActiveFor(db, session, e) then Some(e) else None
  }

  function NewEpisode(project: Text, goal: Option<Text>): Episode {
    Episode(project, goal, None, None, None, None, None)
  }

  function Insert(db: Database, uuid: Id, session: Text, row: Episode): Database {
    db.(episodes := db.episodes[uuid := row], bindings := db.bindings[BindingKey(uuid, session) := None])
  }

  function Ended(row: Episode, outcome: EpisodeOutcome, reason: CloseReason, now: Time): Episode {
    row.(endedAt := Some(now), closeReason := Some(reason), outcome := Some(outcome))
  }

  function OpenBackground(db: Database, session: Text, project: Text, uuid: Id): Option<Database> {
    if uuid in db.episodes || BindingKey(uuid, session) in db.bindings then None
    else Some(Insert(db, uuid, session, NewEpisode(project, None)))
  }

  /** Session bootstrap: reuse the active episode, else open a background one. */
  ghost function Bootstrap(db: Database, session: Text, project: Text, uuid: Id): Option<Database> {
    if ActiveEpisode(db, session).Some? then Some(db) else OpenBackground(db, session, project, uuid)
  }

  /** Ends one episode and stamps the open binding of one session. */
  function CloseFor(db: Database, e: Id, session: Text, outcome: EpisodeOutcome, reason: CloseReason, now: Time): Database
    requires IsActiveFor(db, session, e)
  {
    db.(episodes := db.episodes[e := Ended(db.episodes[e], outcome, reason, now)],
        bindings := db.bindings[BindingKey(e, session) := Some(now)])
  }

  ghost function StartForeground(db: Database, session: Text, project: Text, goal: Text, uuid: Id, now: Time)
    : Option<Database>
  {
    var active := ActiveEpisode(db, session);
    if active.None? then
      if uuid in db.episodes || BindingKey(uuid, session) in db.bindings then None
      else Some(Insert(db, uuid, session, NewEpisode(project, Some(goal))))
    else
      var row := db.episodes[active.value];
      if row.goal == Some(goal) then Some(db)  // same goal: resume
      else if row.goal.None? then  // harden the background episode
        Some(db.(episodes := db.episodes[active.value := row.(goal := Some(goal))]))
      else
        var superseded := CloseFor(db, active.value, session, NoOutcome, SupersededReason, now);
        if uuid in superseded.episodes || BindingKey(uuid, session) in superseded.bindings then None
        else Some(Insert(superseded, uuid, session, NewEpisode(project, Some(goal))))
  }

  ghost function CloseActive(db: Database, session: Text, outcome: EpisodeOutcome, reason: CloseReason, now: Time)
    : Option<Database>
  {
    var active := ActiveEpisode(db, session);
    if active.None? then None else Some(CloseFor(db, active.value, session, outcome, reason, now))
  }

  function CloseById(db: Database, e: Id, outcome: EpisodeOutcome, reason: CloseReason, now: Time): Option<Database> {
    if e !in db.episodes || db.episodes[e].endedAt.Some? then None
    else Some(db.(
      episodes := db.episodes[e := Ended(db.episodes[e], outcome, reason, now)],
      bindings := map k | k in db.bindings ::
        if k.episode == e && db.bindings[k].None? then Some(now) else db.bindings[k]))
  }

  // ---- side effects of drained hook events: errors are swallowed ----

  ghost function OnCommitClose(db: Database, session: Text, now: Time): Database {
    if session == NO_TEXT then db
    else
      var closed := CloseActive(db, session, Success, GoalComplete, now);
      if closed.None? then db else closed.value
  }

  ghost function OnSessionEnd(db: Database, session: Text, now: Time): Database {
    if session == NO_TEXT then db
    else
      var active := ActiveEpisode(db, session);
      if active.None? || db.episodes[active.value].goal.Some? then db
      else CloseFor(db, active.value, session, NoOutcome, SessionEndReconciled, now)
  }

  /** Writing an observation resolves its episode first; the episode stays open
      even when the insert itself then fails. */
  ghost function Observe(db: Database, session: Text, project: Text, episodeUuid: Id, uuid: Id, now: Time): Database {
    var begun := Bootstrap(db, session, project, episodeUuid);
    if begun.None? || ActiveEpisode(begun.value, session).None? then db
    else
      var db1 := begun.value;
      if uuid in db1.observations then db1
      else
        var row := Observation(ActiveEpisode(db1, session).value, Active, Some(now));
        db1.(observations := db1.observations[uuid := row])
  }

  // ---- the lifecycle invariant ----

  predicate EndConsistent(row: Episode) {
    && (row.endedAt.None? <==> row.outcome.None?)
    && (row.endedAt.None? <==> row.closeReason.None?)
  }

  ghost predicate Bound(bindings: map<BindingKey, Option<Time>>, e: Id) {
    exists s :: BindingKey(e, s) in bindings
  }

  predicate BindingMatches(episodes: map<Id, Episode>, k: BindingKey, left: Option<Time>) {
    k.episode in episodes && (left.None? <==> episodes[k.episode].endedAt.None?)
  }

  /** Every episode has a binding, consistent end columns, and a binding that is
      open exactly while the episode is. */
  ghost predicate RowsMatch(episodes: map<Id, Episode>, bindings: map<BindingKey, Option<Time>>) {
    && (forall e :: e in episodes ==> EndConsistent(episodes[e]) && Bound(bindings, e))
    && (forall k :: k in bindings ==> BindingMatches(episodes, k, bindings[k]))
  }

  /** One binding per episode, and at most one open binding per session. */
  ghost predicate OneEach(bindings: map<BindingKey, Option<Time>>) {
    && (forall k1, k2 :: k1 in bindings && k2 in bindings && k1.episode == k2.episode ==> k1 == k2)
    && (forall k1, k2 :: k1 in bindings && k2 in bindings && k1.session == k2.session ==>
          bindings[k1].None? && bindings[k2].None? ==> k1 == k2)
  }

  ghost predicate Lifecycle(db: Database) {
    RowsMatch(db.episodes, db.bindings) && OneEach(db.bindings)
  }

  /** Under the invariant the active-episode query is a function. */
  lemma ActiveIsUnique(db: Database, session: Text, e: Id)
    requires Lifecycle(db)
    ensures IsActiveFor(db, session, e) <==> ActiveEpisode(db, session) == Some(e)
  {
    var active := ActiveEpisode(db, session);
    if active.Some? && IsActiveFor(db, session, e) {
      assert BindingKey(e, session) == BindingKey(active.value, session);
    }
  }

  lemma BoundGrows(before: map<BindingKey, Option<Time>>, after: map<BindingKey, Option<Time>>, e: Id)
    requires Bound(before, e) && before.Keys <= after.Keys
    ensures Bound(after, e)
  {
    var s :| BindingKey(e, s) in before;
    assert BindingKey(e, s) in after;
  }

  lemma OneEachInsert(before: map<BindingKey, Option<Time>>, key: BindingKey)
    requires OneEach(before)
    requires forall k :: k in before ==> k.episode != key.episode && (k.session == key.session ==> before[k].Some?)
    ensures OneEach(before[key := None])
  {
  }

  lemma OneEachShrink(before: map<BindingKey, Option<Time>>, after: map<BindingKey, Option<Time>>)
    requires OneEach(before) && after.Keys == before.Keys
    requires forall k :: k in after && after[k].None? ==> before[k].None?
    ensures OneEach(after)
  {
  }

  lemma RowsMatchInsert(episodes: map<Id, Episode>, bindings: map<BindingKey, Option<Time>>, key: BindingKey, row: Episode)
    requires RowsMatch(episodes, bindings) && key.episode !in episodes
    requires row.endedAt.None? && row.outcome.None? && row.closeReason.None?
    ensures RowsMatch(episodes[key.episode := row], bindings[key := None])
  {
    var after := bindings[key := None];
    assert BindingKey(key.episode, key.session) == key;
    forall e | e in episodes ensures Bound(after, e) { BoundGrows(bindings, after, e); }
  }

  lemma RowsMatchUpdate(
      episodes: map<Id, Episode>, bindings: map<BindingKey, Option<Time>>,
      e: Id, row: Episode, after: map<BindingKey, Option<Time>>)
    requires RowsMatch(episodes, bindings) && e in episodes && EndConsistent(row)
    requires after.Keys == bindings.Keys
    requires forall k :: k in after ==>
      if k.episode == e then (after[k].None? <==> row.endedAt.None?) else after[k] == bindings[k]
    ensures RowsMatch(episodes[e := row], after)
  {
    forall e' | e' in episodes ensures Bound(after, e') { BoundGrows(bindings, after, e'); }
  }

  lemma InsertKeepsLifecycle(db: Database, uuid: Id, session: Text, row: Episode)
    requires Lifecycle(db) && uuid !in db.episodes && ActiveEpisode(db, session).None?
    requires row.endedAt.None? && row.outcome.None? && row.closeReason.None?
    ensures Lifecycle(Insert(db, uuid, session, row))
    ensures ActiveEpisode(Insert(db, uuid, session, row), session) == Some(uuid)
  {
    var key := BindingKey(uuid, session);
    forall k | k in db.bindings
      ensures k.episode != uuid && (k.session == session ==> db.bindings[k].Some?)
    {
      assert BindingMatches(db.episodes, k, db.bindings[k]);
      assert k == BindingKey(k.episode, k.session);
      assert !IsActiveFor(db, session, k.episode);
    }
    OneEachInsert(db.bindings, key);
    RowsMatchInsert(db.episodes, db.bindings, key, row);
    ActiveIsUnique(Insert(db, uuid, session, row), session, uuid);
  }

  lemma CloseKeepsLifecycle(db: Database, e: Id, session: Text, outcome: EpisodeOutcome, reason: CloseReason, now: Time)
    requires Lifecycle(db) && IsActiveFor(db, session, e)
    ensures Lifecycle(CloseFor(db, e, session, outcome, reason, now))
    ensures ActiveEpisode(CloseFor(db, e, session, outcome, reason, now), session).None?
  {
    var after := CloseFor(db, e, session, outcome, reason, now);
    OneEachShrink(db.bindings, after.bindings);
    RowsMatchUpdate(db.episodes, db.bindings, e, after.episodes[e], after.bindings);
    forall e' ensures !IsActiveFor(after, session, e') {
      ActiveIsUnique(db, session, e');
      ActiveIsUnique(db, session, e);
    }
  }

  lemma StartKeepsLifecycle(db: Database, session: Text, project: Text, goal: Text, uuid: Id, now: Time)
    requires Lifecycle(db)
    ensures
      var r := StartForeground(db, session, project, goal, uuid, now);
      r.Some? ==>
        && Lifecycle(r.value)
        && var a := ActiveEpisode(r.value, session);
        && a.Some?
        && r.value.episodes[a.value].goal == Some(goal)
  {
    var active := ActiveEpisode(db, session);
    if active.None? {
      if uuid !in db.episodes { InsertKeepsLifecycle(db, uuid, session, NewEpisode(project, Some(goal))); }
    } else if db.episodes[active.value].goal.None? {
      var row := db.episodes[active.value].(goal := Some(goal));
      var after := db.(episodes := db.episodes[active.value := row]);
      RowsMatchUpdate(db.episodes, db.bindings, active.value, row, db.bindings);
      ActiveIsUnique(after, session, active.value);
    } else if db.episodes[active.value].goal != Some(goal) {
      var superseded := CloseFor(db, active.value, session, NoOutcome, SupersededReason, now);
      CloseKeepsLifecycle(db, active.value, session, NoOutcome, SupersededReason, now);
      if uuid !in superseded.episodes {
        InsertKeepsLifecycle(superseded, uuid, session, NewEpisode(project, Some(goal)));
      }
    }
  }

  lemma CloseByIdKeepsLifecycle(db: Database, e: Id, outcome: EpisodeOutcome, reason: CloseReason, now: Time)
    requires Lifecycle(db)
    ensures
      var r := CloseById(db, e, outcome, reason, now);
      r.Some? ==> Lifecycle(r.value) && forall s :: ActiveEpisode(r.value, s) != Some(e)
  {
    var r := CloseById(db, e, outcome, reason, now);
    if r.Some? {
      OneEachShrink(db.bindings, r.value.bindings);
      RowsMatchUpdate(db.episodes, db.bindings, e, r.value.episodes[e], r.value.bindings);
    }
  }

  lemma EventsKeepLifecycle(db: Database, session: Text, now: Time)
    requires Lifecycle(db)
    ensures Lifecycle(OnCommitClose(db, session, now)) && Lifecycle(OnSessionEnd(db, session, now))
  {
    var active := ActiveEpisode(db, session);
    if active.Some? {
      CloseKeepsLifecycle(db, active.value, session, Success, GoalComplete, now);
      CloseKeepsLifecycle(db, active.value, session, NoOutcome, SessionEndReconciled, now);
    }
  }

  /** A drained `session_end` never touches an episode that has a goal; a drained
      `commit_close` leaves the session without an active episode. */
  lemma SessionEndSparesGoals(db: Database, session: Text, e: Id, now: Time)
    requires Lifecycle(db) && e in db.episodes
    ensures var after := OnSessionEnd(db, session, now);
      && e in after.episodes
      && (db.episodes[e].goal.Some? ==> after.episodes[e] == db.episodes[e])
      && (session != NO_TEXT && ActiveEpisode(db, session) == Some(e) && db.episodes[e].goal.None? ==>
            after.episodes[e] == Ended(db.episodes[e], NoOutcome, SessionEndReconciled, now))
    ensures session != NO_TEXT ==> ActiveEpisode(OnCommitClose(db, session, now), session).None?
  {
    var active := ActiveEpisode(db, session);
    if active.Some? { CloseKeepsLifecycle(db, active.value, session, Success, GoalComplete, now); }
  }

  lemma BootstrapKeepsLifecycle(db: Database, session: Text, project: Text, uuid: Id)
    requires Lifecycle(db)
    ensures
      var r := Bootstrap(db, session, project, uuid);
      r.Some? ==> Lifecycle(r.value) && ActiveEpisode(r.value, session).Some?
  {
    if ActiveEpisode(db, session).None? && uuid !in db.episodes {
      InsertKeepsLifecycle(db, uuid, session, NewEpisode(project, None));
    }
  }

  lemma ObserveKeepsLifecycle(db: Database, session: Text, project: Text, episodeUuid: Id, uuid: Id, now: Time)
    requires Lifecycle(db)
    ensures
      var after := Observe(db, session, project, episodeUuid, uuid, now);
      && Lifecycle(after)
      && (uuid !in db.observations && uuid in after.observations ==>
            ActiveEpisode(after, session) == Some(after.observations[uuid].episode))
  {
    BootstrapKeepsLifecycle(db, session, project, episodeUuid);
    var begun := Bootstrap(db, session, project, episodeUuid);
    var after := Observe(db, session, project, episodeUuid, uuid, now);
    if begun.Some? {
      ActiveIsUnique(after, session, ActiveEpisode(begun.value, session).value);
    }
  }

  // ---- what closing and starting leave behind ----

  /** The row after its episode was closed at `now`; nothing else of it changed. */
  predicate ClosedAs(before: Episode, after: Episode, outcome: EpisodeOutcome, reason: CloseReason, now: Time) {
    && after.endedAt == Some(now) && after.outcome == Some(outcome) && after.closeReason == Some(reason)
    && after.project == before.project && after.goal == before.goal
    && after.synthesizedAt == before.synthesizedAt && after.synthFailedAt == before.synthFailedAt
  }

  /** No other table changes, and no other episode. */
  ghost predicate OnlyEpisode(before: Database, after: Database, e: Id) {
    && after == before.(episodes := after.episodes, bindings := after.bindings)
    && forall other :: other != e ==>
         (other in after.episodes <==> other in before.episodes)
         && (other in before.episodes ==> after.episodes[other] == before.episodes[other])
  }

  /** A close of the active episode writes that episode and its binding of the session,
      and raises exactly when the session has none. */
  lemma CloseActiveLeaves(db: Database, session: Text, outcome: EpisodeOutcome, reason: CloseReason, now: Time, e: Id)
    requires Lifecycle(db)
    ensures var r := CloseActive(db, session, outcome, reason, now);
      && (r.None? <==> forall k :: !IsActiveFor(db, session, k))
      && (IsActiveFor(db, session, e) ==>
            && r.Some? && OnlyEpisode(db, r.value, e) && e in r.value.episodes
            && ClosedAs(db.episodes[e], r.value.episodes[e], outcome, reason, now)
            && r.value.bindings == db.bindings[BindingKey(e, session) := Some(now)])
  {
    if IsActiveFor(db, session, e) {
      ActiveIsUnique(db, session, e);
    }
  }

  /** A close by id raises exactly for a missing or closed episode, and stamps every open
      binding of the episode, whatever its session. */
  lemma CloseByIdLeaves(db: Database, e: Id, outcome: EpisodeOutcome, reason: CloseReason, now: Time)
    ensures var r := CloseById(db, e, outcome, reason, now);
      && (r.None? <==> !(e in db.episodes && db.episodes[e].endedAt.None?))
      && (r.Some? ==>
            && OnlyEpisode(db, r.value, e) && e in r.value.episodes
            && ClosedAs(db.episodes[e], r.value.episodes[e], outcome, reason, now)
            && r.value.bindings.Keys == db.bindings.Keys
            && forall k :: k in db.bindings ==>
                 r.value.bindings[k] == if k.episode == e && db.bindings[k].None? then Some(now) else db.bindings[k])
  {
  }

  /** A new open row. */
  predicate OpenedAs(row: Episode, project: Text, goal: Option<Text>) {
    && row.project == project && row.goal == goal && row.endedAt.None? && row.outcome.None? && row.closeReason.None?
    && row.synthesizedAt.None? && row.synthFailedAt.None?
  }

  /** Without an active episode a start opens one. */
  lemma StartOpens(db: Database, session: Text, project: Text, goal: Text, uuid: Id, now: Time)
    requires uuid !in db.episodes && BindingKey(uuid, session) !in db.bindings
    requires forall k :: !IsActiveFor(db, session, k)
    ensures var r := StartForeground(db, session, project, goal, uuid, now);
      && r.Some? && OnlyEpisode(db, r.value, uuid)
      && uuid in r.value.episodes && OpenedAs(r.value.episodes[uuid], project, Some(goal))
  {
  }

  /** An active episode with the goal is resumed as it is; a background episode gets the
      goal, and nothing else changes. */
  lemma StartResumes(db: Database, session: Text, project: Text, goal: Text, uuid: Id, now: Time, e: Id)
    requires Lifecycle(db) && IsActiveFor(db, session, e) && db.episodes[e].goal in {None, Some(goal)}
    ensures var r := StartForeground(db, session, project, goal, uuid, now);
      && r.Some? && OnlyEpisode(db, r.value, e) && r.value.bindings == db.bindings
      && e in r.value.episodes && r.value.episodes[e] == db.episodes[e].(goal := Some(goal))
  {
    ActiveIsUnique(db, session, e);
  }

  /** An active episode with another goal ends superseded, and a new one opens. */
  lemma StartReplaces(db: Database, session: Text, project: Text, goal: Text, uuid: Id, now: Time, e: Id)
    requires Lifecycle(db) && IsActiveFor(db, session, e) && db.episodes[e].goal !in {None, Some(goal)}
    requires uuid !in db.episodes && BindingKey(uuid, session) !in db.bindings
    ensures var r := StartForeground(db, session, project, goal, uuid, now);
      && r.Some? && uuid in r.value.episodes && OpenedAs(r.value.episodes[uuid], project, Some(goal))
      && e in r.value.episodes && ClosedAs(db.episodes[e], r.value.episodes[e], NoOutcome, SupersededReason, now)
      && OnlyEpisode(db, r.value.(episodes := r.value.episodes - {uuid}), e)
  {
    ActiveIsUnique(db, session, e);
  }

  /** An observation is written active, at the time of the call, to the active episode; a
      background episode is opened for it when the session has none. */
  lemma ObserveLeaves(db: Database, session: Text, project: Text, episodeUuid: Id, uuid: Id, now: Time, e: Id)
    requires Lifecycle(db) && uuid !in db.observations
    requires episodeUuid !in db.episodes && BindingKey(episodeUuid, session) !in db.bindings
    ensures var after := Observe(db, session, project, episodeUuid, uuid, now);
      && uuid in after.observations && after.observations == db.observations[uuid := after.observations[uuid]]
      && after.observations[uuid].status == Active && after.observations[uuid].changedAt == Some(now)
      && (IsActiveFor(db, session, e) ==> after.observations[uuid].episode == e && after.episodes == db.episodes)
      && ((forall k :: !IsActiveFor(db, session, k)) ==>
            && after.observations[uuid].episode == episodeUuid && episodeUuid in after.episodes
            && OpenedAs(after.episodes[episodeUuid], project, None))
  {
    BootstrapKeepsLifecycle(db, session, project, episodeUuid);
    if IsActiveFor(db, session, e) {
      ActiveIsUnique(db, session, e);
    } else if ActiveEpisode(db, session).None? {
      InsertKeepsLifecycle(db, episodeUuid, session, NewEpisode(project, None));
    }
  }
}
