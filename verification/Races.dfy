/** Operations whose check and whose write are separate statements: another process may
    commit anything in between. A review that comes late can thaw a superseded reflection,
    and does so exactly when the reflection was merged meanwhile; a decision that comes
    late keeps every invariant of the store. */
module Races {
  import opened Tables
  import opened Synthesis
  import opened Curation
  import opened Forest
  import opened Evidence
  import opened Conservation
  import opened Progress
  import opened Episodes
  import opened Runs

  // ---- confirming and retiring ----

  predicate IsReview(status: ReflectionStatus) {
    status == Confirmed || status == Retired
  }

  /** The write of `confirm` and `retire`: an update by id alone. */
  function Reviewed(db: Database, r: Id, status: ReflectionStatus, now: Time): Database {
    if r !in db.reflections then db else SetReflectionStatus(db, r, status, now)
  }

  /** What the check before it lets through. */
  function Review(db: Database, r: Id, status: ReflectionStatus, now: Time): Option<Database>
    requires IsReview(status)
  {
    if status == Confirmed then Confirm(db, r, now) else Retire(db, r, now)
  }

  /** The write takes a frozen row out of its state. */
  predicate Thaws(was: ReflectionStatus, status: ReflectionStatus) {
    was == Superseded || (was == Retired && status == Confirmed)
  }

  lemma LateWriteIff(db: Database, r: Id, status: ReflectionStatus, now: Time)
    requires Inv(db) && r in db.reflections && IsReview(status)
    ensures var after := Reviewed(db, r, status, now);
      && (Inv(after) <==> db.reflections[r].status != Superseded)
      && (Monotone(db.reflections, after.reflections) <==> !Thaws(db.reflections[r].status, status))
  {
    var row := db.reflections[r].(status := status, updatedAt := now);
    var after := Reviewed(db, r, status, now);
    if db.reflections[r].status != Superseded {
      EditKeeps(db, r, row);
      if !Thaws(db.reflections[r].status, status) {
        EditIsMonotone(db, r, row);
      } else {
        assert !Frozen(db.reflections, after.reflections);
      }
    } else {
      ThawedIsUnmatched(db.reflections, r, row);
    }
  }

  lemma ThawedIsUnmatched(rows: Rows, r: Id, row: Reflection)
    requires IsForest(rows) && r in rows && rows[r].status == Superseded
    requires row == rows[r].(status := row.status, updatedAt := row.updatedAt) && row.status != Superseded
    ensures !IsForest(rows[r := row]) && !Monotone(rows, rows[r := row])
  {
    var after := rows[r := row];
    assert r in after && after[r].status != Superseded && after[r].supersededBy.Some?;
  }

  /** A write that comes late, after any run of other operations, keeps the invariant
      exactly when none of them superseded the row. It thaws the row then, and also when
      a late confirm meets a row that was retired meanwhile. */
  lemma LateReviewIff(db: Database, run: seq<Event>, r: Id, status: ReflectionStatus, now: Time)
    requires Inv(db) && AdmissibleRun(db, run) && IsReview(status) && Review(db, r, status, now).Some?
    ensures var before, after := Exec(db, run), Reviewed(Exec(db, run), r, status, now);
      && r in before.reflections
      && (Inv(after) <==> before.reflections[r].status != Superseded)
      && (Monotone(before.reflections, after.reflections) <==> !Thaws(before.reflections[r].status, status))
  {
    RunKeepsInv(db, run);
    SupersededForever(db, run);
    assert r in db.reflections;
    LateWriteIff(Exec(db, run), r, status, now);
  }

  /** A decision that merges one reflection into another and does nothing else. */
  function MergeOnly(source: Id, target: Id): Response {
    Response([], [], [MergeAction(source, target)], [])
  }

  lemma MergeOnlySupersedes(db: Database, episode: Id, project: Text, source: Id, target: Id, now: Time)
    requires Awaiting(db, episode, project)
    requires source != target && Live(db.reflections, source) && Live(db.reflections, target)
    ensures var r := ApplyDecision(db, episode, MergeOnly(source, target), project, now);
      r.Some? && source in r.value.reflections && r.value.reflections[source].status == Superseded
  {
    var merge := [MergeAction(source, target)];
    assert merge[..0] == [];
    assert MergeAll(db, merge, now) == MergeOne(db, merge[0], now);
  }

  /** Between the check and the write of a review the row is merged away: possible for
      every live reflection while some episode awaits synthesis. */
  lemma MergedInBetween(db: Database, episode: Id, project: Text, source: Id, target: Id, status: ReflectionStatus, now: Time)
    requires Inv(db) && Awaiting(db, episode, project) && IsReview(status)
    requires source != target && Live(db.reflections, source) && Live(db.reflections, target)
    ensures var merge := Event(DoDecision(episode, MergeOnly(source, target), project), now);
      && Review(db, source, status, now).Some?
      && Inv(Apply(db, merge))
      && !Inv(Reviewed(Apply(db, merge), source, status, now))
  {
    MergeOnlySupersedes(db, episode, project, source, target, now);
    var merge := Event(DoDecision(episode, MergeOnly(source, target), project), now);
    StepKeepsInv(db, merge);
    LateWriteIff(Apply(db, merge), source, status, now);
  }

  /** The same with a retire in between: the late confirm brings the row back. */
  lemma RetiredInBetween(db: Database, r: Id, now: Time)
    requires Inv(db) && Live(db.reflections, r) && db.reflections[r].status == PendingReview
    ensures var retired := Apply(db, Event(DoRetire(r), now));
      && Review(db, r, Confirmed, now).Some?
      && retired.reflections[r].status == Retired
      && !Monotone(retired.reflections, Reviewed(retired, r, Confirmed, now).reflections)
  {
    StepKeepsInv(db, Event(DoRetire(r), now));
    LateWriteIff(Apply(db, Event(DoRetire(r), now)), r, Confirmed, now);
  }

  // ---- decisions ----

  /** The database as a process saw it that checked the episode before another one
      stamped it. */
  function Unstamped(db: Database, episode: Id): Database
    requires episode in db.episodes
  {
    db.(episodes := db.episodes[episode := db.episodes[episode].(synthesizedAt := None)])
  }

  /** A decision whose check came too early works on the tables as they are now. */
  function LateDecision(db: Database, episode: Id, response: Response, project: Text, now: Time): Option<Database>
    requires episode in db.episodes
  {
    ApplyDecision(Unstamped(db, episode), episode, response, project, now)
  }

  lemma UnstampedKeepsInv(db: Database, episode: Id)
    requires Inv(db) && episode in db.episodes
    ensures Inv(Unstamped(db, episode))
  {
    var early := Unstamped(db, episode);
    RowsMatchUpdate(db.episodes, db.bindings, episode, early.episodes[episode], db.bindings);
    EpisodesDoNotMatter(db, early.episodes, early.bindings);
  }

  /** A second decision on an episode that was synthesized meanwhile thaws nothing and
      touches no observation that is not active any more. */
  lemma LateDecisionAdvances(db: Database, episode: Id, response: Response, project: Text, now: Time)
    requires episode in db.episodes
    ensures var r := LateDecision(db, episode, response, project, now);
      r.Some? ==>
        && Advances(db, r.value.(episodes := db.episodes))
        && r.value.episodes == db.episodes[episode := db.episodes[episode].(synthesizedAt := Some(now))]
  {
    DecisionAdvances(Unstamped(db, episode), episode, response, project, now);
  }

  /** And it keeps the whole invariant. */
  lemma LateDecisionKeepsInv(db: Database, episode: Id, response: Response, project: Text, now: Time)
    requires Inv(db) && episode in db.episodes
    ensures var r := LateDecision(db, episode, response, project, now); r.Some? ==> Inv(r.value)
  {
    UnstampedKeepsInv(db, episode);
    DecisionKeeps(Unstamped(db, episode), episode, response, project, now);
  }
}
