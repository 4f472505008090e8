/** The episode service over the connection. Every method relies on the lifecycle
    invariant, which makes the active episode of a session unique, and keeps it. */
module EpisodeService {
  import opened Tables
  import opened Episodes
  import opened Connection

  class EpisodeService {
    const conn: Connection

    constructor (conn: Connection)
      ensures this.conn == conn
    {
      this.conn := conn;
    }

    method ActiveEpisodeRow(session: Text) returns (r: Option<Id>)
      requires Lifecycle(conn.Tables())
      ensures r == ActiveEpisode(conn.Tables(), session)
    {
      var rows := set k | k in conn.bindings && IsActiveFor(conn.Tables(), session, k.episode) && k.session == session
                  :: k.episode;
      forall e ensures e in rows <==> IsActiveFor(conn.Tables(), session, e) {
        if IsActiveFor(conn.Tables(), session, e) { assert BindingKey(e, session).episode in rows; }
      }
      if rows == {} { return None; }
      var e :| e in rows;
      ActiveIsUnique(conn.Tables(), session, e);
      r := Some(e);
    }

    method OpenBackground(session: Text, project: Text, uuid: Id) returns (ok: bool)
      modifies conn
      ensures ok <==> Episodes.OpenBackground(old(conn.Tables()), session, project, uuid).Some?
      ensures conn.Tables() == if ok then Episodes.OpenBackground(old(conn.Tables()), session, project, uuid).value
                               else old(conn.Tables())
    {
      if uuid in conn.episodes || BindingKey(uuid, session) in conn.bindings { return false; }
      conn.episodes := conn.episodes[uuid := NewEpisode(project, None)];
      conn.bindings := conn.bindings[BindingKey(uuid, session) := None];
      ok := true;
    }

    method StartForeground(session: Text, project: Text, goal: Text, uuid: Id, now: Time) returns (result: Option<Id>)
      requires Lifecycle(conn.Tables())
      modifies conn
      ensures Lifecycle(conn.Tables())
      ensures result.Some? <==> Episodes.StartForeground(old(conn.Tables()), session, project, goal, uuid, now).Some?
      ensures result.Some? ==>
        && Some(conn.Tables()) == Episodes.StartForeground(old(conn.Tables()), session, project, goal, uuid, now)
        && result == ActiveEpisode(conn.Tables(), session)
      ensures result.None? ==> conn.Tables() == old(conn.Tables())
    {
      StartKeepsLifecycle(conn.Tables(), session, project, goal, uuid, now);
      var active := ActiveEpisodeRow(session);
      if active.Some? && conn.episodes[active.value].goal == Some(goal) { return active; }
      var savepoint := conn.Tables();
      if active.Some? && conn.episodes[active.value].goal.None? {
        conn.episodes := conn.episodes[active.value := conn.episodes[active.value].(goal := Some(goal))];
        ActiveIsUnique(conn.Tables(), session, active.value);
        return active;
      }
      if active.Some? {
        conn.episodes := conn.episodes[active.value :=
          Ended(conn.episodes[active.value], NoOutcome, SupersededReason, now)];
        conn.bindings := conn.bindings[BindingKey(active.value, session) := Some(now)];
      }
      if uuid in conn.episodes || BindingKey(uuid, session) in conn.bindings {
        conn.RollBack(savepoint);
        return None;
      }
      conn.episodes := conn.episodes[uuid := NewEpisode(project, Some(goal))];
      conn.bindings := conn.bindings[BindingKey(uuid, session) := None];
      ActiveIsUnique(conn.Tables(), session, uuid);
      result := Some(uuid);
    }

    method CloseActive(session: Text, outcome: EpisodeOutcome, reason: CloseReason, now: Time) returns (closed: Option<Id>)
      requires Lifecycle(conn.Tables())
      modifies conn
      ensures Lifecycle(conn.Tables()) && ActiveEpisode(conn.Tables(), session).None?
      ensures closed == ActiveEpisode(old(conn.Tables()), session)
      ensures conn.Tables() == if closed.None? then old(conn.Tables())
                               else Episodes.CloseActive(old(conn.Tables()), session, outcome, reason, now).value
    {
      closed := ActiveEpisodeRow(session);
      if closed.None? { return; }
      CloseKeepsLifecycle(conn.Tables(), closed.value, session, outcome, reason, now);
      conn.episodes := conn.episodes[closed.value := Ended(conn.episodes[closed.value], outcome, reason, now)];
      conn.bindings := conn.bindings[BindingKey(closed.value, session) := Some(now)];
    }

    method CloseById(e: Id, outcome: EpisodeOutcome, reason: CloseReason, now: Time) returns (ok: bool)
      requires Lifecycle(conn.Tables())
      modifies conn
      ensures Lifecycle(conn.Tables())
      ensures ok <==> e in old(conn.episodes) && old(conn.episodes)[e].outcome.None?
      ensures conn.Tables() == if ok then Episodes.CloseById(old(conn.Tables()), e, outcome, reason, now).value
                               else old(conn.Tables())
    {
      CloseByIdKeepsLifecycle(conn.Tables(), e, outcome, reason, now);
      if e !in conn.episodes { return false; }
      if conn.episodes[e].endedAt.Some? { return false; }
      conn.episodes := conn.episodes[e := Ended(conn.episodes[e], outcome, reason, now)];
      conn.bindings := map k | k in conn.bindings ::
        if k.episode == e && conn.bindings[k].None? then Some(now) else conn.bindings[k];
      ok := true;
    }

    /** Spool side effects: errors are swallowed, hardened episodes are spared. */
    method OnSessionEnd(session: Text, now: Time)
      requires Lifecycle(conn.Tables())
      modifies conn
      ensures Lifecycle(conn.Tables())
      ensures conn.Tables() == Episodes.OnSessionEnd(old(conn.Tables()), session, now)
    {
      if session == NO_TEXT { return; }
      var active := ActiveEpisodeRow(session);
      if active.None? || conn.episodes[active.value].goal.Some? { return; }
      var _ := CloseActive(session, NoOutcome, SessionEndReconciled, now);
    }

    method OnCommitClose(session: Text, now: Time)
      requires Lifecycle(conn.Tables())
      modifies conn
      ensures Lifecycle(conn.Tables())
      ensures conn.Tables() == Episodes.OnCommitClose(old(conn.Tables()), session, now)
    {
      if session == NO_TEXT { return; }
      var _ := CloseActive(session, Success, GoalComplete, now);
    }
  }
}
