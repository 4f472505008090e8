/** What a drain does to the episodes. */
module DrainEffects {
  import opened Tables
  import opened Spool
  import Episodes

  /** The side effect of one event. */
  ghost function AfterEvent(db: Database, event: Event, now: Time): Database {
    match event.kind
    case CommitClose => Episodes.OnCommitClose(db, event.session, now)
    case SessionEnd => Episodes.OnSessionEnd(db, event.session, now)
    case Other => db
  }

  /** The side effects of the drained events, in the order of the files. */
  ghost function SideEffects(db: Database, spool: map<Name, Event>, files: seq<Name>, now: Time): Database {
    if files == [] then db
    else
      var earlier, n := SideEffects(db, spool, files[..|files| - 1], now), files[|files| - 1];
      if n in spool then AfterEvent(earlier, spool[n], now) else earlier
  }

  // ---- which files matter to a session ----

  predicate IsFor(spool: map<Name, Event>, n: Name, kind: EventKind, session: Text) {
    n in spool && spool[n].kind == kind && spool[n].session == session
  }

  /** The session has a commit marker. */
  predicate Committed(spool: map<Name, Event>, files: seq<Name>, session: Text) {
    exists i :: 0 <= i < |files| && IsFor(spool, files[i], CommitClose, session)
  }

  /** The session has a file of this kind, and none of the other kind before it. */
  predicate ComesFirst(spool: map<Name, Event>, files: seq<Name>, kind: EventKind, other: EventKind, session: Text) {
    exists i :: 0 <= i < |files| && IsFor(spool, files[i], kind, session)
                && forall j :: 0 <= j < i ==> !IsFor(spool, files[j], other, session)
  }

  /** An episode with a goal is closed exactly by a commit marker of its session; a
      background episode by whichever marker of its session comes first. */
  predicate Settles(before: Episode, after: Episode, spool: map<Name, Event>, files: seq<Name>, session: Text, now: Time) {
    if before.goal.Some? then
      if Committed(spool, files, session) then Episodes.ClosedAs(before, after, Success, GoalComplete, now) else after == before
    else
      && (ComesFirst(spool, files, SessionEnd, CommitClose, session) ==>
            Episodes.ClosedAs(before, after, NoOutcome, SessionEndReconciled, now))
      && (ComesFirst(spool, files, CommitClose, SessionEnd, session) ==>
            Episodes.ClosedAs(before, after, Success, GoalComplete, now))
      && (ComesFirst(spool, files, SessionEnd, CommitClose, session)
          || ComesFirst(spool, files, CommitClose, SessionEnd, session)
          || after == before)
  }

  /** Episodes that no named session has open stay as they are, the others settle, none
      is added, and no other table changes. */
  ghost predicate EpisodesDrained(before: Database, after: Database, spool: map<Name, Event>, files: seq<Name>, now: Time) {
    && after == before.(episodes := after.episodes, bindings := after.bindings)
    && after.episodes.Keys == before.episodes.Keys && BindingsClose(before, after, now)
    && (forall e, s :: s != NO_TEXT && Episodes.IsActiveFor(before, s, e) ==>
          Settles(before.episodes[e], after.episodes[e], spool, files, s, now))
    && (forall e :: e in before.episodes && !HasSession(before, e) ==> after.episodes[e] == before.episodes[e])
  }

  /** Bindings are only stamped, and only open ones. */
  predicate BindingsClose(before: Database, after: Database, now: Time) {
    && after.bindings.Keys == before.bindings.Keys
    && forall k :: k in before.bindings ==>
         after.bindings[k] == before.bindings[k] || (before.bindings[k].None? && after.bindings[k] == Some(now))
  }

  ghost predicate HasSession(db: Database, e: Id) {
    exists s :: s != NO_TEXT && Episodes.IsActiveFor(db, s, e)
  }

  // ---- the marker that comes first ----

  predicate IsMarker(spool: map<Name, Event>, n: Name, session: Text) {
    IsFor(spool, n, CommitClose, session) || IsFor(spool, n, SessionEnd, session)
  }

  function First(spool: map<Name, Event>, files: seq<Name>, session: Text): Option<EventKind> {
    if files == [] then None
    else
      var earlier, n := First(spool, files[..|files| - 1], session), files[|files| - 1];
      if earlier.Some? then earlier else if IsMarker(spool, n, session) then Some(spool[n].kind) else None
  }

  lemma {:induction false} NoFirst(spool: map<Name, Event>, files: seq<Name>, session: Text)
    ensures First(spool, files, session).None? <==> forall i :: 0 <= i < |files| ==> !IsMarker(spool, files[i], session)
  {
    if files != [] {
      NoFirst(spool, files[..|files| - 1], session);
    }
  }

  predicate AtIndex(spool: map<Name, Event>, files: seq<Name>, session: Text, i: nat) {
    && i < |files| && IsMarker(spool, files[i], session)
    && forall j :: 0 <= j < i ==> !IsMarker(spool, files[j], session)
  }

  lemma {:induction false} FirstAt(spool: map<Name, Event>, files: seq<Name>, session: Text) returns (i: nat)
    requires First(spool, files, session).Some?
    ensures AtIndex(spool, files, session, i) && spool[files[i]].kind == First(spool, files, session).value
  {
    var front := files[..|files| - 1];
    if First(spool, front, session).Some? {
      i := FirstAt(spool, front, session);
    } else {
      NoFirst(spool, front, session);
      i := |front|;
      assert forall j :: 0 <= j < i ==> files[j] == front[j];
    }
  }

  lemma FirstIs(spool: map<Name, Event>, files: seq<Name>, session: Text)
    ensures ComesFirst(spool, files, SessionEnd, CommitClose, session) <==> First(spool, files, session) == Some(SessionEnd)
    ensures ComesFirst(spool, files, CommitClose, SessionEnd, session) <==> First(spool, files, session) == Some(CommitClose)
    ensures First(spool, files, session).Some? ==> !First(spool, files, session).value.Other?
  {
    NoFirst(spool, files, session);
    if First(spool, files, session).Some? {
      var i := FirstAt(spool, files, session);
      assert IsFor(spool, files[i], SessionEnd, session) || IsFor(spool, files[i], CommitClose, session);
    }
  }

  lemma CommittedStep(spool: map<Name, Event>, files: seq<Name>, session: Text)
    requires files != []
    ensures Committed(spool, files, session) <==>
      Committed(spool, files[..|files| - 1], session) || IsFor(spool, files[|files| - 1], CommitClose, session)
  {
    var front := files[..|files| - 1];
    if Committed(spool, front, session) {
      var i :| 0 <= i < |front| && IsFor(spool, front[i], CommitClose, session);
      assert files[i] == front[i];
    }
  }

  // ---- one more file ----

  /** The same with the first marker: what happened to the episode a session had open,
      and that it is still the open one as long as nothing happened. */
  ghost predicate Tracks(before: Database, after: Database, e: Id, first: Option<EventKind>, committed: bool, session: Text, now: Time)
    requires e in before.episodes
  {
    && e in after.episodes
    && (if (if before.episodes[e].goal.Some? then committed else first.Some?) then
          && Episodes.ClosedAs(before.episodes[e], after.episodes[e],
                      if before.episodes[e].goal.Some? || first == Some(CommitClose) then Success else NoOutcome,
                      if before.episodes[e].goal.Some? || first == Some(CommitClose) then GoalComplete else SessionEndReconciled, now)
          && Episodes.ActiveEpisode(after, session).None?
        else after.episodes[e] == before.episodes[e] && Episodes.ActiveEpisode(after, session) == Some(e))
  }

  /** Only episodes that a named session had open were written, and none was opened. */
  ghost predicate OnlyCloses(before: Database, after: Database, now: Time) {
    && BindingsClose(before, after, now)
    && after == before.(episodes := after.episodes, bindings := after.bindings)
    && after.episodes.Keys == before.episodes.Keys
    && (forall e, s :: Episodes.IsActiveFor(after, s, e) ==> Episodes.IsActiveFor(before, s, e))
    && (forall e :: e in before.episodes && !HasSession(before, e) ==> after.episodes[e] == before.episodes[e])
  }

  lemma CloseOnlyCloses(before: Database, mid: Database, e: Id, session: Text, outcome: EpisodeOutcome, reason: CloseReason, now: Time)
    requires OnlyCloses(before, mid, now) && session != NO_TEXT && Episodes.IsActiveFor(mid, session, e)
    ensures OnlyCloses(before, Episodes.CloseFor(mid, e, session, outcome, reason, now), now)
  {
    assert Episodes.IsActiveFor(before, session, e);
    assert HasSession(before, e);
  }

  lemma EventOnlyCloses(before: Database, mid: Database, event: Event, now: Time)
    requires OnlyCloses(before, mid, now)
    ensures OnlyCloses(before, AfterEvent(mid, event, now), now)
  {
    var active := Episodes.ActiveEpisode(mid, event.session);
    if active.Some? && event.session != NO_TEXT {
      CloseOnlyCloses(before, mid, active.value, event.session, Success, GoalComplete, now);
      CloseOnlyCloses(before, mid, active.value, event.session, NoOutcome, SessionEndReconciled, now);
    }
  }

  lemma EventKeepsLifecycle(db: Database, event: Event, now: Time)
    requires Episodes.Lifecycle(db)
    ensures Episodes.Lifecycle(AfterEvent(db, event, now))
  {
    Episodes.EventsKeepLifecycle(db, event.session, now);
  }

  lemma OneSession(db: Database, e: Id, s: Text, other: Text)
    requires Episodes.Lifecycle(db) && Episodes.IsActiveFor(db, s, e) && Episodes.IsActiveFor(db, other, e)
    ensures s == other
  {
    assert BindingKey(e, s) in db.bindings && BindingKey(e, other) in db.bindings;
    assert BindingKey(e, s) == BindingKey(e, other);
  }

  lemma SparesOtherSessions(db: Database, event: Event, now: Time, session: Text, k: Id)
    requires Episodes.Lifecycle(db) && event.session != session
    ensures Episodes.IsActiveFor(AfterEvent(db, event, now), session, k) <==> Episodes.IsActiveFor(db, session, k)
    ensures Episodes.IsActiveFor(db, session, k) ==> AfterEvent(db, event, now).episodes[k] == db.episodes[k]
  {
    var closed := Episodes.ActiveEpisode(db, event.session);
    if closed == Some(k) && Episodes.IsActiveFor(db, session, k) {
      OneSession(db, k, session, event.session);
    }
  }

  /** What a session has open does not depend on the events of other sessions. */
  lemma SameOpen(db: Database, event: Event, now: Time, session: Text)
    requires Episodes.Lifecycle(db) && event.session != session
    ensures Episodes.ActiveEpisode(AfterEvent(db, event, now), session) == Episodes.ActiveEpisode(db, session)
  {
    var after, was := AfterEvent(db, event, now), Episodes.ActiveEpisode(db, session);
    EventKeepsLifecycle(db, event, now);
    forall k ensures Episodes.IsActiveFor(after, session, k) <==> Episodes.IsActiveFor(db, session, k) {
      SparesOtherSessions(db, event, now, session, k);
    }
    if was.Some? {
      Episodes.ActiveIsUnique(after, session, was.value);
    }
  }

  lemma ClosedStays(db: Database, event: Event, now: Time, e: Id)
    requires e in db.episodes && db.episodes[e].endedAt.Some?
    ensures e in AfterEvent(db, event, now).episodes && AfterEvent(db, event, now).episodes[e] == db.episodes[e]
  {
  }

  lemma OtherSession(db: Database, event: Event, now: Time, e: Id, session: Text)
    requires Episodes.Lifecycle(db) && event.session != session && e in db.episodes
    requires Episodes.ActiveEpisode(db, session) == Some(e) || db.episodes[e].endedAt.Some?
    ensures var after := AfterEvent(db, event, now);
      && e in after.episodes && after.episodes[e] == db.episodes[e]
      && Episodes.ActiveEpisode(after, session) == Episodes.ActiveEpisode(db, session)
  {
    SameOpen(db, event, now, session);
    if db.episodes[e].endedAt.Some? {
      ClosedStays(db, event, now, e);
    } else {
      SparesOtherSessions(db, event, now, session, e);
    }
  }

  function FirstAfter(first: Option<EventKind>, event: Event, session: Text): Option<EventKind> {
    if first.Some? || event.session != session || event.kind.Other? then first else Some(event.kind)
  }

  /** An event of the session itself, which still has the episode open or has nothing
      open any more. */
  lemma OwnSession(before: Database, mid: Database, event: Event, e: Id, first: Option<EventKind>, committed: bool, now: Time)
    requires Episodes.Lifecycle(mid) && e in before.episodes && event.session != NO_TEXT
    requires Tracks(before, mid, e, first, committed, event.session, now)
    ensures Tracks(before, AfterEvent(mid, event, now), e, FirstAfter(first, event, event.session),
                   committed || event.kind.CommitClose?, event.session, now)
  {
    if Episodes.ActiveEpisode(mid, event.session) == Some(e) {
      var goal := before.episodes[e].goal.Some?;
      match event.kind
      case CommitClose => Episodes.CloseKeepsLifecycle(mid, e, event.session, Success, GoalComplete, now);
      case SessionEnd =>
        if !goal {
          Episodes.CloseKeepsLifecycle(mid, e, event.session, NoOutcome, SessionEndReconciled, now);
        }
      case Other =>
    } else {
      assert AfterEvent(mid, event, now) == mid;
    }
  }

  lemma EventTracks(before: Database, mid: Database, event: Event, e: Id, first: Option<EventKind>, committed: bool,
                    session: Text, now: Time)
    requires Episodes.Lifecycle(mid) && e in before.episodes && session != NO_TEXT
    requires Tracks(before, mid, e, first, committed, session, now)
    ensures Tracks(before, AfterEvent(mid, event, now), e, FirstAfter(first, event, session),
                   committed || (event.kind.CommitClose? && event.session == session), session, now)
  {
    if event.session == session {
      OwnSession(before, mid, event, e, first, committed, now);
    } else {
      OtherSession(mid, event, now, e, session);
    }
  }

  lemma {:induction false} FilesTrack(db: Database, spool: map<Name, Event>, files: seq<Name>, e: Id, session: Text, now: Time)
    requires Episodes.Lifecycle(db) && session != NO_TEXT && Episodes.ActiveEpisode(db, session) == Some(e)
    ensures Episodes.Lifecycle(SideEffects(db, spool, files, now))
    ensures Tracks(db, SideEffects(db, spool, files, now), e, First(spool, files, session),
                   Committed(spool, files, session), session, now)
  {
    if files != [] {
      var front, n := files[..|files| - 1], files[|files| - 1];
      FilesTrack(db, spool, front, e, session, now);
      CommittedStep(spool, files, session);
      if n in spool {
        var mid := SideEffects(db, spool, front, now);
        EventTracks(db, mid, spool[n], e, First(spool, front, session), Committed(spool, front, session), session, now);
        EventKeepsLifecycle(mid, spool[n], now);
      }
    }
  }

  lemma {:induction false} FilesOnlyClose(db: Database, spool: map<Name, Event>, files: seq<Name>, now: Time)
    ensures OnlyCloses(db, SideEffects(db, spool, files, now), now)
  {
    if files != [] {
      var front, n := files[..|files| - 1], files[|files| - 1];
      FilesOnlyClose(db, spool, front, now);
      if n in spool {
        EventOnlyCloses(db, SideEffects(db, spool, front, now), spool[n], now);
      }
    }
  }

  lemma SessionSettles(db: Database, spool: map<Name, Event>, files: seq<Name>, e: Id, session: Text, now: Time)
    requires Episodes.Lifecycle(db) && session != NO_TEXT && Episodes.IsActiveFor(db, session, e)
    ensures var after := SideEffects(db, spool, files, now);
      e in after.episodes && Settles(db.episodes[e], after.episodes[e], spool, files, session, now)
  {
    Episodes.ActiveIsUnique(db, session, e);
    FilesTrack(db, spool, files, e, session, now);
    FirstIs(spool, files, session);
    var first := First(spool, files, session);
    if first.Some? {
      var kind := first.value;
      assert kind.CommitClose? || kind.SessionEnd?;
    }
  }

  /** What the committed files of a drain do to the episodes, file by file in their
      order, comes to this. */
  lemma EffectsOfDrain(db: Database, spool: map<Name, Event>, files: seq<Name>, now: Time)
    requires Episodes.Lifecycle(db)
    ensures EpisodesDrained(db, SideEffects(db, spool, files, now), spool, files, now)
  {
    FilesOnlyClose(db, spool, files, now);
    forall e, s | s != NO_TEXT && Episodes.IsActiveFor(db, s, e)
      ensures Settles(db.episodes[e], SideEffects(db, spool, files, now).episodes[e], spool, files, s, now)
    {
      SessionSettles(db, spool, files, e, s, now);
    }
  }
}
