/** The sweep that ends a decision is there so that no observation stays active in an
    episode that synthesis will not visit again. It does that for decisions on closed
    episodes, over every run; a decision on an episode that is still open is accepted too,
    and what is written to that episode afterwards stays behind. */
module Stranding {
  import opened Tables
  import opened Synthesis
  import opened Rating
  import opened Retention
  import opened Episodes
  import opened Curation
  import opened Progress
  import opened Queue
  import opened Runs

  /** Active, in a closed episode that is synthesized. */
  predicate Stranded(db: Database, o: Id) {
    && IsActive(db.observations, o)
    && var e := db.observations[o].episode;
    && e in db.episodes && db.episodes[e].endedAt.Some? && db.episodes[e].synthesizedAt.Some?
  }

  /** What must hold all along: only closed episodes are synthesized, and nothing active
      is left in them. */
  ghost predicate Swept(db: Database) {
    && (forall e :: e in db.episodes && db.episodes[e].synthesizedAt.Some? ==> db.episodes[e].endedAt.Some?)
    && (forall o :: IsActive(db.observations, o) && db.observations[o].episode in db.episodes ==>
          db.episodes[db.observations[o].episode].synthesizedAt.None?)
  }

  /** A decision that is accepted is about a closed episode. */
  predicate OnClosed(db: Database, e: Event) {
    e.step.DoDecision? && ApplyDecision(db, e.step.episode, e.step.response, e.step.project, e.now).Some? ==>
      db.episodes[e.step.episode].endedAt.Some?
  }

  ghost predicate ClosedRun(db: Database, run: seq<Event>) {
    |run| > 0 ==> ClosedRun(db, run[..|run| - 1]) && OnClosed(Exec(db, run[..|run| - 1]), run[|run| - 1])
  }

  /** No episode becomes synthesized or reopens, and no observation becomes active. */
  ghost predicate Calm(before: Database, after: Database) {
    && (forall e :: e in after.episodes && after.episodes[e].synthesizedAt.Some? ==>
          e in before.episodes && before.episodes[e].synthesizedAt.Some?)
    && (forall e :: e in before.episodes ==>
          e in after.episodes && (before.episodes[e].endedAt.Some? ==> after.episodes[e].endedAt.Some?))
    && (forall o :: IsActive(after.observations, o) ==>
          IsActive(before.observations, o) && before.observations[o].episode == after.observations[o].episode)
  }

  lemma CalmKeepsSwept(before: Database, after: Database)
    requires Swept(before) && Calm(before, after)
    ensures Swept(after)
  {
  }

  lemma InsertIsCalm(db: Database, uuid: Id, session: Text, row: Episode)
    requires uuid !in db.episodes && row.synthesizedAt.None?
    ensures Calm(db, Insert(db, uuid, session, row))
  {
  }

  lemma CalmTwice(a: Database, b: Database, c: Database)
    requires Calm(a, b) && Calm(b, c)
    ensures Calm(a, c)
  {
  }

  lemma BackgroundIsCalm(db: Database, session: Text, project: Text, uuid: Id)
    ensures Calm(db, OrUnchanged(db, Bootstrap(db, session, project, uuid)))
  {
    if uuid !in db.episodes { InsertIsCalm(db, uuid, session, NewEpisode(project, None)); }
  }

  /** The active episode is replaced by a new one. */
  lemma ReplacingIsCalm(db: Database, session: Text, e: Id, uuid: Id, row: Episode, now: Time)
    requires IsActiveFor(db, session, e) && row.synthesizedAt.None? && uuid !in db.episodes
    ensures Calm(db, Insert(CloseFor(db, e, session, NoOutcome, SupersededReason, now), uuid, session, row))
  {
    var superseded := CloseFor(db, e, session, NoOutcome, SupersededReason, now);
    ClosingIsCalm(db, session, e, NoOutcome, SupersededReason, now);
    InsertIsCalm(superseded, uuid, session, row);
    CalmTwice(db, superseded, Insert(superseded, uuid, session, row));
  }

  lemma HardeningIsCalm(db: Database, e: Id, goal: Text)
    requires e in db.episodes
    ensures Calm(db, db) && Calm(db, db.(episodes := db.episodes[e := db.episodes[e].(goal := Some(goal))]))
  {
  }

  lemma StartIsCalm(db: Database, session: Text, project: Text, goal: Text, uuid: Id, now: Time)
    ensures Calm(db, OrUnchanged(db, StartForeground(db, session, project, goal, uuid, now)))
  {
    var row, active := NewEpisode(project, Some(goal)), ActiveEpisode(db, session);
    if active.Some? {
      HardeningIsCalm(db, active.value, goal);
      if uuid !in db.episodes { ReplacingIsCalm(db, session, active.value, uuid, row, now); }
    } else if uuid !in db.episodes {
      InsertIsCalm(db, uuid, session, row);
    }
  }

  lemma ClosingIsCalm(db: Database, session: Text, e: Id, outcome: EpisodeOutcome, reason: CloseReason, now: Time)
    ensures IsActiveFor(db, session, e) ==> Calm(db, CloseFor(db, e, session, outcome, reason, now))
    ensures Calm(db, OrUnchanged(db, CloseById(db, e, outcome, reason, now)))
  {
  }

  lemma EpisodeStepsAreCalm(db: Database, e: Event)
    requires OnEpisodes(e.step)
    ensures Calm(db, Apply(db, e))
  {
    match e.step
    case DoBootstrap(s, p, u) => BackgroundIsCalm(db, s, p, u);
    case DoStart(s, p, g, u) => StartIsCalm(db, s, p, g, u, e.now);
    case DoCloseById(i, o, r) => ClosingIsCalm(db, NO_TEXT, i, o, r, e.now);
    case DoCloseActive(s, o, r) => SessionIsCalm(db, s, o, r, e.now);
    case DoCommitClose(s) => SessionIsCalm(db, s, Success, GoalComplete, e.now);
    case DoSessionEnd(s) => SessionIsCalm(db, s, NoOutcome, SessionEndReconciled, e.now);
  }

  lemma SessionIsCalm(db: Database, session: Text, outcome: EpisodeOutcome, reason: CloseReason, now: Time)
    ensures Calm(db, db) && Calm(db, OrUnchanged(db, CloseActive(db, session, outcome, reason, now)))
  {
    var active := ActiveEpisode(db, session);
    if active.Some? { ClosingIsCalm(db, session, active.value, outcome, reason, now); }
  }

  lemma AdvancingIsCalm(before: Database, after: Database)
    requires Advances(before, after)
    ensures Calm(before, after)
  {
  }

  lemma RatingsAreCalm(db: Database, e: Event)
    requires OnRatings(e.step)
    ensures Calm(db, Apply(db, e))
  {
    match e.step
    case DoCredit(s, item, v) =>
      RateAdvances(db, s, item, v, e.now);
      AdvancingIsCalm(db, RateOne(db, s, item, v, e.now));
    case DoRateSession(s, rs) =>
      RateAllAdvances(db, s, rs, e.now);
      AdvancingIsCalm(db, RateAll(db, s, rs, e.now));
  }

  lemma RetentionIsCalm(db: Database, p: Parameters, now: Time)
    ensures Calm(db, Run(db, p, now).0)
  {
    RunTouchesObservations(db, p, now);
  }

  lemma PromotionIsCalm(db: Database, o: Id, uuid: Id, now: Time)
    ensures Calm(db, OrUnchanged(db, PromoteObservation(db, o, uuid, now)))
  {
  }

  lemma SameTablesAreCalm(db: Database, after: Database)
    requires after.episodes == db.episodes && after.observations == db.observations
    ensures Calm(db, after)
  {
  }

  predicate OnOtherTables(step: Step) {
    step.DoConfirm? || step.DoRetire? || step.DoUpdateText? || step.DoSetTriggers? || step.DoCreateSemantic?
    || step.DoDeleteSemantic? || step.DoRecord? || step.DoDryRun?
  }

  lemma OthersAreCalm(db: Database, e: Event)
    requires OnOtherTables(e.step)
    ensures Calm(db, Apply(db, e))
  {
    SameTablesAreCalm(db, Apply(db, e));
  }

  function Written(db: Database, e: Id, uuid: Id, now: Time): Database {
    db.(observations := db.observations[uuid := Observation(e, Active, Some(now))])
  }

  /** The active episode is looked up before the observation is inserted. A row that
      comes late does no harm exactly while nobody has synthesized the episode. */
  lemma LateInsertIff(db: Database, e: Id, uuid: Id, now: Time)
    requires Swept(db) && e in db.episodes
    ensures Swept(Written(db, e, uuid, now)) <==> !Stranded(Written(db, e, uuid, now), uuid)
    ensures Swept(Written(db, e, uuid, now)) <==> db.episodes[e].synthesizedAt.None?
  {
    var after := Written(db, e, uuid, now);
    assert IsActive(after.observations, uuid);
  }

  /** An observation goes to an open episode, which is not synthesized. */
  lemma ObserveKeepsSwept(db: Database, session: Text, project: Text, episodeUuid: Id, uuid: Id, now: Time)
    requires Swept(db)
    ensures Swept(Observe(db, session, project, episodeUuid, uuid, now))
  {
    var begun := OrUnchanged(db, Bootstrap(db, session, project, episodeUuid));
    BackgroundIsCalm(db, session, project, episodeUuid);
    CalmKeepsSwept(db, begun);
    var active := ActiveEpisode(begun, session);
    if active.Some? { LateInsertIff(begun, active.value, uuid, now); }
  }

  lemma DecisionKeepsSwept(db: Database, e: Id, response: Response, project: Text, now: Time)
    requires Swept(db)
    ensures var r := ApplyDecision(db, e, response, project, now);
      r.Some? && db.episodes[e].endedAt.Some? ==> Swept(r.value)
  {
    DecisionAdvances(db, e, response, project, now);
    DecisionLeavesNoneActive(db, e, response, project, now);
    var r := ApplyDecision(db, e, response, project, now);
    if r.Some? {
      forall o | IsActive(r.value.observations, o) ensures r.value.observations[o].episode != e {
        assert o !in ActiveIn(r.value, e);
      }
    }
  }

  lemma OthersKeepSwept(db: Database, e: Event)
    requires Swept(db) && !e.step.DoObserve? && !e.step.DoDecision?
    ensures Swept(Apply(db, e))
  {
    if OnEpisodes(e.step) { EpisodeStepsAreCalm(db, e); }
    else if OnRatings(e.step) { RatingsAreCalm(db, e); }
    else if e.step.DoRetention? { RetentionIsCalm(db, e.step.parameters, e.now); }
    else if e.step.DoPromote? { PromotionIsCalm(db, e.step.observation, e.step.uuid, e.now); }
    else { OthersAreCalm(db, e); }
    CalmKeepsSwept(db, Apply(db, e));
  }

  lemma StepKeepsSwept(db: Database, e: Event)
    requires Swept(db) && OnClosed(db, e)
    ensures Swept(Apply(db, e))
  {
    match e.step
    case DoObserve(s, p, eu, u) => ObserveKeepsSwept(db, s, p, eu, u, e.now);
    case DoDecision(i, r, p) => DecisionKeepsSwept(db, i, r, p, e.now);
    case _ => OthersKeepSwept(db, e);
  }

  lemma {:induction false} RunKeepsSwept(db: Database, run: seq<Event>)
    requires Swept(db) && ClosedRun(db, run)
    ensures Swept(Exec(db, run))
  {
    if |run| > 0 {
      RunKeepsSwept(db, run[..|run| - 1]);
      StepKeepsSwept(Exec(db, run[..|run| - 1]), run[|run| - 1]);
    }
  }

  /** In every run whose decisions are about closed episodes no observation is ever
      stranded. */
  lemma NothingIsStranded(run: seq<Event>, o: Id)
    requires ClosedRun(EMPTY, run)
    ensures !Stranded(Exec(EMPTY, run), o)
  {
    RunKeepsSwept(EMPTY, run);
  }

  // ---- a decision on an open episode ----

  /** What strands an observation: it is written to the episode, which then closes. */
  function ThenObserveAndClose(session: Text, project: Text, uuid: Id, now: Time): seq<Event> {
    [Event(DoObserve(session, project, uuid, uuid), now), Event(DoCloseActive(session, Success, GoalComplete), now)]
  }

  lemma OpenHasSession(db: Database, e: Id) returns (session: Text)
    requires Lifecycle(db) && e in db.episodes && db.episodes[e].endedAt.None?
    ensures ActiveEpisode(db, session) == Some(e)
  {
    session :| BindingKey(e, session) in db.bindings;
    assert BindingMatches(db.episodes, BindingKey(e, session), db.bindings[BindingKey(e, session)]);
    ActiveIsUnique(db, session, e);
  }

  lemma RunOfTwo(db: Database, a: Event, b: Event)
    ensures Exec(db, [a, b]) == Apply(Apply(db, a), b)
  {
    assert [a, b][..1] == [a] && [a][..0] == [];
    assert Exec(db, [a]) == Apply(db, a);
  }

  lemma ObserveInOpen(db: Database, session: Text, e: Id, project: Text, uuid: Id, now: Time)
    requires Lifecycle(db) && ActiveEpisode(db, session) == Some(e) && uuid !in db.observations
    ensures var after := Observe(db, session, project, uuid, uuid, now);
      && after == db.(observations := db.observations[uuid := Observation(e, Active, Some(now))])
      && ActiveEpisode(after, session) == Some(e)
  {
    var after := Observe(db, session, project, uuid, uuid, now);
    assert IsActiveFor(after, session, e);
    ActiveIsUnique(after, session, e);
  }

  lemma ClosingStrands(db: Database, session: Text, e: Id, o: Id, now: Time)
    requires ActiveEpisode(db, session) == Some(e) && db.episodes[e].synthesizedAt.Some?
    requires IsActive(db.observations, o) && db.observations[o].episode == e
    ensures Stranded(Apply(db, Event(DoCloseActive(session, Success, GoalComplete), now)), o)
  {
  }

  lemma {:induction false} NoDecisionIsClosed(db: Database, run: seq<Event>)
    requires forall i :: 0 <= i < |run| ==> !run[i].step.DoDecision?
    ensures ClosedRun(db, run)
  {
    if |run| > 0 { NoDecisionIsClosed(db, run[..|run| - 1]); }
  }

  lemma OpenStrands(db: Database, session: Text, e: Id, project: Text, uuid: Id, now: Time)
    requires Lifecycle(db) && ActiveEpisode(db, session) == Some(e) && db.episodes[e].synthesizedAt.Some?
    requires uuid !in db.observations
    ensures var run := ThenObserveAndClose(session, project, uuid, now);
      ClosedRun(db, run) && Stranded(Exec(db, run), uuid)
  {
    var run := ThenObserveAndClose(session, project, uuid, now);
    ObserveThenClose(db, session, e, project, uuid, now, run[0], run[1]);
    RunOfTwo(db, run[0], run[1]);
    NoDecisionIsClosed(db, run);
  }

  lemma ObserveThenClose(db: Database, session: Text, e: Id, project: Text, uuid: Id, now: Time, first: Event, second: Event)
    requires Lifecycle(db) && ActiveEpisode(db, session) == Some(e) && db.episodes[e].synthesizedAt.Some?
    requires uuid !in db.observations && [first, second] == ThenObserveAndClose(session, project, uuid, now)
    ensures Stranded(Apply(Apply(db, first), second), uuid)
  {
    var written := Observe(db, session, project, uuid, uuid, now);
    ObserveInOpen(db, session, e, project, uuid, now);
    ClosingStrands(written, session, e, uuid, now);
    ObserveEvent(db, session, project, uuid, now);
    assert first == [first, second][0] && second == [first, second][1];
  }

  lemma ObserveEvent(db: Database, session: Text, project: Text, uuid: Id, now: Time)
    ensures Apply(db, Event(DoObserve(session, project, uuid, uuid), now)) == Observe(db, session, project, uuid, uuid, now)
  {
  }

  ghost predicate NeverStrands(db: Database) {
    forall run, o :: ClosedRun(db, run) ==> !Stranded(Exec(db, run), o)
  }

  /** After an accepted decision no continuation with decisions about closed episodes
      strands an observation, exactly when the episode was closed. */
  lemma DecisionIsSafeIff(db: Database, e: Id, response: Response, project: Text, now: Time)
    requires Lifecycle(db) && Swept(db) && ApplyDecision(db, e, response, project, now).Some?
    ensures NeverStrands(ApplyDecision(db, e, response, project, now).value) <==> db.episodes[e].endedAt.Some?
  {
    var after := ApplyDecision(db, e, response, project, now).value;
    MarkKeepsLifecycle(db, e, now);
    DecisionAdvances(db, e, response, project, now);
    if db.episodes[e].endedAt.Some? {
      DecisionKeepsSwept(db, e, response, project, now);
      forall run, o | ClosedRun(after, run) ensures !Stranded(Exec(after, run), o) {
        RunKeepsSwept(after, run);
      }
    } else {
      var session := OpenHasSession(after, e);
      var uuid := FreshId(after.observations.Keys);
      OpenStrands(after, session, e, project, uuid, now);
    }
  }

  function OpenAndDecide(session: Text, project: Text, now: Time): seq<Event> {
    [Event(DoBootstrap(session, project, 0), now), Event(DoDecision(0, NOTHING, project), now)]
  }

  lemma OpenIsDecided(session: Text, project: Text, now: Time)
    ensures var done := Exec(EMPTY, OpenAndDecide(session, project, now));
      && Lifecycle(done) && ActiveEpisode(done, session) == Some(0)
      && done.episodes[0].synthesizedAt.Some? && done.observations == map[]
  {
    var run := OpenAndDecide(session, project, now);
    var begun := Apply(EMPTY, run[0]);
    BootstrapKeepsLifecycle(EMPTY, session, project, 0);
    assert IsActiveFor(begun, session, 0);
    DecisionAdvances(begun, 0, NOTHING, project, now);
    MarkKeepsLifecycle(begun, 0, now);
    RunOfTwo(EMPTY, run[0], run[1]);
    var done := Exec(EMPTY, run);
    assert IsActiveFor(done, session, 0);
    ActiveIsUnique(done, session, 0);
  }

  /** From the empty store: a background episode opens, is synthesized at once, gets an
      observation and closes. */
  lemma StrandedRun(session: Text, project: Text, now: Time)
    ensures var run := OpenAndDecide(session, project, now) + ThenObserveAndClose(session, project, 1, now);
      AdmissibleRun(EMPTY, run) && Stranded(Exec(EMPTY, run), 1)
  {
    var first, rest := OpenAndDecide(session, project, now), ThenObserveAndClose(session, project, 1, now);
    OpenIsDecided(session, project, now);
    OpenStrands(Exec(EMPTY, first), session, 0, project, 1, now);
    ExecConcat(EMPTY, first, rest);
    AllAdmissible(EMPTY, first + rest);
  }

  const NOTHING := Response([], [], [], [])

  lemma {:induction false} ExecConcat(db: Database, a: seq<Event>, b: seq<Event>)
    ensures Exec(db, a + b) == Exec(Exec(db, a), b)
  {
    if b == [] {
      assert a + b == a;
    } else {
      ExecConcat(db, a, b[..|b| - 1]);
      assert (a + b)[..|a + b| - 1] == a + b[..|b| - 1];
    }
  }

  lemma {:induction false} AllAdmissible(db: Database, run: seq<Event>)
    requires forall i :: 0 <= i < |run| ==> !run[i].step.DoCreateSemantic? && !run[i].step.DoPromote?
    ensures AdmissibleRun(db, run)
  {
    if |run| > 0 { AllAdmissible(db, run[..|run| - 1]); }
  }

  lemma {:induction false} FreshId(ids: set<Id>) returns (id: Id)
    ensures forall other :: other in ids ==> other < id
  {
    if ids == {} {
      id := 0;
    } else {
      var some :| some in ids;
      var rest := FreshId(ids - {some});
      id := if some < rest then rest else some + 1;
      forall other | other in ids ensures other < id {
        assert other == some || other in ids - {some};
      }
    }
  }
}
