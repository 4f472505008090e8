/** Every run. The database starts empty and any number of operations follow, in any
    order and at any clock readings; each operation that raises leaves the database
    as its savepoint found it. Each operation is one atomic step here, as with one
    process at the database; `Races` has the operations whose check and write are
    apart. */
module Runs {
  import opened Tables
  import opened Synthesis
  import opened Rating
  import opened Retention
  import opened Episodes
  import opened Curation
  import opened Forest
  import opened Evidence
  import opened Conservation
  import opened Progress

  datatype Step =
    // episodes and observations
    | DoBootstrap(session: Text, project: Text, uuid: Id)
    | DoStart(session: Text, project: Text, goal: Text, uuid: Id)
    | DoCloseActive(session: Text, outcome: EpisodeOutcome, reason: CloseReason)
    | DoCloseById(episode: Id, outcome: EpisodeOutcome, reason: CloseReason)
    | DoCommitClose(session: Text)
    | DoSessionEnd(session: Text)
    | DoObserve(session: Text, project: Text, episodeUuid: Id, uuid: Id)
    // synthesis
    | DoDecision(episode: Id, response: Response, project: Text)
    // curation
    | DoConfirm(reflection: Id)
    | DoRetire(reflection: Id)
    | DoUpdateText(reflection: Id)
    | DoSetTriggers(reflection: Id)
    | DoCreateSemantic(uuid: Id)
    | DoDeleteSemantic(memory: Id)
    | DoPromote(observation: Id, uuid: Id)
    // exposures and ratings
    | DoRecord(session: Text, items: seq<Item>)
    | DoCredit(session: Text, item: Item, verdict: Class)
    | DoRateSession(session: Text, requests: seq<Request>)
    // retention
    | DoRetention(parameters: Parameters)
    | DoDryRun(parameters: Parameters)

  datatype Event = Event(step: Step, now: Time)

  function OrUnchanged(db: Database, result: Option<Database>): Database {
    if result.None? then db else result.value
  }

  ghost function Apply(db: Database, e: Event): Database {
    match e.step
    case DoBootstrap(s, p, u) => OrUnchanged(db, Bootstrap(db, s, p, u))
    case DoStart(s, p, g, u) => OrUnchanged(db, StartForeground(db, s, p, g, u, e.now))
    case DoCloseActive(s, o, r) => OrUnchanged(db, CloseActive(db, s, o, r, e.now))
    case DoCloseById(i, o, r) => OrUnchanged(db, CloseById(db, i, o, r, e.now))
    case DoCommitClose(s) => OnCommitClose(db, s, e.now)
    case DoSessionEnd(s) => OnSessionEnd(db, s, e.now)
    case DoObserve(s, p, eu, u) => Observe(db, s, p, eu, u, e.now)
    case DoDecision(i, r, p) => OrUnchanged(db, ApplyDecision(db, i, r, p, e.now))
    case DoConfirm(r) => OrUnchanged(db, Confirm(db, r, e.now))
    case DoRetire(r) => OrUnchanged(db, Retire(db, r, e.now))
    case DoUpdateText(r) => OrUnchanged(db, UpdateText(db, r, e.now))
    case DoSetTriggers(r) => OrUnchanged(db, SetTriggers(db, r, e.now))
    case DoCreateSemantic(u) => OrUnchanged(db, CreateSemantic(db, u))
    case DoDeleteSemantic(m) => DeleteSemantic(db, m)
    case DoPromote(o, u) => OrUnchanged(db, PromoteObservation(db, o, u, e.now))
    case DoRecord(s, items) => Record(db, s, items)
    case DoCredit(s, item, v) => if v == Ignored then db else RateOne(db, s, item, v, e.now)
    case DoRateSession(s, rs) => OrUnchanged(db, RateSession(db, s, rs, e.now))
    case DoRetention(p) => Run(db, p, e.now).0
    case DoDryRun(p) => db
  }

  /** Fresh ids for semantic memories are really fresh; nothing else is assumed. */
  predicate Admissible(db: Database, e: Event) {
    match e.step
    case DoCreateSemantic(u) => NeverRated(db, u)
    case DoPromote(_, u) => NeverRated(db, u)
    case _ => true
  }

  ghost function Exec(db: Database, run: seq<Event>): Database {
    if |run| == 0 then db else Apply(Exec(db, run[..|run| - 1]), run[|run| - 1])
  }

  ghost predicate AdmissibleRun(db: Database, run: seq<Event>) {
    |run| > 0 ==>
      && AdmissibleRun(db, run[..|run| - 1])
      && Admissible(Exec(db, run[..|run| - 1]), run[|run| - 1])
  }

  // ---- the invariant ----

  predicate Placed(db: Database) {
    forall o :: o in db.observations ==> db.observations[o].episode in db.episodes
  }

  ghost predicate StoreInv(db: Database) {
    EvidenceInv(db) && ConservationInv(db)
  }

  ghost predicate Inv(db: Database) {
    StoreInv(db) && Lifecycle(db) && Placed(db)
  }

  // ---- synthesis ----

  lemma CreateKeeps(db: Database, action: NewAction, project: Text, now: Time)
    requires StoreInv(db)
    ensures var r := CreateOne(db, action, project, now); r.Some? ==> StoreInv(r.value)
  {
    CreateKeepsEvidence(db, action, project, now);
    CreateKeepsConservation(db, action, project, now);
  }

  lemma AugmentKeeps(db: Database, action: AugmentAction, now: Time)
    requires StoreInv(db)
    ensures StoreInv(AugmentOne(db, action, now))
  {
    AugmentKeepsEvidence(db, action, now);
    AugmentKeepsConservation(db, action, now);
  }

  lemma MergeKeeps(db: Database, action: MergeAction, now: Time)
    requires StoreInv(db)
    ensures StoreInv(MergeOne(db, action, now))
  {
    MergeKeepsEvidence(db, action, now);
    MergeKeepsConservation(db, action, now);
  }

  lemma ConsumeKeeps(db: Database, ids: set<Id>, now: Time)
    requires StoreInv(db)
    ensures StoreInv(Consume(db, ids, now))
  {
    ConsumeKeepsEvidence(db, ids, now);
  }

  lemma {:induction false} CreateAllKeeps(db: Database, actions: seq<NewAction>, project: Text, now: Time)
    requires StoreInv(db)
    ensures var r := CreateAll(db, actions, project, now); r.Some? ==> StoreInv(r.value)
  {
    var n := |actions|;
    if n > 0 {
      CreateAllKeeps(db, actions[..n - 1], project, now);
      var before := CreateAll(db, actions[..n - 1], project, now);
      if before.Some? { CreateKeeps(before.value, actions[n - 1], project, now); }
    }
  }

  lemma {:induction false} AugmentAllKeeps(db: Database, actions: seq<AugmentAction>, now: Time)
    requires StoreInv(db)
    ensures StoreInv(AugmentAll(db, actions, now))
  {
    var n := |actions|;
    if n > 0 {
      AugmentAllKeeps(db, actions[..n - 1], now);
      AugmentKeeps(AugmentAll(db, actions[..n - 1], now), actions[n - 1], now);
    }
  }

  lemma {:induction false} MergeAllKeeps(db: Database, actions: seq<MergeAction>, now: Time)
    requires StoreInv(db)
    ensures StoreInv(MergeAll(db, actions, now))
  {
    var n := |actions|;
    if n > 0 {
      MergeAllKeeps(db, actions[..n - 1], now);
      MergeKeeps(MergeAll(db, actions[..n - 1], now), actions[n - 1], now);
    }
  }

  lemma RestKeeps(db: Database, batch: set<Id>, response: Response, now: Time)
    requires StoreInv(db)
    ensures StoreInv(ApplyRest(db, batch, response, now))
  {
    AugmentAllKeeps(db, response.augment, now);
    var augmented := AugmentAll(db, response.augment, now);
    MergeAllKeeps(augmented, response.merge, now);
    var merged := MergeAll(augmented, response.merge, now);
    ConsumeKeeps(merged, Elements(response.ignore), now);
    ConsumeKeeps(Consume(merged, Elements(response.ignore), now), batch, now);
  }

  lemma EpisodesDoNotMatter(db: Database, episodes: map<Id, Episode>, bindings: map<BindingKey, Option<Time>>)
    requires StoreInv(db)
    ensures StoreInv(db.(episodes := episodes, bindings := bindings))
  {
  }

  lemma DecisionKeepsStore(db: Database, episode: Id, response: Response, project: Text, now: Time)
    requires StoreInv(db)
    ensures var r := ApplyDecision(db, episode, response, project, now); r.Some? ==> StoreInv(r.value)
  {
    if Awaiting(db, episode, project) {
      CreateAllKeeps(db, response.create, project, now);
      var created := CreateAll(db, response.create, project, now);
      if created.Some? {
        RestKeeps(created.value, ActiveIn(db, episode), response, now);
        var rest := ApplyRest(created.value, ActiveIn(db, episode), response, now);
        EpisodesDoNotMatter(rest, MarkSynthesized(rest, episode, now).episodes, rest.bindings);
      }
    }
  }

  lemma MarkKeepsLifecycle(db: Database, episode: Id, now: Time)
    requires Lifecycle(db)
    ensures Lifecycle(MarkSynthesized(db, episode, now))
  {
    if episode in db.episodes {
      RowsMatchUpdate(db.episodes, db.bindings, episode, db.episodes[episode].(synthesizedAt := Some(now)), db.bindings);
    }
  }

  lemma DecisionKeeps(db: Database, episode: Id, response: Response, project: Text, now: Time)
    requires Inv(db)
    ensures Inv(OrUnchanged(db, ApplyDecision(db, episode, response, project, now)))
  {
    DecisionKeepsStore(db, episode, response, project, now);
    DecisionAdvances(db, episode, response, project, now);
    MarkKeepsLifecycle(db, episode, now);
  }

  // ---- ratings, curation, retention ----

  lemma RateKeeps(db: Database, session: Text, item: Item, verdict: Class, now: Time)
    requires StoreInv(db)
    ensures StoreInv(RateOne(db, session, item, verdict, now))
  {
    RateKeepsConservation(db, session, item, verdict, now);
    RateKeepsEvidence(db, session, item, verdict, now);
  }

  lemma {:induction false} RateAllKeeps(db: Database, session: Text, requests: seq<Request>, now: Time)
    requires StoreInv(db)
    ensures StoreInv(RateAll(db, session, requests, now))
  {
    var n := |requests|;
    if n > 0 {
      RateAllKeeps(db, session, requests[..n - 1], now);
      RateKeeps(RateAll(db, session, requests[..n - 1], now), session, requests[n - 1].item, requests[n - 1].verdict, now);
    }
  }

  /** A row edited without leaving or entering the superseded state. */
  lemma EditKeeps(db: Database, r: Id, row: Reflection)
    requires StoreInv(db) && r in db.reflections
    requires row == db.reflections[r].(status := row.status, updatedAt := row.updatedAt)
    requires row.status == Superseded <==> db.reflections[r].status == Superseded
    ensures StoreInv(db.(reflections := db.reflections[r := row]))
  {
    EditKeepsEvidence(db, r, row);
    assert SameStanding(db.reflections, db.reflections[r := row]);
    StandingKeepsConservation(db, db.reflections[r := row]);
  }

  lemma RetentionKeeps(db: Database, p: Parameters, now: Time)
    requires Inv(db)
    ensures Inv(Run(db, p, now).0)
  {
    RetentionKeepsEvidence(db, p, now);
    RunTouchesObservations(db, p, now);
    OtherTablesDoNotMatter(db, Run(db, p, now).0);
  }

  lemma ObserveKeepsStore(db: Database, session: Text, project: Text, episodeUuid: Id, uuid: Id, now: Time)
    requires StoreInv(db)
    ensures StoreInv(Observe(db, session, project, episodeUuid, uuid, now))
  {
  }

  lemma ObserveKeeps(db: Database, session: Text, project: Text, episodeUuid: Id, uuid: Id, now: Time)
    requires Inv(db)
    ensures Inv(Observe(db, session, project, episodeUuid, uuid, now))
  {
    ObserveKeepsStore(db, session, project, episodeUuid, uuid, now);
    ObserveKeepsLifecycle(db, session, project, episodeUuid, uuid, now);
  }

  lemma SemanticKeeps(db: Database, m: Id)
    requires Inv(db)
    ensures NeverRated(db, m) ==> Inv(OrUnchanged(db, CreateSemantic(db, m)))
    ensures Inv(DeleteSemantic(db, m))
  {
    SemanticKeepsConservation(db, DeleteSemantic(db, m), m);
    if m !in db.semantics && NeverRated(db, m) {
      SemanticKeepsConservation(db, CreateSemantic(db, m).value, m);
    }
  }

  lemma PromoteKeeps(db: Database, o: Id, m: Id, now: Time)
    requires Inv(db) && NeverRated(db, m)
    ensures Inv(OrUnchanged(db, PromoteObservation(db, o, m, now)))
  {
    if IsActive(db.observations, o) && m !in db.semantics {
      SemanticKeeps(db, m);
      StatusKeepsEvidence(CreateSemantic(db, m).value, {o}, ConsumedWithoutReflection, now);
    }
  }

  lemma TouchKeeps(db: Database, r: Id, now: Time)
    requires Inv(db)
    ensures Inv(OrUnchanged(db, UpdateText(db, r, now))) && Inv(OrUnchanged(db, SetTriggers(db, r, now)))
  {
    if r in db.reflections {
      EditKeeps(db, r, db.reflections[r].(updatedAt := now));
    }
  }

  lemma ReviewKeeps(db: Database, r: Id, now: Time)
    requires Inv(db)
    ensures Inv(OrUnchanged(db, Confirm(db, r, now))) && Inv(OrUnchanged(db, Retire(db, r, now)))
  {
    if r in db.reflections && db.reflections[r].status != Superseded {
      EditKeeps(db, r, db.reflections[r].(status := Confirmed, updatedAt := now));
      EditKeeps(db, r, db.reflections[r].(status := Retired, updatedAt := now));
    }
  }

  lemma RecordKeeps(db: Database, session: Text, items: seq<Item>)
    requires Inv(db)
    ensures Inv(Record(db, session, items))
  {
    RecordKeepsConservation(db, session, items);
  }

  lemma CreditKeeps(db: Database, session: Text, item: Item, verdict: Class, now: Time)
    requires Inv(db)
    ensures Inv(RateOne(db, session, item, verdict, now))
  {
    RateKeeps(db, session, item, verdict, now);
    RateAdvances(db, session, item, verdict, now);
  }

  lemma SessionRatingsKeep(db: Database, session: Text, requests: seq<Request>, now: Time)
    requires Inv(db)
    ensures Inv(RateAll(db, session, requests, now))
  {
    RateAllKeeps(db, session, requests, now);
    RateAllAdvances(db, session, requests, now);
  }

  lemma RatingsKeep(db: Database, e: Event)
    requires Inv(db) && (e.step.DoRecord? || e.step.DoCredit? || e.step.DoRateSession?)
    ensures Inv(Apply(db, e))
  {
    match e.step
    case DoRecord(s, items) => RecordKeeps(db, s, items);
    case DoCredit(s, item, v) => CreditKeeps(db, s, item, v, e.now);
    case DoRateSession(s, rs) => SessionRatingsKeep(db, s, rs, e.now);
  }

  predicate OnEpisodes(step: Step) {
    step.DoBootstrap? || step.DoStart? || step.DoCloseActive? || step.DoCloseById?
    || step.DoCommitClose? || step.DoSessionEnd?
  }

  lemma EpisodeStepsKeepLifecycle(db: Database, e: Event)
    requires Lifecycle(db) && OnEpisodes(e.step)
    ensures Lifecycle(Apply(db, e))
  {
    match e.step
    case DoBootstrap(s, p, u) => BootstrapKeepsLifecycle(db, s, p, u);
    case DoStart(s, p, g, u) => StartKeepsLifecycle(db, s, p, g, u, e.now);
    case DoCloseActive(s, o, r) =>
      var active := ActiveEpisode(db, s);
      if active.Some? { CloseKeepsLifecycle(db, active.value, s, o, r, e.now); }
    case DoCloseById(i, o, r) => CloseByIdKeepsLifecycle(db, i, o, r, e.now);
    case DoCommitClose(s) => EventsKeepLifecycle(db, s, e.now);
    case DoSessionEnd(s) => EventsKeepLifecycle(db, s, e.now);
  }

  ghost predicate WritesEpisodes(db: Database, after: Database) {
    after == db.(episodes := after.episodes, bindings := after.bindings) && db.episodes.Keys <= after.episodes.Keys
  }

  lemma OpeningWritesEpisodes(db: Database, session: Text, project: Text, goal: Text, uuid: Id, now: Time)
    ensures WritesEpisodes(db, OrUnchanged(db, Bootstrap(db, session, project, uuid)))
    ensures WritesEpisodes(db, OrUnchanged(db, StartForeground(db, session, project, goal, uuid, now)))
  {
  }

  lemma EpisodeStepsWriteEpisodes(db: Database, e: Event)
    requires OnEpisodes(e.step)
    ensures WritesEpisodes(db, Apply(db, e))
  {
    match e.step
    case DoBootstrap(s, p, u) => OpeningWritesEpisodes(db, s, p, NO_TEXT, u, e.now);
    case DoStart(s, p, g, u) => OpeningWritesEpisodes(db, s, p, g, u, e.now);
    case _ =>
  }

  lemma EpisodeStepsKeep(db: Database, e: Event)
    requires Inv(db) && OnEpisodes(e.step)
    ensures Inv(Apply(db, e))
  {
    EpisodeStepsKeepLifecycle(db, e);
    EpisodeStepsWriteEpisodes(db, e);
    var after := Apply(db, e);
    EpisodesDoNotMatter(db, after.episodes, after.bindings);
  }

  // ---- the theorems ----

  lemma StepKeepsInv(db: Database, e: Event)
    requires Inv(db) && Admissible(db, e)
    ensures Inv(Apply(db, e))
  {
    if OnEpisodes(e.step) { EpisodeStepsKeep(db, e); }
    else {
      match e.step
      case DoObserve(s, p, eu, u) => ObserveKeeps(db, s, p, eu, u, e.now);
      case DoDecision(i, r, p) => DecisionKeeps(db, i, r, p, e.now);
      case DoConfirm(r) => ReviewKeeps(db, r, e.now);
      case DoRetire(r) => ReviewKeeps(db, r, e.now);
      case DoUpdateText(r) => TouchKeeps(db, r, e.now);
      case DoSetTriggers(r) => TouchKeeps(db, r, e.now);
      case DoCreateSemantic(u) => SemanticKeeps(db, u);
      case DoDeleteSemantic(m) => SemanticKeeps(db, m);
      case DoPromote(o, u) => PromoteKeeps(db, o, u, e.now);
      case DoRetention(p) => RetentionKeeps(db, p, e.now);
      case DoDryRun(p) =>
      case _ => RatingsKeep(db, e);
    }
  }

  lemma {:induction false} RunKeepsInv(db: Database, run: seq<Event>)
    requires Inv(db) && AdmissibleRun(db, run)
    ensures Inv(Exec(db, run))
  {
    if |run| > 0 {
      RunKeepsInv(db, run[..|run| - 1]);
      StepKeepsInv(Exec(db, run[..|run| - 1]), run[|run| - 1]);
    }
  }

  /** In every database reachable from the empty one: the merge graph is a forest,
      ratings are conserved, evidence is disjoint and counted, and the episode
      lifecycle is sound. */
  lemma EveryRunKeepsInv(run: seq<Event>)
    requires AdmissibleRun(EMPTY, run)
    ensures Inv(Exec(EMPTY, run))
  {
    assert SupersededRows(EMPTY.reflections) == {};
    RunKeepsInv(EMPTY, run);
  }

  predicate OnOneReflection(step: Step) {
    step.DoConfirm? || step.DoRetire? || step.DoUpdateText? || step.DoSetTriggers?
  }

  /** A row edited in nothing but its timestamp, or while it is not superseded. */
  lemma EditIsMonotone(db: Database, r: Id, row: Reflection)
    requires r in db.reflections
    requires db.reflections[r].status in {Retired, Superseded} ==> row == db.reflections[r].(updatedAt := row.updatedAt)
    ensures Monotone(db.reflections, db.(reflections := db.reflections[r := row]).reflections)
  {
  }

  lemma CurationIsMonotone(db: Database, e: Event)
    requires OnOneReflection(e.step)
    ensures Monotone(db.reflections, Apply(db, e).reflections)
  {
    var r, now := e.step.reflection, e.now;
    if r in db.reflections {
      var row := db.reflections[r];
      EditIsMonotone(db, r, row.(updatedAt := now));
      if row.status !in {Retired, Superseded} {
        EditIsMonotone(db, r, row.(status := Confirmed, updatedAt := now));
        EditIsMonotone(db, r, row.(status := Retired, updatedAt := now));
      }
    }
  }

  predicate OnRatings(step: Step) {
    step.DoCredit? || step.DoRateSession?
  }

  lemma RatingIsMonotone(db: Database, e: Event)
    requires OnRatings(e.step)
    ensures Monotone(db.reflections, Apply(db, e).reflections)
  {
    match e.step
    case DoCredit(s, item, v) => RateAdvances(db, s, item, v, e.now);
    case DoRateSession(s, rs) => RateAllAdvances(db, s, rs, e.now);
  }

  lemma RetentionIsMonotone(db: Database, p: Parameters, now: Time)
    ensures Monotone(db.reflections, Run(db, p, now).0.reflections)
  {
    RunTouchesObservations(db, p, now);
  }

  lemma DecisionIsMonotone(db: Database, episode: Id, response: Response, project: Text, now: Time)
    ensures Monotone(db.reflections, OrUnchanged(db, ApplyDecision(db, episode, response, project, now)).reflections)
  {
    DecisionAdvances(db, episode, response, project, now);
  }

  lemma OthersLeaveReflections(db: Database, e: Event)
    requires !OnOneReflection(e.step) && !OnRatings(e.step) && !e.step.DoDecision? && !e.step.DoRetention?
    ensures Apply(db, e).reflections == db.reflections
  {
    if OnEpisodes(e.step) { EpisodeStepsWriteEpisodes(db, e); }
  }

  lemma StepIsMonotone(db: Database, e: Event)
    ensures Monotone(db.reflections, Apply(db, e).reflections)
  {
    if OnOneReflection(e.step) { CurationIsMonotone(db, e); }
    else if OnRatings(e.step) { RatingIsMonotone(db, e); }
    else {
      match e.step
      case DoDecision(i, r, p) => DecisionIsMonotone(db, i, r, p, e.now);
      case DoRetention(p) => RetentionIsMonotone(db, p, e.now);
      case _ => OthersLeaveReflections(db, e);
    }
  }

  /** Once retired or superseded, a reflection stays so for the rest of every run: its
      status, its pointer, its counters and its evidence count never change again. */
  lemma {:induction false} SupersededForever(db: Database, run: seq<Event>)
    ensures Monotone(db.reflections, Exec(db, run).reflections)
  {
    if |run| > 0 {
      SupersededForever(db, run[..|run| - 1]);
      StepIsMonotone(Exec(db, run[..|run| - 1]), run[|run| - 1]);
    }
  }

  /** So no credit, batch of ratings, merge, augment or review reaches a retired row. */
  lemma RetiredForever(db: Database, run: seq<Event>, r: Id)
    requires r in db.reflections && db.reflections[r].status == Retired
    ensures var after := Exec(db, run).reflections;
      && r in after && after[r].status == Retired && after[r].supersededBy == db.reflections[r].supersededBy
      && after[r].counters == db.reflections[r].counters && after[r].evidenceCount == db.reflections[r].evidenceCount
      && after[r].confidence == db.reflections[r].confidence
  {
    SupersededForever(db, run);
  }
}
