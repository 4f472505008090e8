/** When an observation is archived and pruned, counted from what was done to it. */
module Aging {
  import opened Tables
  import opened Synthesis
  import opened Retention
  import opened Curation
  import opened Episodes

  /** That many days have passed since `at`. */
  predicate Passed(at: Time, days: int, now: Time) {
    at + days * DAY <= now
  }

  /** The episode of the observation ended without an outcome. */
  predicate InVain(db: Database, o: Id) {
    && o in db.observations && db.observations[o].episode in db.episodes
    && db.episodes[db.observations[o].episode].outcome == Some(NoOutcome)
  }

  predicate IsArchived(db: Database, o: Id) {
    o in db.observations && db.observations[o].status == Archived
  }

  lemma TakenIff(db: Database, t: Time, o: Id)
    ensures o in Taken(db, t) <==> RuleA(db, o, t) || RuleB(db, o, t) || RuleC(db, o, t)
    ensures o in Taken(db, t) ==> o in db.observations && db.observations[o].status != Archived
  {
  }

  lemma ArchivedByRules(db: Database, days: int, now: Time, o: Id)
    requires o in db.observations
    ensures var after, t := RunArchive(db, days, now).0, Threshold(now, days);
      && o in after.observations
      && (IsArchived(after, o) <==> IsArchived(db, o) || RuleA(db, o, t) || RuleB(db, o, t) || RuleC(db, o, t))
      && (!IsArchived(after, o) || IsArchived(db, o) ==> after.observations[o] == db.observations[o])
      && (IsArchived(after, o) && !IsArchived(db, o) ==> after.observations[o].changedAt == Some(now))
  {
    RunArchiveIsOneArchiving(db, days, now);
    TakenIff(db, Threshold(now, days), o);
    var after := ArchiveRows(db, Taken(db, Threshold(now, days)), now);
    assert RunArchive(db, days, now).0 == after;
  }

  /** An observation that is swept or ignored, and backs nothing, is archived exactly when
      the retention time has passed since then. */
  lemma UnusedIsArchived(db: Database, ids: set<Id>, o: Id, at: Time, days: int, now: Time)
    requires IsActive(db.observations, o) && o in ids && !Linked(db.sources, o) && !InVain(db, o)
    ensures IsArchived(RunArchive(Consume(db, ids, at), days, now).0, o) <==> Passed(at, days, now)
  {
    ArchivedByRules(Consume(db, ids, at), days, now, o);
  }

  /** When a session ends, the active observations of its background episode are archived
      exactly when the retention time has passed since then. */
  lemma BackgroundIsArchived(db: Database, session: Text, e: Id, o: Id, at: Time, days: int, now: Time)
    requires session != NO_TEXT && ActiveEpisode(db, session) == Some(e) && db.episodes[e].goal.None?
    requires IsActive(db.observations, o) && db.observations[o].episode == e && !Linked(db.sources, o)
    ensures IsArchived(RunArchive(OnSessionEnd(db, session, at), days, now).0, o) <==> Passed(at, days, now)
  {
    ArchivedByRules(OnSessionEnd(db, session, at), days, now, o);
  }

  /** Those of an episode that ends with a commit stay, however old they get. */
  lemma CommittedStays(db: Database, session: Text, e: Id, o: Id, at: Time, days: int, now: Time)
    requires session != NO_TEXT && ActiveEpisode(db, session) == Some(e)
    requires IsActive(db.observations, o) && db.observations[o].episode == e && !Linked(db.sources, o)
    ensures !IsArchived(RunArchive(OnCommitClose(db, session, at), days, now).0, o)
  {
    ArchivedByRules(OnCommitClose(db, session, at), days, now, o);
  }

  /** Every other reflection the observation backs was retired before. */
  predicate OthersRetired(db: Database, o: Id, r: Id, at: Time) {
    forall q :: q in Joined(db, o) && q != r ==> db.reflections[q].status == Retired && db.reflections[q].updatedAt <= at
  }

  /** When the last reflection that an observation backs is retired, the observation is
      archived exactly when the retention time has passed since then. */
  lemma RetiredIsArchived(db: Database, r: Id, o: Id, at: Time, days: int, now: Time)
    requires Live(db.reflections, r) && Link(r, o) in db.sources && OthersRetired(db, o, r, at)
    requires o in db.observations && db.observations[o].status == ConsumedIntoReflection && !InVain(db, o)
    ensures Retire(db, r, at).Some?
    ensures IsArchived(RunArchive(Retire(db, r, at).value, days, now).0, o) <==> Passed(at, days, now)
  {
    var after := Retire(db, r, at).value;
    ArchivedByRules(after, days, now, o);
    assert Joined(after, o) == Joined(db, o);
    assert Link(r, o).reflection in Joined(db, o);
  }

  /** As long as it backs a reflection that is not retired, it stays. */
  lemma EvidenceStays(db: Database, r: Id, o: Id, days: int, now: Time)
    requires Link(r, o) in db.sources && r in db.reflections && db.reflections[r].status != Retired
    requires o in db.observations && db.observations[o].status == ConsumedIntoReflection && !InVain(db, o)
    ensures !IsArchived(RunArchive(db, days, now).0, o)
  {
    ArchivedByRules(db, days, now, o);
    assert Link(r, o).reflection in Joined(db, o);
  }

  /** An archived observation is deleted exactly when pruning is on, it backs nothing, and
      the prune age has passed since it was archived. */
  lemma ArchivedIsPruned(db: Database, p: Parameters, now: Time, o: Id, at: Time)
    requires IsArchived(db, o) && db.observations[o].changedAt == Some(at)
    ensures o !in Run(db, p, now).0.observations <==>
      p.prune && !Linked(db.sources, o) && Passed(at, p.pruneAgeDays, now)
  {
    ArchivedByRules(db, p.retentionDays, now, o);
    RunArchiveIsOneArchiving(db, p.retentionDays, now);
  }

  /** What is not archived after the rules is never deleted. */
  lemma OthersAreKept(db: Database, p: Parameters, now: Time, o: Id)
    requires o in db.observations && !IsArchived(RunArchive(db, p.retentionDays, now).0, o)
    ensures o in Run(db, p, now).0.observations
  {
    ArchivedByRules(db, p.retentionDays, now, o);
  }
}
