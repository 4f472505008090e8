/** Retention: three archive rules applied in order, an optional prune of old
    archived rows, and the select-only dry run that predicts both. */
module Retention {
  import opened Tables
  import opened Synthesis

  datatype Report = Report(viaRetired: nat, viaConsumed: nat, viaNoOutcome: nat, pruned: nat)

  datatype Parameters = Parameters(retentionDays: int, prune: bool, pruneAgeDays: int)

  /** The length of a day in clock units. */
  const DAY: Time := 86400

  function Threshold(now: Time, days: int): Time { now - days * DAY }

  predicate NoLaterThan(at: Option<Time>, threshold: Time) {
    at.Some? && at.value <= threshold
  }

  /** The reflections an observation's link rows join to. */
  function Joined(db: Database, observation: Id): set<Id> {
    set l | l in db.sources && l.observation == observation && l.reflection in db.reflections :: l.reflection
  }

  /** Rule A: linked, to retired reflections only, the latest of which last moved
      at or before the threshold. A maximum over no joined row is NULL, which
      fails the comparison. */
  predicate RuleA(db: Database, o: Id, threshold: Time) {
    && o in db.observations
    && db.observations[o].status != Archived
    && Linked(db.sources, o)
    && (forall r :: r in Joined(db, o) ==> db.reflections[r].status == Retired)
    && Joined(db, o) != {}
    && (forall r :: r in Joined(db, o) ==> db.reflections[r].updatedAt <= threshold)
  }

  predicate RuleB(db: Database, o: Id, threshold: Time) {
    && o in db.observations
    && db.observations[o].status == ConsumedWithoutReflection
    && NoLaterThan(db.observations[o].changedAt, threshold)
  }

  predicate RuleC(db: Database, o: Id, threshold: Time) {
    && o in db.observations
    && db.observations[o].status != Archived
    && var e := db.observations[o].episode;
    && e in db.episodes
    && db.episodes[e].outcome == Some(NoOutcome)
    && NoLaterThan(db.episodes[e].endedAt, threshold)
  }

  predicate Prunable(db: Database, o: Id, threshold: Time) {
    && o in db.observations
    && db.observations[o].status == Archived
    && NoLaterThan(db.observations[o].changedAt, threshold)
    && !Linked(db.sources, o)
  }

  function SelectA(db: Database, threshold: Time): set<Id> { set o | o in db.observations && RuleA(db, o, threshold) }
  function SelectB(db: Database, threshold: Time): set<Id> { set o | o in db.observations && RuleB(db, o, threshold) }
  function SelectC(db: Database, threshold: Time): set<Id> { set o | o in db.observations && RuleC(db, o, threshold) }
  function SelectPrunable(db: Database, threshold: Time): set<Id> {
    set o | o in db.observations && Prunable(db, o, threshold)
  }

  function ArchiveRows(db: Database, ids: set<Id>, now: Time): Database {
    db.(observations := SetStatus(db.observations, ids, Archived, now))
  }

  function DeleteRows(db: Database, ids: set<Id>): Database {
    db.(observations := db.observations - ids)
  }

  /** Each rule sees the rows the previous one left. */
  function RunArchive(db: Database, retentionDays: int, now: Time): (Database, Report) {
    var threshold := Threshold(now, retentionDays);
    var a := SelectA(db, threshold);
    var afterA := ArchiveRows(db, a, now);
    var b := SelectB(afterA, threshold);
    var afterB := ArchiveRows(afterA, b, now);
    var c := SelectC(afterB, threshold);
    (ArchiveRows(afterB, c, now), Report(|a|, |b|, |c|, 0))
  }

  function Run(db: Database, p: Parameters, now: Time): (Database, Report) {
    var (archived, report) := RunArchive(db, p.retentionDays, now);
    if !p.prune then (archived, report)
    else
      var gone := SelectPrunable(archived, Threshold(now, p.pruneAgeDays));
      (DeleteRows(archived, gone), report.(pruned := |gone|))
  }

  /** Select-only: nothing is archived, so later rules subtract what earlier rules
      would have taken, and rows that would be archived now are added to the prune
      count only when the prune threshold is not in the past. */
  function DryRun(db: Database, p: Parameters, now: Time): Report {
    var threshold := Threshold(now, p.retentionDays);
    var a := SelectA(db, threshold);
    var b := SelectB(db, threshold) - a;
    var c := SelectC(db, threshold) - a - b;
    if !p.prune then Report(|a|, |b|, |c|, 0)
    else
      var pruneThreshold := Threshold(now, p.pruneAgeDays);
      var already := SelectPrunable(db, pruneThreshold);
      if now <= pruneThreshold then
        var candidates := (b + c) - already;
        var sourced := set o | o in candidates && Linked(db.sources, o);
        Report(|a|, |b|, |c|, |already + (candidates - sourced)|)
      else Report(|a|, |b|, |c|, |already|)
  }

  // ---- the dry run predicts the run ----

  /** What the three rules take when no rule sees another's effect. */
  function TakenB(db: Database, t: Time): set<Id> { SelectB(db, t) - SelectA(db, t) }
  function TakenC(db: Database, t: Time): set<Id> { SelectC(db, t) - SelectA(db, t) - TakenB(db, t) }
  function Taken(db: Database, t: Time): set<Id> { SelectA(db, t) + TakenB(db, t) + TakenC(db, t) }

  lemma SelectionsAfterArchiving(db: Database, ids: set<Id>, t: Time, now: Time)
    ensures SelectB(ArchiveRows(db, ids, now), t) == SelectB(db, t) - ids
    ensures SelectC(ArchiveRows(db, ids, now), t) == SelectC(db, t) - ids
  {
  }

  lemma RunArchiveIsOneArchiving(db: Database, days: int, now: Time)
    ensures
      var t := Threshold(now, days);
      RunArchive(db, days, now) ==
        (ArchiveRows(db, Taken(db, t), now), Report(|SelectA(db, t)|, |TakenB(db, t)|, |TakenC(db, t)|, 0))
  {
    var t := Threshold(now, days);
    var a, b, c := SelectA(db, t), TakenB(db, t), TakenC(db, t);
    SelectionsAfterArchiving(db, a, t, now);
    var afterA := ArchiveRows(db, a, now);
    SelectionsAfterArchiving(afterA, b, t, now);
    var afterB := ArchiveRows(afterA, b, now);
    assert SelectC(afterB, t) == c;
    assert ArchiveRows(afterB, c, now).observations == ArchiveRows(db, a + b + c, now).observations;
  }

  lemma PrunableAfterArchiving(db: Database, ids: set<Id>, pt: Time, now: Time)
    requires forall o :: o in ids ==> o in db.observations && db.observations[o].status != Archived
    ensures SelectPrunable(ArchiveRows(db, ids, now), pt) ==
            SelectPrunable(db, pt) + if now <= pt then (set o | o in ids && !Linked(db.sources, o)) else {}
  {
  }

  lemma PrunedAfterRun(db: Database, t: Time, pt: Time, now: Time)
    ensures
      var already := SelectPrunable(db, pt);
      var candidates := (TakenB(db, t) + TakenC(db, t)) - already;
      var sourced := set o | o in candidates && Linked(db.sources, o);
      SelectPrunable(ArchiveRows(db, Taken(db, t), now), pt)
        == if now <= pt then already + (candidates - sourced) else already
  {
    PrunableAfterArchiving(db, Taken(db, t), pt, now);
    PruneCandidates(db, t, pt);
  }

  /** For every database, parameters and clock, the dry run reports exactly what
      the real run reports. */
  lemma DryRunPredictsRun(db: Database, p: Parameters, now: Time)
    ensures DryRun(db, p, now) == Run(db, p, now).1
  {
    RunArchiveIsOneArchiving(db, p.retentionDays, now);
    PrunedAfterRun(db, Threshold(now, p.retentionDays), Threshold(now, p.pruneAgeDays), now);
  }

  /** Rule A's rows are linked, so only the other two rules add rows to prune. */
  lemma PruneCandidates(db: Database, t: Time, pt: Time)
    ensures
      var already := SelectPrunable(db, pt);
      var candidates := (TakenB(db, t) + TakenC(db, t)) - already;
      var sourced := set o | o in candidates && Linked(db.sources, o);
      already + (candidates - sourced) == already + (set o | o in Taken(db, t) && !Linked(db.sources, o))
  {
    forall o | o in SelectA(db, t) ensures Linked(db.sources, o) {}
  }

  lemma EmptyArchiving(db: Database, days: int, now: Time)
    requires Taken(db, Threshold(now, days)) == {}
    ensures RunArchive(db, days, now) == (db, Report(0, 0, 0, 0))
  {
    RunArchiveIsOneArchiving(db, days, now);
    assert ArchiveRows(db, {}, now).observations == db.observations;
    var t := Threshold(now, days);
    assert SelectA(db, t) <= Taken(db, t) && TakenB(db, t) <= Taken(db, t) && TakenC(db, t) <= Taken(db, t);
  }

  /** Archiving is idempotent: at the same clock, or with any threshold at least
      as strict, a second pass finds nothing and changes nothing. */
  lemma SecondPassArchivesNothing(db: Database, days: int, days2: int, now: Time)
    requires days <= days2
    ensures RunArchive(RunArchive(db, days, now).0, days2, now)
            == (RunArchive(db, days, now).0, Report(0, 0, 0, 0))
  {
    RunArchiveIsOneArchiving(db, days, now);
    NothingLeft(db, Taken(db, Threshold(now, days)), Threshold(now, days), Threshold(now, days2), now);
    EmptyArchiving(RunArchive(db, days, now).0, days2, now);
  }

  lemma NothingLeft(db: Database, ids: set<Id>, t: Time, t2: Time, now: Time)
    requires t2 <= t && ids == Taken(db, t)
    ensures Taken(ArchiveRows(db, ids, now), t2) == {}
  {
    var archived := ArchiveRows(db, ids, now);
    SelectionsAfterArchiving(db, ids, t2, now);
    assert SelectB(db, t2) <= SelectB(db, t);
    assert SelectC(db, t2) <= SelectC(db, t);
    forall o | o in SelectA(archived, t2) ensures o in SelectA(db, t) {
      assert Joined(archived, o) == Joined(db, o);
    }
    assert SelectA(archived, t2) == {};
  }

  /** A run writes observations only: some become archived, some are deleted. */
  lemma RunTouchesObservations(db: Database, p: Parameters, now: Time)
    ensures
      var after := Run(db, p, now).0;
      && after == db.(observations := after.observations)
      && after.observations.Keys <= db.observations.Keys
      && forall o :: o in after.observations ==>
           || after.observations[o] == db.observations[o]
           || after.observations[o] == db.observations[o].(status := Archived, changedAt := Some(now))
  {
    var t := Threshold(now, p.retentionDays);
    RunArchiveIsOneArchiving(db, p.retentionDays, now);
    var archived := ArchiveRows(db, Taken(db, t), now);
    assert archived == db.(observations := archived.observations);
  }
}
