/** The synthesis queue of a project: which closed episodes are done, pending or
    cooling down, what one decision moves, when a decision is refused, and how long
    draining the queue takes. */
module Queue {
  import opened Tables
  import opened Synthesis
  import opened Evidence
  import opened Progress

  const COOLDOWN: Time := 300

  function ClosedEpisodes(db: Database, project: Text): set<Id> {
    set e | e in db.episodes && db.episodes[e].project == project && db.episodes[e].outcome.Some?
  }

  predicate CoolingDown(row: Episode, now: Time) {
    row.synthFailedAt.Some? && row.synthFailedAt.value >= now - COOLDOWN
  }

  function Done(db: Database, project: Text): set<Id> {
    set e | e in ClosedEpisodes(db, project) && db.episodes[e].synthesizedAt.Some?
  }

  function Pending(db: Database, project: Text, now: Time): set<Id> {
    set e | e in ClosedEpisodes(db, project)
            && db.episodes[e].synthesizedAt.None?
            && (db.episodes[e].synthFailedAt.None? || db.episodes[e].synthFailedAt.value < now - COOLDOWN)
  }

  function InCooldown(db: Database, project: Text, now: Time): set<Id> {
    set e | e in ClosedEpisodes(db, project)
            && db.episodes[e].synthesizedAt.None? && CoolingDown(db.episodes[e], now)
  }

  /** SQL orders NULL before every value. */
  predicate EndsNoLater(a: Episode, b: Episode) {
    a.endedAt.None? || (b.endedAt.Some? && a.endedAt.value <= b.endedAt.value)
  }

  /** A row the oldest-pending query may return. */
  predicate IsOldestPending(db: Database, project: Text, now: Time, e: Id) {
    && e in Pending(db, project, now)
    && forall other :: other in Pending(db, project, now) ==> EndsNoLater(db.episodes[e], db.episodes[other])
  }

  /** The three counts partition the closed episodes. */
  lemma CountsPartition(db: Database, project: Text, now: Time)
    ensures Done(db, project) + Pending(db, project, now) + InCooldown(db, project, now) == ClosedEpisodes(db, project)
    ensures |Done(db, project)| + |Pending(db, project, now)| + |InCooldown(db, project, now)|
            == |ClosedEpisodes(db, project)|
  {
    var a, b, c := Done(db, project), Pending(db, project, now), InCooldown(db, project, now);
    assert a + b + c == ClosedEpisodes(db, project);
    assert |a + b| == |a| + |b|;
    assert |(a + b) + c| == |a + b| + |c|;
  }

  lemma {:induction false} EarliestExists(episodes: map<Id, Episode>, ids: set<Id>) returns (e: Id)
    requires ids != {} && ids <= episodes.Keys
    ensures e in ids && forall other :: other in ids ==> EndsNoLater(episodes[e], episodes[other])
    decreases |ids|
  {
    e :| e in ids;
    if ids != {e} {
      assert ids - {e} != {};
      var rest := EarliestExists(episodes, ids - {e});
      if !EndsNoLater(episodes[e], episodes[rest]) { e := rest; }
    }
  }

  /** A next context exists exactly when something is pending. */
  lemma NextExistsIffPending(db: Database, project: Text, now: Time)
    ensures (exists e :: IsOldestPending(db, project, now, e)) <==> |Pending(db, project, now)| > 0
  {
    if Pending(db, project, now) != {} {
      var e := EarliestExists(db.episodes, Pending(db, project, now));
      assert IsOldestPending(db, project, now, e);
    }
  }

  // ---- one decision ----

  /** An accepted decision on a pending episode moves exactly that episode from
      pending to done and leaves no active observation in it. */
  lemma DecisionMovesOne(db: Database, e: Id, response: Response, project: Text, now: Time)
    requires e in Pending(db, project, now)
    ensures var r := ApplyDecision(db, e, response, project, now);
      r.Some? ==>
        && Pending(r.value, project, now) == Pending(db, project, now) - {e}
        && Done(r.value, project) == Done(db, project) + {e}
        && InCooldown(r.value, project, now) == InCooldown(db, project, now)
        && ActiveIn(r.value, e) == {}
  {
    DecisionAdvances(db, e, response, project, now);
    DecisionLeavesNoneActive(db, e, response, project, now);
  }

  lemma DecisionLeavesNoneActive(db: Database, e: Id, response: Response, project: Text, now: Time)
    ensures var r := ApplyDecision(db, e, response, project, now); r.Some? ==> ActiveIn(r.value, e) == {}
  {
    if Awaiting(db, e, project) && CreateAll(db, response.create, project, now).Some? {
      var batch := ActiveIn(db, e);
      var created := CreateAll(db, response.create, project, now).value;
      var augmented := AugmentAll(created, response.augment, now);
      var merged := MergeAll(augmented, response.merge, now);
      var ignored := Consume(merged, Elements(response.ignore), now);
      CreateAllAdvances(db, response.create, project, now);
      AugmentAllAdvances(created, response.augment, now);
      MergeAllAdvances(augmented, response.merge, now);
      ConsumeAdvances(merged, Elements(response.ignore), now);
      AdvancesTransitive(db, created, augmented);
      AdvancesTransitive(db, augmented, merged);
      AdvancesTransitive(db, merged, ignored);
      SweepClears(db, ignored, e, now);
    }
  }

  lemma SweepClears(before: Database, swept: Database, e: Id, now: Time)
    requires Advances(before, swept)
    ensures ActiveIn(Consume(swept, ActiveIn(before, e), now), e) == {}
  {
    forall o | o in swept.observations && swept.observations[o].episode == e && swept.observations[o].status == Active
      ensures o in ActiveIn(before, e) {}
  }

  // ---- when a decision is refused ----

  predicate Listed(actions: seq<NewAction>, o: Id) {
    exists k :: 0 <= k < |actions| && o in actions[k].sources
  }

  /** Action `k` names the active observation `o` twice and no earlier action
      names it at all. */
  predicate NamesTwice(db: Database, actions: seq<NewAction>, k: nat, o: Id)
    requires k < |actions|
  {
    && IsActive(db.observations, o)
    && !Listed(actions[..k], o)
    && multiset(actions[k].sources)[o] > 1
  }

  predicate Repeats(db: Database, actions: seq<NewAction>) {
    exists k, o :: 0 <= k < |actions| && o in db.observations && NamesTwice(db, actions, k, o)
  }

  predicate UuidsFresh(db: Database, actions: seq<NewAction>) {
    && (forall k :: 0 <= k < |actions| ==> actions[k].uuid !in db.reflections)
    && (forall j, k :: 0 <= j < k < |actions| ==> actions[j].uuid != actions[k].uuid)
  }

  lemma {:induction false} ActiveOnlyCounts(observations: map<Id, Observation>, ids: seq<Id>, o: Id)
    ensures multiset(ActiveOnly(observations, ids))[o] == if IsActive(observations, o) then multiset(ids)[o] else 0
  {
    if |ids| > 0 {
      assert ids == [ids[0]] + ids[1..];
      ActiveOnlyCounts(observations, ids[1..], o);
    }
  }

  lemma {:induction false} NoRepeatsByCount(ids: seq<Id>)
    ensures NoRepeats(ids) <==> forall o :: o in ids ==> multiset(ids)[o] == 1
  {
    if |ids| > 0 {
      var n := |ids| - 1;
      NoRepeatsByCount(ids[..n]);
      assert ids == ids[..n] + [ids[n]];
      assert ids[n] in ids;
      if NoRepeats(ids) {
        assert ids[n] !in ids[..n];
        forall o | o in ids ensures multiset(ids)[o] == 1 {
          if o in ids[..n] { assert multiset(ids[..n])[o] == 1; }
        }
      } else if forall o :: o in ids ==> multiset(ids)[o] == 1 {
        forall o | o in ids[..n] ensures multiset(ids[..n])[o] == 1 { assert o in ids; }
      }
    }
  }

  lemma {:induction false} ActiveAfterCreates(db: Database, actions: seq<NewAction>, project: Text, now: Time, o: Id)
    ensures var r := CreateAll(db, actions, project, now);
      r.Some? ==> (IsActive(r.value.observations, o) <==> IsActive(db.observations, o) && !Listed(actions, o))
  {
    var n := |actions| - 1;
    if n >= 0 {
      ActiveAfterCreates(db, actions[..n], project, now, o);
      var before := CreateAll(db, actions[..n], project, now);
      if before.Some? { ActiveOnlyElements(before.value.observations, actions[n].sources); }
      assert Listed(actions, o) <==> Listed(actions[..n], o) || o in actions[n].sources by {
        if o in actions[n].sources { assert o in actions[|actions| - 1].sources; }
      }
    }
  }

  lemma {:induction false} ReflectionsAfterCreates(db: Database, actions: seq<NewAction>, project: Text, now: Time, id: Id)
    requires id !in db.reflections && forall k :: 0 <= k < |actions| ==> actions[k].uuid != id
    ensures var r := CreateAll(db, actions, project, now); r.Some? ==> id !in r.value.reflections
  {
    if |actions| > 0 { ReflectionsAfterCreates(db, actions[..|actions| - 1], project, now, id); }
  }

  /** The last action raises exactly when it names twice an observation still
      active after the earlier ones. */
  lemma LastSucceeds(db: Database, actions: seq<NewAction>, project: Text, now: Time)
    requires EvidenceInv(db) && UuidsFresh(db, actions) && |actions| > 0
    requires CreateAll(db, actions[..|actions| - 1], project, now).Some?
    ensures CreateAll(db, actions, project, now).None? <==>
            exists o :: o in db.observations && NamesTwice(db, actions, |actions| - 1, o)
  {
    var n := |actions| - 1;
    var before := CreateAll(db, actions[..n], project, now).value;
    CreateAllKeepsEvidence(db, actions[..n], project, now);
    ReflectionsAfterCreates(db, actions[..n], project, now, actions[n].uuid);
    CreateSucceeds(before, actions[n], project, now);
    var valid := ActiveOnly(before.observations, actions[n].sources);
    NoRepeatsByCount(valid);
    forall o ensures multiset(valid)[o] > 1 <==> o in db.observations && NamesTwice(db, actions, n, o) {
      ActiveOnlyCounts(before.observations, actions[n].sources, o);
      ActiveAfterCreates(db, actions[..n], project, now, o);
    }
    forall o | o in valid ensures multiset(valid)[o] >= 1 {}
  }

  lemma RepeatsByPrefix(db: Database, actions: seq<NewAction>)
    requires |actions| > 0
    ensures Repeats(db, actions) <==>
      || Repeats(db, actions[..|actions| - 1])
      || exists o :: o in db.observations && NamesTwice(db, actions, |actions| - 1, o)
  {
    var n := |actions| - 1;
    forall k, o | 0 <= k < n ensures NamesTwice(db, actions, k, o) <==> NamesTwice(db, actions[..n], k, o) {
      assert actions[..n][..k] == actions[..k];
    }
  }

  lemma {:induction false} CreateAllSucceeds(db: Database, actions: seq<NewAction>, project: Text, now: Time)
    requires EvidenceInv(db) && UuidsFresh(db, actions)
    ensures CreateAll(db, actions, project, now).None? <==> Repeats(db, actions)
  {
    if |actions| > 0 {
      var n := |actions| - 1;
      CreateAllSucceeds(db, actions[..n], project, now);
      RepeatsByPrefix(db, actions);
      if CreateAll(db, actions[..n], project, now).Some? { LastSucceeds(db, actions, project, now); }
    }
  }

  /** A decision raises, and so changes nothing, exactly when the episode is not
      awaiting synthesis in that project or a new reflection repeats a source. The
      repetition is visible in the decision before it is applied. */
  lemma DecisionRefusedIff(db: Database, e: Id, response: Response, project: Text, now: Time)
    requires EvidenceInv(db) && UuidsFresh(db, response.create)
    ensures ApplyDecision(db, e, response, project, now).None? <==>
      || e !in db.episodes || db.episodes[e].project != project || db.episodes[e].synthesizedAt.Some?
      || Repeats(db, response.create)
  {
    CreateAllSucceeds(db, response.create, project, now);
  }

  /** A one-reflection decision that lists its source twice is refused, and the
      episode stays pending. */
  lemma RepeatedSourceIsRefused()
    ensures
      var db := EMPTY.(
        episodes := map[1 := Episode(2, None, Some(0), Some(GoalComplete), Some(Success), None, None)],
        observations := map[3 := Observation(1, Active, Some(0))]);
      var response := Response([NewAction(4, 0.5, [3, 3])], [], [], []);
      && 1 in Pending(db, 2, 1000)
      && ApplyDecision(db, 1, response, 2, 1000).None?
      && ApplyDecision(db, 1, response.(create := [NewAction(4, 0.5, [3])]), 2, 1000).Some?
  {
    var db := EMPTY.(
      episodes := map[1 := Episode(2, None, Some(0), Some(GoalComplete), Some(Success), None, None)],
      observations := map[3 := Observation(1, Active, Some(0))]);
    var twice := [NewAction(4, 0.5, [3, 3])];
    var once := [NewAction(4, 0.5, [3])];
    assert CreateAll(db, twice, 2, 1000).None? by {
      assert NamesTwice(db, twice, 0, 3) by { assert multiset([3, 3])[3] == 2; }
      CreateAllSucceeds(db, twice, 2, 1000);
    }
    assert CreateAll(db, once, 2, 1000).Some? by {
      forall k, o | 0 <= k < |once| ensures !NamesTwice(db, once, k, o) { assert once[k].sources == [3]; }
      CreateAllSucceeds(db, once, 2, 1000);
    }
  }

  // ---- draining ----

  datatype Decision = Decision(episode: Id, response: Response)

  /** Apply the decisions in order; each must be accepted. */
  function Drain(db: Database, project: Text, decisions: seq<Decision>, now: Time): Option<Database> {
    if |decisions| == 0 then Some(db)
    else
      var before := Drain(db, project, decisions[..|decisions| - 1], now);
      var last := decisions[|decisions| - 1];
      if before.None? then None else ApplyDecision(before.value, last.episode, last.response, project, now)
  }

  /** Every decision answers the context the queue handed out. */
  ghost predicate Follows(db: Database, project: Text, decisions: seq<Decision>, now: Time) {
    |decisions| > 0 ==>
      && Follows(db, project, decisions[..|decisions| - 1], now)
      && var before := Drain(db, project, decisions[..|decisions| - 1], now);
      && before.Some?
      && IsOldestPending(before.value, project, now, decisions[|decisions| - 1].episode)
  }

  /** At a fixed clock each accepted decision shortens the queue by one, so the
      drain loop finds a next context exactly while fewer decisions than the initial
      pending count have been accepted. */
  lemma {:induction false} DrainTakesPendingSteps(db: Database, project: Text, decisions: seq<Decision>, now: Time)
    requires Follows(db, project, decisions, now) && Drain(db, project, decisions, now).Some?
    ensures var after := Drain(db, project, decisions, now).value;
      && |Pending(after, project, now)| == |Pending(db, project, now)| - |decisions|
      && |Done(after, project)| == |Done(db, project)| + |decisions|
      && InCooldown(after, project, now) == InCooldown(db, project, now)
      && ((exists e :: IsOldestPending(after, project, now, e)) <==> |decisions| < |Pending(db, project, now)|)
  {
    var after := Drain(db, project, decisions, now).value;
    if |decisions| > 0 {
      var n := |decisions| - 1;
      var before := Drain(db, project, decisions[..n], now).value;
      DrainTakesPendingSteps(db, project, decisions[..n], now);
      DecisionMovesOne(before, decisions[n].episode, decisions[n].response, project, now);
    }
    NextExistsIffPending(after, project, now);
  }

  /** An episode whose synthesis failed comes back to the queue five minutes later. */
  lemma FailedComesBack(db: Database, project: Text, e: Id, at: Time, now: Time)
    requires e in ClosedEpisodes(db, project)
    requires db.episodes[e].synthesizedAt.None? && db.episodes[e].synthFailedAt == Some(at)
    ensures e in Pending(db, project, now) <==> now > at + 5 * 60
    ensures e in InCooldown(db, project, now) <==> now <= at + 5 * 60
  {
  }

  /** What is pending or cooling down is what a decision may be submitted for, once the
      episode is closed. */
  lemma QueuedIff(db: Database, project: Text, now: Time, e: Id)
    ensures e in Pending(db, project, now) || e in InCooldown(db, project, now) <==>
      Awaiting(db, e, project) && db.episodes[e].outcome.Some?
    ensures e in Done(db, project) <==>
      e in db.episodes && db.episodes[e].project == project && db.episodes[e].outcome.Some?
      && db.episodes[e].synthesizedAt.Some?
  {
  }

  /** The episode handed out ended no later than any other pending one. */
  lemma OldestIsFirst(db: Database, project: Text, now: Time, e: Id, other: Id)
    requires IsOldestPending(db, project, now, e) && other in Pending(db, project, now)
    ensures db.episodes[e].endedAt.Some? && db.episodes[other].endedAt.Some? ==>
      db.episodes[e].endedAt.value <= db.episodes[other].endedAt.value
    ensures db.episodes[other].endedAt.None? ==> db.episodes[e].endedAt.None?
  {
  }
}
