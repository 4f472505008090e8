/** What no operation undoes, whatever database it starts from: reflections are
    never lost, a retired or superseded row is frozen, and synthesis and ratings never touch an
    observation that has left the active pool. */
module Progress {
  import opened Tables
  import opened Synthesis
  import opened Rating
  import opened Evidence
  import opened Forest

  /** A retired or superseded row is frozen but for its timestamp. */
  predicate Frozen(before: Rows, after: Rows) {
    forall r :: r in before && before[r].status in {Retired, Superseded} ==>
      r in after && after[r].(updatedAt := before[r].updatedAt) == before[r]
  }

  /** No operation loses a reflection or thaws one that is frozen. */
  predicate Monotone(before: Rows, after: Rows) {
    before.Keys <= after.Keys && Frozen(before, after)
  }

  /** Synthesis and ratings keep more: episodes, bindings, which observations exist
      and where they belong, and every observation that is not active. */
  ghost predicate Advances(before: Database, after: Database) {
    && Monotone(before.reflections, after.reflections)
    && after.episodes == before.episodes && after.bindings == before.bindings
    && after.observations.Keys == before.observations.Keys
    && (forall o :: o in before.observations ==>
          && after.observations[o].episode == before.observations[o].episode
          && (before.observations[o].status != Active ==> after.observations[o] == before.observations[o]))
  }

  lemma AdvancesTransitive(a: Database, b: Database, c: Database)
    requires Advances(a, b) && Advances(b, c)
    ensures Advances(a, c)
  {
  }

  lemma CreateAdvances(db: Database, action: NewAction, project: Text, now: Time)
    ensures var r := CreateOne(db, action, project, now); r.Some? ==> Advances(db, r.value)
  {
    ActiveOnlyElements(db.observations, action.sources);
  }

  lemma AugmentAdvances(db: Database, action: AugmentAction, now: Time)
    ensures Advances(db, AugmentOne(db, action, now))
  {
    ActiveOnlyElements(db.observations, action.addSources);
  }

  lemma MergeAdvances(db: Database, action: MergeAction, now: Time)
    ensures Advances(db, MergeOne(db, action, now))
  {
  }

  lemma ConsumeAdvances(db: Database, ids: set<Id>, now: Time)
    ensures Advances(db, Consume(db, ids, now))
  {
  }

  /** Ignoring writes the active observations among the listed ones and nothing else,
      leaves none of them active, and does nothing the second time. */
  lemma IgnoreIsFinal(db: Database, ids: set<Id>, now: Time, later: Time, o: Id)
    ensures var after := Consume(db, ids, now);
      && after == db.(observations := after.observations) && after.observations.Keys == db.observations.Keys
      && (o in ids ==> !IsActive(after.observations, o))
      && (o in db.observations ==>
            after.observations[o] ==
            if o in ids && IsActive(db.observations, o)
            then db.observations[o].(status := ConsumedWithoutReflection, changedAt := Some(now))
            else db.observations[o])
      && Consume(after, ids, later) == after
  {
    var after := Consume(db, ids, now);
    forall i | i in ids ensures !IsActive(after.observations, i) {
    }
    assert (set i | i in ids && IsActive(after.observations, i)) == {};
    assert Consume(after, ids, later).observations == after.observations;
  }

  lemma RateAdvances(db: Database, session: Text, item: Item, verdict: Class, now: Time)
    ensures Advances(db, RateOne(db, session, item, verdict, now))
  {
  }

  lemma {:induction false} CreateAllAdvances(db: Database, actions: seq<NewAction>, project: Text, now: Time)
    ensures var r := CreateAll(db, actions, project, now); r.Some? ==> Advances(db, r.value)
  {
    var n := |actions|;
    if n > 0 {
      CreateAllAdvances(db, actions[..n - 1], project, now);
      var before := CreateAll(db, actions[..n - 1], project, now);
      if before.Some? {
        CreateAdvances(before.value, actions[n - 1], project, now);
        var after := CreateOne(before.value, actions[n - 1], project, now);
        if after.Some? { AdvancesTransitive(db, before.value, after.value); }
      }
    }
  }

  lemma {:induction false} AugmentAllAdvances(db: Database, actions: seq<AugmentAction>, now: Time)
    ensures Advances(db, AugmentAll(db, actions, now))
  {
    var n := |actions|;
    if n > 0 {
      AugmentAllAdvances(db, actions[..n - 1], now);
      var before := AugmentAll(db, actions[..n - 1], now);
      AugmentAdvances(before, actions[n - 1], now);
      AdvancesTransitive(db, before, AugmentOne(before, actions[n - 1], now));
    }
  }

  lemma {:induction false} MergeAllAdvances(db: Database, actions: seq<MergeAction>, now: Time)
    ensures Advances(db, MergeAll(db, actions, now))
  {
    var n := |actions|;
    if n > 0 {
      MergeAllAdvances(db, actions[..n - 1], now);
      var before := MergeAll(db, actions[..n - 1], now);
      MergeAdvances(before, actions[n - 1], now);
      AdvancesTransitive(db, before, MergeOne(before, actions[n - 1], now));
    }
  }

  lemma {:induction false} RateAllAdvances(db: Database, session: Text, requests: seq<Request>, now: Time)
    ensures Advances(db, RateAll(db, session, requests, now))
  {
    var n := |requests|;
    if n > 0 {
      RateAllAdvances(db, session, requests[..n - 1], now);
      var before := RateAll(db, session, requests[..n - 1], now);
      RateAdvances(before, session, requests[n - 1].item, requests[n - 1].verdict, now);
      AdvancesTransitive(db, before, RateAll(db, session, requests, now));
    }
  }

  lemma RestAdvances(db: Database, batch: set<Id>, response: Response, now: Time)
    ensures Advances(db, ApplyRest(db, batch, response, now))
  {
    AugmentAllAdvances(db, response.augment, now);
    var augmented := AugmentAll(db, response.augment, now);
    MergeAllAdvances(augmented, response.merge, now);
    var merged := MergeAll(augmented, response.merge, now);
    AdvancesTransitive(db, augmented, merged);
    ConsumeAdvances(merged, Elements(response.ignore), now);
    var ignored := Consume(merged, Elements(response.ignore), now);
    AdvancesTransitive(db, merged, ignored);
    ConsumeAdvances(ignored, batch, now);
    AdvancesTransitive(db, ignored, Consume(ignored, batch, now));
  }

  /** A decision that goes through marks its episode and otherwise only advances. */
  lemma DecisionAdvances(db: Database, episode: Id, response: Response, project: Text, now: Time)
    ensures var r := ApplyDecision(db, episode, response, project, now);
      r.Some? ==>
        && Awaiting(db, episode, project)
        && Advances(db, r.value.(episodes := db.episodes))
        && r.value.episodes == db.episodes[episode := db.episodes[episode].(synthesizedAt := Some(now))]
  {
    if Awaiting(db, episode, project) {
      CreateAllAdvances(db, response.create, project, now);
      var created := CreateAll(db, response.create, project, now);
      if created.Some? {
        RestAdvances(created.value, ActiveIn(db, episode), response, now);
        AdvancesTransitive(db, created.value, ApplyRest(created.value, ActiveIn(db, episode), response, now));
      }
    }
  }
}
