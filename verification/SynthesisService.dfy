/** The synthesis service: loops of statements over the connection, each proved to
    leave the tables as the corresponding specification function says. */
module SynthesisService {
  import opened Tables
  import opened Synthesis
  import opened Queue
  import opened Connection
  import opened Forest

  lemma {:induction false} ActiveOnlyAppend(observations: map<Id, Observation>, ids: seq<Id>, last: Id)
    ensures ActiveOnly(observations, ids + [last])
            == ActiveOnly(observations, ids) + if IsActive(observations, last) then [last] else []
  {
    if |ids| > 0 {
      assert (ids + [last])[1..] == ids[1..] + [last];
      ActiveOnlyAppend(observations, ids[1..], last);
    }
  }

  /** Once an action has raised, the whole list has. */
  lemma {:induction false} RaisedStaysRaised(db: Database, actions: seq<NewAction>, i: nat, project: Text, now: Time)
    requires i <= |actions| && CreateAll(db, actions[..i], project, now).None?
    ensures CreateAll(db, actions, project, now).None?
    decreases |actions|
  {
    if i < |actions| {
      assert actions[..|actions| - 1][..i] == actions[..i];
      RaisedStaysRaised(db, actions[..|actions| - 1], i, project, now);
    } else {
      assert actions[..i] == actions;
    }
  }

  lemma {:induction false} InsertStaysRaised(sources: set<Link>, r: Id, ids: seq<Id>, i: nat)
    requires i <= |ids| && InsertLinks(sources, r, ids[..i]).None?
    ensures InsertLinks(sources, r, ids).None?
    decreases |ids|
  {
    if i < |ids| {
      assert ids[..|ids| - 1][..i] == ids[..i];
      InsertStaysRaised(sources, r, ids[..|ids| - 1], i);
    } else {
      assert ids[..i] == ids;
    }
  }

  lemma MergeSupersedesOne(db: Database, action: MergeAction, now: Time)
    requires Matched(db.reflections) && MergeApplies(db.reflections, action)
    ensures var after := MergeOne(db, action, now).reflections;
      Matched(after) && |SupersededRows(after)| == |SupersededRows(db.reflections)| + 1
  {
    assert SupersededRows(MergeOne(db, action, now).reflections) == SupersededRows(db.reflections) + {action.source};
  }

  /** How many actions name a reflection that can be augmented. */
  function LiveTargets(reflections: map<Id, Reflection>, actions: seq<AugmentAction>): nat {
    if |actions| == 0 then 0
    else
      LiveTargets(reflections, actions[..|actions| - 1]) +
      if Live(reflections, actions[|actions| - 1].reflection) then 1 else 0
  }

  class ReflectionSynthesisService {
    const conn: Connection

    constructor (conn: Connection)
      ensures this.conn == conn
    {
      this.conn := conn;
    }

    method FilterExistingObservations(ids: seq<Id>) returns (kept: seq<Id>)
      ensures kept == ActiveOnly(conn.observations, ids)
    {
      var existing := set i | i in ids && IsActive(conn.observations, i);
      kept := [];
      for i := 0 to |ids|
        invariant kept == ActiveOnly(conn.observations, ids[..i])
      {
        assert ids[..i + 1] == ids[..i] + [ids[i]];
        ActiveOnlyAppend(conn.observations, ids[..i], ids[i]);
        if ids[i] in existing { kept := kept + [ids[i]]; }
      }
      assert ids[..|ids|] == ids;
    }

    /** The link rows of one new reflection, inserted one at a time. */
    method InsertSources(reflection: Id, ids: seq<Id>) returns (ok: bool)
      modifies conn`sources
      ensures ok <==> InsertLinks(old(conn.sources), reflection, ids).Some?
      ensures ok ==> Some(conn.sources) == InsertLinks(old(conn.sources), reflection, ids)
    {
      for i := 0 to |ids|
        invariant InsertLinks(old(conn.sources), reflection, ids[..i]) == Some(conn.sources)
      {
        assert ids[..i + 1][..i] == ids[..i];
        var row := Link(reflection, ids[i]);
        if row in conn.sources {
          InsertStaysRaised(old(conn.sources), reflection, ids, i + 1);
          return false;
        }
        conn.sources := conn.sources + {row};
      }
      assert ids[..|ids|] == ids;
      ok := true;
    }

    /** Either every action went through and `created` counts the rows added, or
        some insert broke a key and the tables hold whatever was done before. */
    method ApplyNew(actions: seq<NewAction>, project: Text, now: Time) returns (ok: bool, created: nat)
      modifies conn
      ensures ok <==> CreateAll(old(conn.Tables()), actions, project, now).Some?
      ensures ok ==> Some(conn.Tables()) == CreateAll(old(conn.Tables()), actions, project, now)
      ensures ok ==> |conn.reflections| == |old(conn.reflections)| + created
    {
      created := 0;
      for i := 0 to |actions|
        invariant CreateAll(old(conn.Tables()), actions[..i], project, now) == Some(conn.Tables())
        invariant |conn.reflections| == |old(conn.reflections)| + created
      {
        ghost var before := conn.Tables();
        var action := actions[i];
        assert actions[..i + 1][..i] == actions[..i] && actions[..i + 1][i] == action;
        assert CreateAll(old(conn.Tables()), actions[..i + 1], project, now) == CreateOne(before, action, project, now);
        var valid := FilterExistingObservations(action.sources);
        if |valid| == 0 { continue; }
        if action.uuid in conn.reflections {
          RaisedStaysRaised(old(conn.Tables()), actions, i + 1, project, now);
          return false, created;
        }
        conn.reflections := conn.reflections[action.uuid := NewReflection(project, |valid|, action.confidence, now)];
        var linked := InsertSources(action.uuid, valid);
        if !linked {
          RaisedStaysRaised(old(conn.Tables()), actions, i + 1, project, now);
          return false, created;
        }
        conn.observations := SetStatus(conn.observations, Elements(valid), ConsumedIntoReflection, now);
        created := created + 1;
      }
      assert actions[..|actions|] == actions;
      ok := true;
    }

    method ApplyAugment(actions: seq<AugmentAction>, now: Time) returns (augmented: nat)
      modifies conn
      ensures conn.Tables() == AugmentAll(old(conn.Tables()), actions, now)
      ensures augmented == LiveTargets(old(conn.reflections), actions)
    {
      augmented := 0;
      for i := 0 to |actions|
        invariant conn.Tables() == AugmentAll(old(conn.Tables()), actions[..i], now)
        invariant augmented == LiveTargets(old(conn.reflections), actions[..i])
      {
        ghost var before := conn.Tables();
        var action := actions[i];
        assert actions[..i + 1][..i] == actions[..i];
        AugmentKeepsLive(old(conn.Tables()), actions[..i], now, action.reflection);
        if action.reflection !in conn.reflections { continue; }
        var row := conn.reflections[action.reflection];
        if row.status == Retired || row.status == Superseded { continue; }
        var valid := FilterExistingObservations(action.addSources);
        for j := 0 to |valid|
          invariant conn.sources == before.sources + Pairs(action.reflection, Elements(valid[..j]))
          invariant conn.Tables() == before.(sources := conn.sources)
        {
          assert valid[..j + 1] == valid[..j] + [valid[j]];
          conn.sources := conn.sources + {Link(action.reflection, valid[j])};
        }
        assert valid[..|valid|] == valid;
        conn.observations := SetStatus(conn.observations, Elements(valid), ConsumedIntoReflection, now);
        var count := |LinksOf(conn.sources, action.reflection)|;
        conn.reflections := conn.reflections[action.reflection := row.(
          confidence := Clamp(row.confidence + action.confidenceDelta), evidenceCount := count, updatedAt := now)];
        augmented := augmented + 1;
        assert conn.Tables() == AugmentOne(before, action, now);
      }
      assert actions[..|actions|] == actions;
    }

    /** `merged` counts the rows that became superseded. */
    method ApplyMerge(actions: seq<MergeAction>, now: Time) returns (merged: nat)
      requires Matched(conn.reflections)
      modifies conn
      ensures conn.Tables() == MergeAll(old(conn.Tables()), actions, now)
      ensures |SupersededRows(conn.reflections)| == |SupersededRows(old(conn.reflections))| + merged
    {
      merged := 0;
      for i := 0 to |actions|
        invariant conn.Tables() == MergeAll(old(conn.Tables()), actions[..i], now)
        invariant Matched(conn.reflections)
        invariant |SupersededRows(conn.reflections)| == |SupersededRows(old(conn.reflections))| + merged
      {
        ghost var before := conn.Tables();
        var action := actions[i];
        assert actions[..i + 1][..i] == actions[..i];
        if action.source == action.target { continue; }
        if action.source !in conn.reflections { continue; }
        var source := conn.reflections[action.source];
        if source.status == Retired || source.status == Superseded { continue; }
        if action.target !in conn.reflections { continue; }
        var target := conn.reflections[action.target];
        if target.status == Retired || target.status == Superseded { continue; }
        var moved := set l | l in conn.sources && l.reflection == action.source :: Link(action.target, l.observation);
        conn.sources := conn.sources + moved;
        conn.sources := conn.sources - LinksOf(conn.sources, action.source);
        var count := |LinksOf(conn.sources, action.target)|;
        var counters := SumCounters(target.counters, source.counters);
        conn.reflections := conn.reflections[action.source :=
          source.(status := Superseded, supersededBy := Some(action.target), updatedAt := now)];
        conn.reflections := conn.reflections[action.target :=
          target.(evidenceCount := count, counters := counters, updatedAt := now)];
        merged := merged + 1;
        assert conn.Tables() == MergeOne(before, action, now);
        MergeSupersedesOne(before, action, now);
      }
      assert actions[..|actions|] == actions;
    }

    /** `ignored` is the number of rows the update changed. */
    method ApplyIgnore(ids: seq<Id>, now: Time) returns (ignored: nat)
      modifies conn
      ensures conn.Tables() == Consume(old(conn.Tables()), Elements(ids), now)
      ensures forall o :: o in ids ==> !IsActive(conn.observations, o)
      ensures forall o :: o in old(conn.observations) && (o !in ids || !IsActive(old(conn.observations), o)) ==>
        o in conn.observations && conn.observations[o] == old(conn.observations)[o]
      ensures ignored == |set o | o in Elements(ids) && IsActive(old(conn.observations), o)|
    {
      ignored := AutoIgnoreUnused(Elements(ids), now);
    }

    method AutoIgnoreUnused(batch: set<Id>, now: Time) returns (ignored: nat)
      modifies conn
      ensures conn.Tables() == Consume(old(conn.Tables()), batch, now)
      ensures ignored == |set o | o in batch && IsActive(old(conn.observations), o)|
    {
      var valid := set o | o in batch && IsActive(conn.observations, o);
      conn.observations := SetStatus(conn.observations, valid, ConsumedWithoutReflection, now);
      ignored := |valid|;
    }

    /** Applies a decision, or rolls everything back and raises. */
    method ApplyDecision(episode: Id, response: Response, project: Text, now: Time) returns (ok: bool)
      requires Matched(conn.reflections)
      modifies conn
      ensures ok <==> Synthesis.ApplyDecision(old(conn.Tables()), episode, response, project, now).Some?
      ensures conn.Tables() ==
              if ok then Synthesis.ApplyDecision(old(conn.Tables()), episode, response, project, now).value
              else old(conn.Tables())
    {
      if episode !in conn.episodes { return false; }
      if conn.episodes[episode].project != project { return false; }
      if conn.episodes[episode].synthesizedAt.Some? { return false; }
      var savepoint := conn.Tables();
      var batch := ActiveIn(savepoint, episode);
      var created;
      ok, created := ApplyNew(response.create, project, now);
      if !ok {
        conn.RollBack(savepoint);
        return;
      }
      PointersStayMatched(savepoint, response.create, project, now);
      AugmentStaysMatched(conn.Tables(), response.augment, now);
      var augmented := ApplyAugment(response.augment, now);
      var merged := ApplyMerge(response.merge, now);
      var ignored := ApplyIgnore(response.ignore, now);
      var autoIgnored := AutoIgnoreUnused(batch, now);
      if episode in conn.episodes {
        conn.episodes := conn.episodes[episode := conn.episodes[episode].(synthesizedAt := Some(now))];
      }
    }

    /** The oldest closed episode awaiting synthesis, if any is outside its cooldown. */
    method PickOldestPending(project: Text, now: Time) returns (r: Option<Id>)
      ensures r.Some? ==> IsOldestPending(conn.Tables(), project, now, r.value)
      ensures r.None? <==> |Pending(conn.Tables(), project, now)| == 0
    {
      var rows := Pending(conn.Tables(), project, now);
      if rows == {} { return None; }
      NextExistsIffPending(conn.Tables(), project, now);
      var e :| e in rows && IsOldestPending(conn.Tables(), project, now, e);
      r := Some(e);
    }

    method ReadQueueCounts(project: Text, now: Time) returns (done: nat, pending: nat, inCooldown: nat)
      ensures done + pending + inCooldown == |ClosedEpisodes(conn.Tables(), project)|
      ensures done == |Done(conn.Tables(), project)| && pending == |Pending(conn.Tables(), project, now)|
    {
      done := |Done(conn.Tables(), project)|;
      pending := |Pending(conn.Tables(), project, now)|;
      inCooldown := |InCooldown(conn.Tables(), project, now)|;
      CountsPartition(conn.Tables(), project, now);
    }
  }

  lemma {:induction false} PointersStayMatched(db: Database, actions: seq<NewAction>, project: Text, now: Time)
    requires Matched(db.reflections)
    ensures var r := CreateAll(db, actions, project, now); r.Some? ==> Matched(r.value.reflections)
  {
    if |actions| > 0 { PointersStayMatched(db, actions[..|actions| - 1], project, now); }
  }

  lemma {:induction false} AugmentKeepsLive(db: Database, actions: seq<AugmentAction>, now: Time, r: Id)
    ensures Live(AugmentAll(db, actions, now).reflections, r) <==> Live(db.reflections, r)
  {
    if |actions| > 0 { AugmentKeepsLive(db, actions[..|actions| - 1], now, r); }
  }

  lemma {:induction false} AugmentStaysMatched(db: Database, actions: seq<AugmentAction>, now: Time)
    requires Matched(db.reflections)
    ensures Matched(AugmentAll(db, actions, now).reflections)
  {
    if |actions| > 0 { AugmentStaysMatched(db, actions[..|actions| - 1], now); }
  }
}
