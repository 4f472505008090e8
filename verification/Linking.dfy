/** What the actions of a decision do to single observations and reflections. */
module Linking {
  import opened Tables
  import opened Synthesis
  import opened Evidence
  import opened Progress
  import opened Queue
  import opened Rating

  // ---- augmenting ----

  /** The action has a live target and lists the observation. */
  predicate Aims(db: Database, action: AugmentAction, o: Id) {
    Live(db.reflections, action.reflection) && o in action.addSources
  }

  predicate Aimed(db: Database, actions: seq<AugmentAction>, o: Id) {
    exists k :: 0 <= k < |actions| && Aims(db, actions[k], o)
  }

  /** The observation is active, and action `k` is the first with a live target that
      lists it. */
  predicate Claims(db: Database, actions: seq<AugmentAction>, k: nat, o: Id) {
    && k < |actions| && IsActive(db.observations, o) && Aims(db, actions[k], o)
    && forall j :: 0 <= j < k ==> !Aims(db, actions[j], o)
  }

  predicate Gains(db: Database, actions: seq<AugmentAction>, l: Link) {
    exists k :: 0 <= k < |actions| && Claims(db, actions, k, l.observation) && actions[k].reflection == l.reflection
  }

  lemma AimedStep(db: Database, actions: seq<AugmentAction>, l: Link)
    requires actions != []
    ensures var front, n := actions[..|actions| - 1], |actions| - 1;
      && (Aimed(db, actions, l.observation) <==> Aimed(db, front, l.observation) || Aims(db, actions[n], l.observation))
      && (Gains(db, actions, l) <==>
            || Gains(db, front, l)
            || (actions[n].reflection == l.reflection && IsActive(db.observations, l.observation)
                && Aims(db, actions[n], l.observation) && !Aimed(db, front, l.observation)))
  {
    var front, n := actions[..|actions| - 1], |actions| - 1;
    forall k | 0 <= k < n ensures Claims(db, actions, k, l.observation) <==> Claims(db, front, k, l.observation) {
    }
    if Gains(db, front, l) {
      var k :| 0 <= k < n && Claims(db, front, k, l.observation) && front[k].reflection == l.reflection;
      assert Claims(db, actions, k, l.observation);
    }
    if Aims(db, actions[n], l.observation) && !Aimed(db, front, l.observation) && IsActive(db.observations, l.observation) {
      assert forall j :: 0 <= j < n ==> front[j] == actions[j];
      assert Claims(db, actions, n, l.observation);
    }
  }

  lemma OneAugment(db: Database, action: AugmentAction, now: Time, l: Link)
    ensures var after := AugmentOne(db, action, now);
      && (Live(after.reflections, l.reflection) <==> Live(db.reflections, l.reflection))
      && (l in after.sources <==>
            || l in db.sources
            || (action.reflection == l.reflection && IsActive(db.observations, l.observation) && Aims(db, action, l.observation)))
      && after.observations.Keys == db.observations.Keys
      && (l.observation in db.observations ==>
            after.observations[l.observation] ==
              if IsActive(db.observations, l.observation) && Aims(db, action, l.observation)
              then db.observations[l.observation].(status := ConsumedIntoReflection, changedAt := Some(now))
              else db.observations[l.observation])
  {
    ActiveOnlyElements(db.observations, action.addSources);
  }

  /** Exactly the claimed links are new, and exactly the active observations that some
      action with a live target lists are consumed. */
  lemma {:induction false} AugmentLinks(db: Database, actions: seq<AugmentAction>, now: Time, l: Link)
    ensures var after := AugmentAll(db, actions, now);
      && (Live(after.reflections, l.reflection) <==> Live(db.reflections, l.reflection))
      && (l in after.sources <==> l in db.sources || Gains(db, actions, l))
      && after.observations.Keys == db.observations.Keys
      && (l.observation in db.observations ==>
            after.observations[l.observation] ==
              if IsActive(db.observations, l.observation) && Aimed(db, actions, l.observation)
              then db.observations[l.observation].(status := ConsumedIntoReflection, changedAt := Some(now))
              else db.observations[l.observation])
  {
    if actions != [] {
      var front, last := actions[..|actions| - 1], actions[|actions| - 1];
      AugmentLinks(db, front, now, l);
      AugmentLinks(db, front, now, Link(last.reflection, l.observation));
      OneAugment(AugmentAll(db, front, now), last, now, l);
      AimedStep(db, actions, l);
    }
  }

  /** The confidence after the deltas that aim at `r`, clamped after each. */
  function Drifted(confidence: real, actions: seq<AugmentAction>, r: Id): real {
    if actions == [] then confidence
    else
      var earlier, last := Drifted(confidence, actions[..|actions| - 1], r), actions[|actions| - 1];
      if last.reflection == r then Clamp(earlier + last.confidenceDelta) else earlier
  }

  predicate Augments(actions: seq<AugmentAction>, r: Id) {
    exists k :: 0 <= k < |actions| && actions[k].reflection == r
  }

  /** A live target ends with its confidence drifted and its evidence recounted; no
      other row is written. */
  lemma {:induction false} AugmentRows(db: Database, actions: seq<AugmentAction>, now: Time, r: Id)
    ensures var after := AugmentAll(db, actions, now);
      && after.reflections.Keys == db.reflections.Keys
      && (r in db.reflections ==>
            after.reflections[r] ==
              if Live(db.reflections, r) && Augments(actions, r)
              then db.reflections[r].(confidence := Drifted(db.reflections[r].confidence, actions, r),
                                      evidenceCount := |LinksOf(after.sources, r)|, updatedAt := now)
              else db.reflections[r])
  {
    if actions != [] {
      var front, last := actions[..|actions| - 1], actions[|actions| - 1];
      var before := AugmentAll(db, front, now);
      AugmentRows(db, front, now, r);
      AugmentLinks(db, front, now, Link(last.reflection, 0));
      AugmentLinks(db, front, now, Link(r, 0));
      if last.reflection != r {
        assert LinksOf(AugmentOne(before, last, now).sources, r) == LinksOf(before.sources, r);
      }
      AugmentsStep(actions, r);
      if !Augments(front, r) && r in db.reflections {
        NoDrift(db.reflections[r].confidence, front, r);
      }
    }
  }

  lemma {:induction false} NoDrift(confidence: real, actions: seq<AugmentAction>, r: Id)
    requires !Augments(actions, r)
    ensures Drifted(confidence, actions, r) == confidence
  {
    if actions != [] {
      AugmentsStep(actions, r);
      NoDrift(confidence, actions[..|actions| - 1], r);
    }
  }

  lemma AugmentsStep(actions: seq<AugmentAction>, r: Id)
    requires actions != []
    ensures Augments(actions, r) <==> Augments(actions[..|actions| - 1], r) || actions[|actions| - 1].reflection == r
  {
    var front := actions[..|actions| - 1];
    if Augments(front, r) {
      var k :| 0 <= k < |front| && front[k].reflection == r;
      assert actions[k].reflection == r;
    }
  }

  // ---- creating ----

  /** The observation is active, the last of `actions` to be looked at lists it, and no
      earlier one does. */
  predicate Sourced(db: Database, actions: seq<NewAction>, k: nat, o: Id) {
    k < |actions| && IsActive(db.observations, o) && o in actions[k].sources && !Listed(actions[..k], o)
  }

  predicate Founds(db: Database, actions: seq<NewAction>, l: Link) {
    exists k :: 0 <= k < |actions| && actions[k].uuid == l.reflection && Sourced(db, actions, k, l.observation)
  }

  lemma FoundsStep(db: Database, actions: seq<NewAction>, l: Link)
    requires actions != []
    ensures var front, n := actions[..|actions| - 1], |actions| - 1;
      Founds(db, actions, l) <==>
        Founds(db, front, l) || (actions[n].uuid == l.reflection && Sourced(db, actions, n, l.observation))
  {
    var front, n := actions[..|actions| - 1], |actions| - 1;
    forall k | 0 <= k < n ensures Sourced(db, actions, k, l.observation) <==> Sourced(db, front, k, l.observation) {
      assert front[..k] == actions[..k];
    }
    if Founds(db, front, l) {
      var k :| 0 <= k < n && front[k].uuid == l.reflection && Sourced(db, front, k, l.observation);
      assert actions[k].uuid == l.reflection && Sourced(db, actions, k, l.observation);
    }
  }

  lemma {:induction false} InsertedLinks(sources: set<Link>, r: Id, ids: seq<Id>, l: Link)
    requires InsertLinks(sources, r, ids).Some?
    ensures l in InsertLinks(sources, r, ids).value <==> l in sources || (l.reflection == r && l.observation in ids)
  {
    if |ids| > 0 {
      InsertedLinks(sources, r, ids[..|ids| - 1], l);
      assert ids == ids[..|ids| - 1] + [ids[|ids| - 1]];
    }
  }

  /** The row that creating leaves for an action that found sources. */
  predicate IsNewRow(row: Reflection, action: NewAction, project: Text, now: Time) {
    && row.project == project && row.status == PendingReview && row.supersededBy.None?
    && row.counters == ZERO_COUNTERS && row.updatedAt == now && row.confidence == Clamp(action.confidence)
  }

  lemma OneCreate(db: Database, action: NewAction, project: Text, now: Time, l: Link)
    ensures var r := CreateOne(db, action, project, now);
      r.Some? ==>
        && (l in r.value.sources <==>
              || l in db.sources
              || (l.reflection == action.uuid && IsActive(db.observations, l.observation) && l.observation in action.sources))
        && (forall q :: q in db.reflections ==> q in r.value.reflections && r.value.reflections[q] == db.reflections[q])
        && ((exists o :: IsActive(db.observations, o) && o in action.sources) <==>
              action.uuid !in db.reflections && action.uuid in r.value.reflections)
  {
    ActiveOnlyElements(db.observations, action.sources);
    var valid := ActiveOnly(db.observations, action.sources);
    if CreateOne(db, action, project, now).Some? && |valid| > 0 {
      InsertedLinks(db.sources, action.uuid, valid, l);
      assert valid[0] in valid;
    } else if |valid| == 0 {
      forall o | IsActive(db.observations, o) ensures o !in action.sources {
        assert o !in valid;
      }
    }
  }

  /** Exactly the founded links are new, and no row that was there changes. */
  lemma {:induction false} CreateLinks(db: Database, actions: seq<NewAction>, project: Text, now: Time, l: Link)
    ensures var r := CreateAll(db, actions, project, now);
      r.Some? ==>
        && (l in r.value.sources <==> l in db.sources || Founds(db, actions, l))
        && (forall q :: q in db.reflections ==> q in r.value.reflections && r.value.reflections[q] == db.reflections[q])
  {
    if actions != [] && CreateAll(db, actions, project, now).Some? {
      var front, last := actions[..|actions| - 1], actions[|actions| - 1];
      CreateLinks(db, front, project, now, l);
      ActiveAfterCreates(db, front, project, now, l.observation);
      OneCreate(CreateAll(db, front, project, now).value, last, project, now, l);
      FoundsStep(db, actions, l);
    }
  }

  /** Action `k` finds a source of its own. */
  predicate Effective(db: Database, actions: seq<NewAction>, k: nat) {
    exists o :: o in db.observations && Sourced(db, actions, k, o)
  }

  predicate MadeBy(db: Database, actions: seq<NewAction>, q: Id, k: nat) {
    k < |actions| && actions[k].uuid == q && Effective(db, actions, k)
  }

  lemma MadeStep(db: Database, actions: seq<NewAction>, q: Id, k: nat)
    requires actions != [] && k < |actions| - 1
    ensures MadeBy(db, actions, q, k) <==> MadeBy(db, actions[..|actions| - 1], q, k)
  {
    var front := actions[..|actions| - 1];
    assert front[..k] == actions[..k];
    forall o ensures Sourced(db, actions, k, o) <==> Sourced(db, front, k, o) {
    }
  }

  lemma CreatedRow(db: Database, action: NewAction, project: Text, now: Time)
    ensures var r := CreateOne(db, action, project, now);
      r.Some? && action.uuid !in db.reflections && action.uuid in r.value.reflections ==>
        IsNewRow(r.value.reflections[action.uuid], action, project, now)
    ensures var r := CreateOne(db, action, project, now);
      r.Some? ==> forall q :: q in r.value.reflections && q != action.uuid ==> q in db.reflections
  {
  }

  /** Exactly the actions that find a source of their own make a row, as new rows are. */
  lemma {:induction false} CreateRows(db: Database, actions: seq<NewAction>, project: Text, now: Time, q: Id)
    ensures var r := CreateAll(db, actions, project, now);
      r.Some? && q !in db.reflections ==>
        && (q in r.value.reflections <==> exists k :: 0 <= k < |actions| && MadeBy(db, actions, q, k))
        && (forall k :: 0 <= k < |actions| && MadeBy(db, actions, q, k) ==>
              IsNewRow(r.value.reflections[q], actions[k], project, now))
  {
    if actions != [] && CreateAll(db, actions, project, now).Some? && q !in db.reflections {
      var front, n := actions[..|actions| - 1], |actions| - 1;
      var before := CreateAll(db, front, project, now).value;
      CreateRows(db, front, project, now, q);
      forall k | 0 <= k < n ensures MadeBy(db, actions, q, k) <==> MadeBy(db, front, q, k) {
        MadeStep(db, actions, q, k);
      }
      SomeMade(db, actions, q);
      LastMakes(db, actions, project, now);
      OneCreate(before, actions[n], project, now, Link(q, 0));
      CreatedRow(before, actions[n], project, now);
    }
  }

  lemma SomeMade(db: Database, actions: seq<NewAction>, q: Id)
    requires actions != []
    ensures var front, n := actions[..|actions| - 1], |actions| - 1;
      (exists k :: 0 <= k < |actions| && MadeBy(db, actions, q, k)) <==>
        (exists k :: 0 <= k < n && MadeBy(db, front, q, k)) || MadeBy(db, actions, q, n)
  {
    var front, n := actions[..|actions| - 1], |actions| - 1;
    forall k | 0 <= k < n ensures MadeBy(db, actions, q, k) <==> MadeBy(db, front, q, k) {
      MadeStep(db, actions, q, k);
    }
    if k :| 0 <= k < n && MadeBy(db, front, q, k) {
      assert MadeBy(db, actions, q, k);
    }
  }

  lemma LastMakes(db: Database, actions: seq<NewAction>, project: Text, now: Time)
    requires actions != [] && CreateAll(db, actions[..|actions| - 1], project, now).Some?
    ensures var before, n := CreateAll(db, actions[..|actions| - 1], project, now).value, |actions| - 1;
      (exists o :: IsActive(before.observations, o) && o in actions[n].sources) <==> Effective(db, actions, n)
  {
    var before, n := CreateAll(db, actions[..|actions| - 1], project, now).value, |actions| - 1;
    forall o ensures IsActive(before.observations, o) && o in actions[n].sources <==> Sourced(db, actions, n, o) {
      ActiveAfterCreates(db, actions[..n], project, now, o);
    }
    if o :| IsActive(before.observations, o) && o in actions[n].sources {
      assert Sourced(db, actions, n, o) && o in db.observations;
    }
    if Effective(db, actions, n) {
      var o :| o in db.observations && Sourced(db, actions, n, o);
      assert IsActive(before.observations, o) && o in actions[n].sources;
    }
  }

  lemma {:induction false} CreateConsumes(db: Database, actions: seq<NewAction>, project: Text, now: Time, o: Id)
    ensures var r := CreateAll(db, actions, project, now);
      r.Some? && o in db.observations ==>
        && o in r.value.observations
        && r.value.observations[o] ==
             if IsActive(db.observations, o) && Listed(actions, o)
             then db.observations[o].(status := ConsumedIntoReflection, changedAt := Some(now))
             else db.observations[o]
  {
    if actions != [] && CreateAll(db, actions, project, now).Some? && o in db.observations {
      var front, last := actions[..|actions| - 1], actions[|actions| - 1];
      CreateConsumes(db, front, project, now, o);
      ActiveAfterCreates(db, front, project, now, o);
      var before := CreateAll(db, front, project, now).value;
      ActiveOnlyElements(before.observations, last.sources);
      ListedStep(actions, o);
    }
  }

  lemma ListedStep(actions: seq<NewAction>, o: Id)
    requires actions != []
    ensures Listed(actions, o) <==> Listed(actions[..|actions| - 1], o) || o in actions[|actions| - 1].sources
  {
    var front := actions[..|actions| - 1];
    if Listed(front, o) {
      var k :| 0 <= k < |front| && o in front[k].sources;
      assert o in actions[k].sources;
    }
  }

  // ---- merging ----

  /** The sum in each column, moved at the later of the two times. */
  predicate SummedCounters(a: Counters, b: Counters, sum: Counters) {
    forall g ::
      && CounterOf(sum, g) == CounterOf(a, g) + CounterOf(b, g)
      && LastOf(sum, g) in {LastOf(a, g), LastOf(b, g)}
      && (LastOf(sum, g).None? <==> LastOf(a, g).None? && LastOf(b, g).None?)
      && (LastOf(a, g).Some? ==> LastOf(sum, g).value >= LastOf(a, g).value)
      && (LastOf(b, g).Some? ==> LastOf(sum, g).value >= LastOf(b, g).value)
  }

  /** A merge takes effect exactly between two different rows that are pending review or
      confirmed; nothing else of any row changes. */
  lemma MergedIff(db: Database, action: MergeAction, now: Time, r: Id)
    ensures var after, s, t := MergeOne(db, action, now), action.source, action.target;
      if s != t && Live(db.reflections, s) && Live(db.reflections, t) then
        && after.reflections.Keys == db.reflections.Keys
        && after.reflections[s] == db.reflections[s].(status := Superseded, supersededBy := Some(t), updatedAt := now)
        && SummedCounters(db.reflections[t].counters, db.reflections[s].counters, after.reflections[t].counters)
        && after.reflections[t] ==
             db.reflections[t].(counters := after.reflections[t].counters, evidenceCount := |LinksOf(after.sources, t)|, updatedAt := now)
        && (r in db.reflections && r != s && r != t ==> after.reflections[r] == db.reflections[r])
        && (forall o :: Link(r, o) in after.sources <==>
              (r != s && Link(r, o) in db.sources) || (r == t && Link(s, o) in db.sources))
      else after == db
  {
    if MergeApplies(db.reflections, action) {
      forall o ensures Link(r, o) in MoveLinks(db.sources, action.source, action.target) <==>
          (r != action.source && Link(r, o) in db.sources) || (r == action.target && Link(action.source, o) in db.sources)
      {
        MoveMembers(db.sources, action.source, action.target, Link(r, o));
      }
      SumsUp(db.reflections[action.target].counters, db.reflections[action.source].counters);
    }
  }

  lemma SumsUp(a: Counters, b: Counters)
    ensures SummedCounters(a, b, SumCounters(a, b))
  {
  }

  lemma {:induction false} MergesKeepObservations(db: Database, actions: seq<MergeAction>, now: Time, o: Id)
    ensures MergeAll(db, actions, now).observations == db.observations
    ensures Linked(MergeAll(db, actions, now).sources, o) <==> Linked(db.sources, o)
  {
    if actions != [] {
      var front, last := actions[..|actions| - 1], actions[|actions| - 1];
      MergesKeepObservations(db, front, now, o);
      var before := MergeAll(db, front, now);
      if MergeApplies(before.reflections, last) {
        MoveKeepsLinked(before.sources, last.source, last.target, o);
      }
    }
  }

  lemma MoveKeepsLinked(sources: set<Link>, s: Id, t: Id, o: Id)
    requires s != t
    ensures Linked(MoveLinks(sources, s, t), o) <==> Linked(sources, o)
  {
    if l :| l in sources && l.observation == o {
      var moved := if l.reflection == s then Link(t, o) else l;
      MoveMembers(sources, s, t, moved);
      assert l == Link(l.reflection, o);
      assert moved in MoveLinks(sources, s, t);
    }
    if l :| l in MoveLinks(sources, s, t) && l.observation == o {
      MoveMembers(sources, s, t, l);
      assert l in sources || Link(s, o) in sources;
    }
  }

  // ---- one decision ----

  /** What becomes of an observation that was active: evidence when a new reflection or a
      live augment lists it, consumed without reflection when only the ignore list names
      it or it belongs to the episode, and otherwise it stays active. */
  function Outcome(db: Database, created: Database, episode: Id, response: Response, o: Id): ObservationStatus
    requires o in db.observations
  {
    if Listed(response.create, o) || Aimed(created, response.augment, o) then ConsumedIntoReflection
    else if o in response.ignore || db.observations[o].episode == episode then ConsumedWithoutReflection
    else Active
  }

  lemma RestSettles(db: Database, batch: set<Id>, response: Response, now: Time, o: Id)
    requires o in db.observations
    ensures var after := ApplyRest(db, batch, response, now);
      && o in after.observations
      && (!IsActive(db.observations, o) ==> after.observations[o] == db.observations[o])
      && (IsActive(db.observations, o) ==>
            after.observations[o].status ==
              if Aimed(db, response.augment, o) then ConsumedIntoReflection
              else if o in response.ignore || o in batch then ConsumedWithoutReflection
              else Active)
  {
    var augmented := AugmentAll(db, response.augment, now);
    AugmentLinks(db, response.augment, now, Link(0, o));
    MergesKeepObservations(augmented, response.merge, now, o);
  }

  /** The complete fate of every observation under an accepted decision. */
  lemma DecisionSettles(db: Database, episode: Id, response: Response, project: Text, now: Time, o: Id)
    requires ApplyDecision(db, episode, response, project, now).Some? && o in db.observations
    ensures var after, created := ApplyDecision(db, episode, response, project, now).value, CreateAll(db, response.create, project, now);
      && created.Some? && o in after.observations
      && if IsActive(db.observations, o)
         then after.observations[o].status == Outcome(db, created.value, episode, response, o)
         else after.observations[o] == db.observations[o]
  {
    var created := CreateAll(db, response.create, project, now).value;
    CreateConsumes(db, response.create, project, now, o);
    RestSettles(created, ActiveIn(db, episode), response, now, o);
  }

  /** No observation that an augment of a live reflection lists is swept away: it ends as
      evidence, unless it had left the active pool before. */
  lemma AugmentedIsEvidence(db: Database, episode: Id, response: Response, project: Text, now: Time, k: nat, o: Id)
    requires ApplyDecision(db, episode, response, project, now).Some? && IsActive(db.observations, o)
    requires k < |response.augment| && o in response.augment[k].addSources && Live(db.reflections, response.augment[k].reflection)
    ensures var after := ApplyDecision(db, episode, response, project, now).value;
      o in after.observations && after.observations[o].status == ConsumedIntoReflection && Linked(after.sources, o)
  {
    var created := CreateAll(db, response.create, project, now).value;
    DecisionSettles(db, episode, response, project, now, o);
    CreateLinks(db, response.create, project, now, Link(0, o));
    assert Aims(created, response.augment[k], o);
    EvidenceIsLinked(db, response, project, now, o);
    var augmented := AugmentAll(created, response.augment, now);
    MergesKeepObservations(augmented, response.merge, now, o);
  }

  lemma EvidenceIsLinked(db: Database, response: Response, project: Text, now: Time, o: Id)
    requires CreateAll(db, response.create, project, now).Some? && IsActive(db.observations, o)
    requires Aimed(CreateAll(db, response.create, project, now).value, response.augment, o)
    ensures Linked(AugmentAll(CreateAll(db, response.create, project, now).value, response.augment, now).sources, o)
  {
    var created := CreateAll(db, response.create, project, now).value;
    ActiveAfterCreates(db, response.create, project, now, o);
    if Listed(response.create, o) {
      var k := FirstListing(response.create, o);
      var l := Link(response.create[k].uuid, o);
      assert Founds(db, response.create, l);
      CreateLinks(db, response.create, project, now, l);
      AugmentLinks(created, response.augment, now, l);
      assert l in AugmentAll(created, response.augment, now).sources;
    } else {
      var k := FirstAim(created, response.augment, o);
      var l := Link(response.augment[k].reflection, o);
      assert Gains(created, response.augment, l);
      AugmentLinks(created, response.augment, now, l);
      assert l in AugmentAll(created, response.augment, now).sources;
    }
  }

  lemma {:induction false} FirstListing(actions: seq<NewAction>, o: Id) returns (k: nat)
    requires Listed(actions, o)
    ensures k < |actions| && o in actions[k].sources && !Listed(actions[..k], o)
  {
    ListedStep(actions, o);
    if Listed(actions[..|actions| - 1], o) {
      k := FirstListing(actions[..|actions| - 1], o);
      assert actions[..|actions| - 1][..k] == actions[..k];
    } else {
      k := |actions| - 1;
    }
  }

  lemma {:induction false} FirstAim(db: Database, actions: seq<AugmentAction>, o: Id) returns (k: nat)
    requires Aimed(db, actions, o) && IsActive(db.observations, o)
    ensures Claims(db, actions, k, o)
  {
    var n := |actions| - 1;
    var front := actions[..n];
    if j :| 0 <= j < n && Aims(db, actions[j], o) {
      assert Aims(db, front[j], o);
      k := FirstAim(db, front, o);
    } else {
      k := n;
    }
  }
}
