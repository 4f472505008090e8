/** Evidence links. In every reachable database no observation backs two
    reflections, no superseded reflection owns a link, what is active or was
    consumed without a reflection backs nothing, and `evidence_count` is the number
    of links. */
module Evidence {
  import opened Tables
  import opened Synthesis
  import opened Retention
  import opened Rating

  predicate MayBeEvidence(observations: map<Id, Observation>, o: Id) {
    && o in observations
    && (observations[o].status == ConsumedIntoReflection || observations[o].status == Archived)
  }

  predicate OwnsLinks(reflections: map<Id, Reflection>, r: Id) {
    r in reflections && reflections[r].status != Superseded
  }

  predicate LinksSound(observations: map<Id, Observation>, reflections: map<Id, Reflection>, sources: set<Link>) {
    forall l :: l in sources ==> OwnsLinks(reflections, l.reflection) && MayBeEvidence(observations, l.observation)
  }

  predicate EvidenceDisjoint(sources: set<Link>) {
    forall l1, l2 :: l1 in sources && l2 in sources && l1.observation == l2.observation ==> l1 == l2
  }

  ghost predicate EvidenceCounted(reflections: map<Id, Reflection>, sources: set<Link>) {
    forall r :: OwnsLinks(reflections, r) ==> reflections[r].evidenceCount == |LinksOf(sources, r)|
  }

  ghost predicate EvidenceInv(db: Database) {
    && LinksSound(db.observations, db.reflections, db.sources)
    && EvidenceDisjoint(db.sources)
    && EvidenceCounted(db.reflections, db.sources)
  }

  // ---- lists and sets ----

  predicate NoRepeats(ids: seq<Id>) {
    forall i, j :: 0 <= i < j < |ids| ==> ids[i] != ids[j]
  }

  lemma {:induction false} ActiveOnlyElements(observations: map<Id, Observation>, ids: seq<Id>)
    ensures forall o :: o in ActiveOnly(observations, ids) <==> o in ids && IsActive(observations, o)
  {
    if |ids| > 0 {
      ActiveOnlyElements(observations, ids[1..]);
      assert ids == [ids[0]] + ids[1..];
    }
  }

  lemma {:induction false} ElementsCount(ids: seq<Id>)
    requires NoRepeats(ids)
    ensures |Elements(ids)| == |ids|
  {
    if |ids| > 0 {
      var n := |ids| - 1;
      ElementsCount(ids[..n]);
      assert Elements(ids) == Elements(ids[..n]) + {ids[n]};
    } else {
      assert Elements(ids) == {};
    }
  }

  lemma {:induction false} PairsCount(reflection: Id, observations: set<Id>)
    ensures |Pairs(reflection, observations)| == |observations|
  {
    if observations != {} {
      var o :| o in observations;
      PairsCount(reflection, observations - {o});
      assert Pairs(reflection, observations) == Pairs(reflection, observations - {o}) + {Link(reflection, o)};
      assert Link(reflection, o) !in Pairs(reflection, observations - {o});
    }
  }

  /** Plain inserts for a reflection without rows go through exactly when no
      observation is listed twice. */
  lemma {:induction false} InsertLinksSucceeds(sources: set<Link>, r: Id, ids: seq<Id>)
    requires LinksOf(sources, r) == {}
    ensures InsertLinks(sources, r, ids).Some? <==> NoRepeats(ids)
    ensures InsertLinks(sources, r, ids).Some? ==>
              InsertLinks(sources, r, ids).value == sources + Pairs(r, Elements(ids))
  {
    if |ids| > 0 {
      var n := |ids| - 1;
      var before := ids[..n];
      InsertLinksSucceeds(sources, r, before);
      assert ids == before + [ids[n]];
      assert Link(r, ids[n]) !in LinksOf(sources, r);
      if NoRepeats(before) {
        assert Link(r, ids[n]) in Pairs(r, Elements(before)) <==> ids[n] in before;
        assert NoRepeats(ids) <==> ids[n] !in before;
        assert Pairs(r, Elements(ids)) == Pairs(r, Elements(before)) + {Link(r, ids[n])};
      }
    } else {
      assert Pairs(r, Elements(ids)) == {};
    }
  }

  // ---- growing the evidence of one reflection ----

  /** Linking active observations to a reflection that may own links. */
  lemma LinkActive(db: Database, r: Id, added: set<Id>, row: Reflection, now: Time)
    requires LinksSound(db.observations, db.reflections, db.sources)
    requires EvidenceDisjoint(db.sources)
    requires forall q :: OwnsLinks(db.reflections, q) && q != r ==> db.reflections[q].evidenceCount == |LinksOf(db.sources, q)|
    requires forall o :: o in added ==> IsActive(db.observations, o)
    requires row.status != Superseded
    requires row.evidenceCount == |LinksOf(db.sources + Pairs(r, added), r)|
    ensures EvidenceInv(db.(
              sources := db.sources + Pairs(r, added),
              observations := SetStatus(db.observations, added, ConsumedIntoReflection, now),
              reflections := db.reflections[r := row]))
  {
    var sources := db.sources + Pairs(r, added);
    forall l | l in db.sources ensures l.observation !in added {}
    forall q | OwnsLinks(db.reflections, q) && q != r ensures LinksOf(sources, q) == LinksOf(db.sources, q) {}
  }

  /** Against a reflection id not yet used, a `new` action raises exactly when an
      active observation is listed twice. */
  lemma CreateSucceeds(db: Database, action: NewAction, project: Text, now: Time)
    requires LinksSound(db.observations, db.reflections, db.sources) && action.uuid !in db.reflections
    ensures CreateOne(db, action, project, now).Some? <==> NoRepeats(ActiveOnly(db.observations, action.sources))
    ensures var valid := ActiveOnly(db.observations, action.sources);
      NoRepeats(valid) && |valid| > 0 ==>
        CreateOne(db, action, project, now).value.sources == db.sources + Pairs(action.uuid, Elements(valid))
  {
    assert LinksOf(db.sources, action.uuid) == {};
    InsertLinksSucceeds(db.sources, action.uuid, ActiveOnly(db.observations, action.sources));
  }

  lemma NewLinksCounted(sources: set<Link>, r: Id, ids: seq<Id>)
    requires LinksOf(sources, r) == {} && NoRepeats(ids)
    ensures |LinksOf(sources + Pairs(r, Elements(ids)), r)| == |ids|
  {
    ElementsCount(ids);
    PairsCount(r, Elements(ids));
    forall l | l in sources ensures l.reflection != r { assert l !in LinksOf(sources, r); }
    assert LinksOf(sources + Pairs(r, Elements(ids)), r) == Pairs(r, Elements(ids));
  }

  lemma CreateKeepsEvidence(db: Database, action: NewAction, project: Text, now: Time)
    requires EvidenceInv(db)
    ensures var r := CreateOne(db, action, project, now); r.Some? ==> EvidenceInv(r.value)
  {
    var valid := ActiveOnly(db.observations, action.sources);
    if |valid| > 0 && action.uuid !in db.reflections {
      CreateSucceeds(db, action, project, now);
      if NoRepeats(valid) {
        ActiveOnlyElements(db.observations, action.sources);
        assert LinksOf(db.sources, action.uuid) == {};
        NewLinksCounted(db.sources, action.uuid, valid);
        LinkActive(db, action.uuid, Elements(valid), NewReflection(project, |valid|, action.confidence, now), now);
      }
    }
  }

  lemma {:induction false} CreateAllKeepsEvidence(db: Database, actions: seq<NewAction>, project: Text, now: Time)
    requires EvidenceInv(db)
    ensures var r := CreateAll(db, actions, project, now); r.Some? ==> EvidenceInv(r.value)
  {
    var n := |actions|;
    if n > 0 {
      CreateAllKeepsEvidence(db, actions[..n - 1], project, now);
      var before := CreateAll(db, actions[..n - 1], project, now);
      if before.Some? { CreateKeepsEvidence(before.value, actions[n - 1], project, now); }
    }
  }

  lemma AugmentKeepsEvidence(db: Database, action: AugmentAction, now: Time)
    requires EvidenceInv(db)
    ensures EvidenceInv(AugmentOne(db, action, now))
  {
    if Live(db.reflections, action.reflection) {
      ActiveOnlyElements(db.observations, action.addSources);
      var r := action.reflection;
      LinkActive(db, r, Elements(ActiveOnly(db.observations, action.addSources)),
                 AugmentOne(db, action, now).reflections[r], now);
    }
  }

  // ---- merging ----

  function Moved(sources: set<Link>, s: Id, t: Id): set<Link> {
    set l | l in sources && l.reflection == s :: Link(t, l.observation)
  }

  lemma {:induction false} MovedCount(links: set<Link>, s: Id, t: Id)
    requires forall l :: l in links ==> l.reflection == s
    ensures |Moved(links, s, t)| == |links|
  {
    if links != {} {
      var l :| l in links;
      MovedCount(links - {l}, s, t);
      assert Moved(links, s, t) == Moved(links - {l}, s, t) + {Link(t, l.observation)};
      forall k | k in links - {l} ensures k.observation != l.observation {
        assert k == Link(s, k.observation) && l == Link(s, l.observation);
      }
    }
  }

  lemma MoveMembers(sources: set<Link>, s: Id, t: Id, l: Link)
    requires s != t
    ensures l in MoveLinks(sources, s, t) <==>
            (l in sources && l.reflection != s) || (l.reflection == t && Link(s, l.observation) in sources)
  {
    if l.reflection == t && Link(s, l.observation) in sources {
      assert Link(t, Link(s, l.observation).observation) == l;
    }
  }

  lemma MoveSplits(sources: set<Link>, s: Id, t: Id, r: Id)
    requires s != t
    ensures LinksOf(MoveLinks(sources, s, t), r) ==
            if r == s then {}
            else if r == t then LinksOf(sources, t) + Moved(LinksOf(sources, s), s, t)
            else LinksOf(sources, r)
  {
    forall l ensures l in MoveLinks(sources, s, t) <==>
        (l in sources && l.reflection != s) || (l.reflection == t && Link(s, l.observation) in sources)
    {
      MoveMembers(sources, s, t, l);
    }
    forall l: Link | l.reflection == t ensures l in Moved(LinksOf(sources, s), s, t) <==> Link(s, l.observation) in sources {
      if Link(s, l.observation) in sources {
        assert Link(s, l.observation) in LinksOf(sources, s);
        assert l == Link(t, Link(s, l.observation).observation);
      }
    }
  }

  lemma MoveKeepsDisjoint(sources: set<Link>, s: Id, t: Id)
    requires EvidenceDisjoint(sources) && s != t
    ensures EvidenceDisjoint(MoveLinks(sources, s, t))
  {
    forall l1, l2 | l1 in MoveLinks(sources, s, t) && l2 in MoveLinks(sources, s, t) && l1.observation == l2.observation
      ensures l1 == l2
    {
      MoveMembers(sources, s, t, l1);
      MoveMembers(sources, s, t, l2);
      assert l1 == Link(l1.reflection, l1.observation) && l2 == Link(l2.reflection, l2.observation);
    }
  }

  lemma MoveCounts(sources: set<Link>, s: Id, t: Id)
    requires EvidenceDisjoint(sources) && s != t
    ensures |LinksOf(MoveLinks(sources, s, t), t)| == |LinksOf(sources, t)| + |LinksOf(sources, s)|
  {
    MoveSplits(sources, s, t, t);
    MovedCount(LinksOf(sources, s), s, t);
    forall l | l in LinksOf(sources, t) ensures l !in Moved(LinksOf(sources, s), s, t) {
      assert Link(s, l.observation) !in sources;
    }
  }

  lemma MoveKeepsSound(observations: map<Id, Observation>, before: map<Id, Reflection>, after: map<Id, Reflection>,
                       sources: set<Link>, s: Id, t: Id)
    requires LinksSound(observations, before, sources) && s != t
    requires OwnsLinks(after, t) && forall r :: r != s && OwnsLinks(before, r) ==> OwnsLinks(after, r)
    ensures LinksSound(observations, after, MoveLinks(sources, s, t))
    ensures forall o :: Linked(MoveLinks(sources, s, t), o) <==> Linked(sources, o)
  {
    forall l | l in MoveLinks(sources, s, t)
      ensures OwnsLinks(after, l.reflection) && MayBeEvidence(observations, l.observation) && Linked(sources, l.observation)
    {
      MoveMembers(sources, s, t, l);
    }
    forall l | l in sources ensures Linked(MoveLinks(sources, s, t), l.observation) {
      var k := if l.reflection == s then Link(t, l.observation) else l;
      assert l == Link(l.reflection, l.observation);
      MoveMembers(sources, s, t, k);
    }
  }

  /** A merge adds the source's evidence to the target's, none lost or shared. */
  lemma MergeKeepsEvidence(db: Database, action: MergeAction, now: Time)
    requires EvidenceInv(db)
    ensures EvidenceInv(MergeOne(db, action, now))
    ensures MergeApplies(db.reflections, action) ==>
              MergeOne(db, action, now).reflections[action.target].evidenceCount
              == db.reflections[action.target].evidenceCount + db.reflections[action.source].evidenceCount
    ensures forall o :: Linked(MergeOne(db, action, now).sources, o) <==> Linked(db.sources, o)
  {
    if MergeApplies(db.reflections, action) {
      var s, t := action.source, action.target;
      var after := MergeOne(db, action, now);
      MoveKeepsDisjoint(db.sources, s, t);
      MoveCounts(db.sources, s, t);
      MoveKeepsSound(db.observations, db.reflections, after.reflections, db.sources, s, t);
      forall r | OwnsLinks(after.reflections, r)
        ensures after.reflections[r].evidenceCount == |LinksOf(after.sources, r)|
      {
        MoveSplits(db.sources, s, t, r);
      }
    }
  }

  // ---- everything else touches no link, or only unlinked rows ----

  /** Moving unlinked observations to any status, or linked ones to Archived. */
  lemma StatusKeepsEvidence(db: Database, ids: set<Id>, status: ObservationStatus, now: Time)
    requires EvidenceInv(db)
    requires status == Archived || forall o :: o in ids ==> !MayBeEvidence(db.observations, o)
    ensures EvidenceInv(db.(observations := SetStatus(db.observations, ids, status, now)))
  {
  }

  lemma ConsumeKeepsEvidence(db: Database, ids: set<Id>, now: Time)
    requires EvidenceInv(db)
    ensures EvidenceInv(Consume(db, ids, now))
  {
    StatusKeepsEvidence(db, (set i | i in ids && IsActive(db.observations, i)), ConsumedWithoutReflection, now);
  }

  lemma PruneKeepsEvidence(db: Database, threshold: Time)
    requires EvidenceInv(db)
    ensures EvidenceInv(DeleteRows(db, SelectPrunable(db, threshold)))
  {
    forall l | l in db.sources ensures l.observation !in SelectPrunable(db, threshold) {
      assert Linked(db.sources, l.observation);
    }
  }

  /** Retention never leaves a dangling link: prune deletes only unlinked rows. */
  lemma RetentionKeepsEvidence(db: Database, p: Parameters, now: Time)
    requires EvidenceInv(db)
    ensures EvidenceInv(Run(db, p, now).0)
    ensures Run(db, p, now).0.sources == db.sources
  {
    ArchivingKeepsEvidence(db, p.retentionDays, now);
    var archived := RunArchive(db, p.retentionDays, now).0;
    PruneKeepsEvidence(archived, Threshold(now, p.pruneAgeDays));
  }

  lemma ArchivingKeepsEvidence(db: Database, days: int, now: Time)
    requires EvidenceInv(db)
    ensures EvidenceInv(RunArchive(db, days, now).0) && RunArchive(db, days, now).0.sources == db.sources
  {
    RunArchiveIsOneArchiving(db, days, now);
    StatusKeepsEvidence(db, Taken(db, Threshold(now, days)), Archived, now);
  }

  /** Reflection rows may change as long as evidence and ownership do not. */
  lemma RowsKeepEvidence(before: Database, after: Database)
    requires EvidenceInv(before)
    requires after.observations == before.observations && after.sources == before.sources
    requires after.reflections.Keys == before.reflections.Keys
    requires forall r :: r in before.reflections ==>
      && after.reflections[r].evidenceCount == before.reflections[r].evidenceCount
      && (after.reflections[r].status == Superseded <==> before.reflections[r].status == Superseded)
    ensures EvidenceInv(after)
  {
  }

  /** A rating changes nothing of a reflection but its counters. */
  lemma RateTouchesCounters(db: Database, session: Text, item: Item, verdict: Class, now: Time, r: Id)
    ensures var after := RateOne(db, session, item, verdict, now).reflections;
      && (r in after <==> r in db.reflections)
      && (r in after ==> after[r] == db.reflections[r].(counters := after[r].counters))
  {
  }

  lemma RateTouchesRows(db: Database, session: Text, item: Item, verdict: Class, now: Time)
    ensures var after := RateOne(db, session, item, verdict, now);
      after.observations == db.observations && after.sources == db.sources
  {
  }

  lemma RateKeepsEvidence(db: Database, session: Text, item: Item, verdict: Class, now: Time)
    requires EvidenceInv(db)
    ensures EvidenceInv(RateOne(db, session, item, verdict, now))
  {
    var after := RateOne(db, session, item, verdict, now);
    RateTouchesRows(db, session, item, verdict, now);
    forall r ensures r in after.reflections <==> r in db.reflections {
      RateTouchesCounters(db, session, item, verdict, now, r);
    }
    forall r | r in db.reflections
      ensures after.reflections[r].evidenceCount == db.reflections[r].evidenceCount
      ensures after.reflections[r].status == db.reflections[r].status
    {
      RateTouchesCounters(db, session, item, verdict, now, r);
    }
    RowsKeepEvidence(db, after);
  }

  /** A row edited without leaving or entering the superseded state. */
  lemma EditKeepsEvidence(db: Database, r: Id, row: Reflection)
    requires EvidenceInv(db) && r in db.reflections
    requires row.evidenceCount == db.reflections[r].evidenceCount
    requires row.status == Superseded <==> db.reflections[r].status == Superseded
    ensures EvidenceInv(db.(reflections := db.reflections[r := row]))
  {
  }
}
