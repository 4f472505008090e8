/** The user's actions on single memories. `None` stands for a raised error, which
    writes nothing. */
module Curation {
  import opened Tables
  import opened Synthesis

  function SetReflectionStatus(db: Database, r: Id, status: ReflectionStatus, now: Time): Database
    requires r in db.reflections
  {
    db.(reflections := db.reflections[r := db.reflections[r].(status := status, updatedAt := now)])
  }

  function Confirm(db: Database, r: Id, now: Time): Option<Database> {
    if !Live(db.reflections, r) then None
    else if db.reflections[r].status == Confirmed then Some(db)
    else Some(SetReflectionStatus(db, r, Confirmed, now))
  }

  function Retire(db: Database, r: Id, now: Time): Option<Database> {
    if r !in db.reflections || db.reflections[r].status == Superseded then None
    else if db.reflections[r].status == Retired then Some(db)
    else Some(SetReflectionStatus(db, r, Retired, now))
  }

  function Touched(db: Database, r: Id, now: Time): Database
    requires r in db.reflections
  {
    db.(reflections := db.reflections[r := db.reflections[r].(updatedAt := now)])
  }

  /** `update_text`: the text columns are not modelled, the guard and the
      timestamp are. */
  function UpdateText(db: Database, r: Id, now: Time): Option<Database> {
    if !Live(db.reflections, r) then None else Some(Touched(db, r, now))
  }

  /** `set_triggers` accepts a row in any status. */
  function SetTriggers(db: Database, r: Id, now: Time): Option<Database> {
    if r !in db.reflections then None else Some(Touched(db, r, now))
  }

  // ---- semantic memories ----

  function CreateSemantic(db: Database, uuid: Id): Option<Database> {
    if uuid in db.semantics then None else Some(db.(semantics := db.semantics[uuid := ZERO_COUNTERS]))
  }

  function DeleteSemantic(db: Database, m: Id): Database {
    db.(semantics := db.semantics - {m})
  }

  /** Turns an active observation into a semantic memory. */
  function PromoteObservation(db: Database, o: Id, uuid: Id, now: Time): Option<Database> {
    if !IsActive(db.observations, o) || uuid in db.semantics then None
    else Some(db.(
      semantics := db.semantics[uuid := ZERO_COUNTERS],
      observations := SetStatus(db.observations, {o}, ConsumedWithoutReflection, now)))
  }

  // ---- what the user's actions leave behind ----

  /** The status of one row, its timestamp, and nothing else. */
  predicate OnlyStatus(before: Database, after: Database, r: Id, status: ReflectionStatus, now: Time) {
    && r in before.reflections
    && after.reflections.Keys == before.reflections.Keys
    && after == before.(reflections := after.reflections)
    && after.reflections[r] == before.reflections[r].(status := status, updatedAt := now)
    && forall q :: q in before.reflections && q != r ==> after.reflections[q] == before.reflections[q]
  }

  /** Confirming takes exactly a row under review to confirmed, and is a no-op on a
      confirmed one; retiring takes exactly those two to retired, and is a no-op on a
      retired row. Everything else raises. */
  lemma ReviewedIff(db: Database, r: Id, now: Time)
    ensures var c := Confirm(db, r, now);
      if r !in db.reflections then c.None?
      else match db.reflections[r].status
           case PendingReview => c.Some? && OnlyStatus(db, c.value, r, Confirmed, now)
           case Confirmed => c == Some(db)
           case Retired => c.None?
           case Superseded => c.None?
    ensures var c := Retire(db, r, now);
      if r !in db.reflections then c.None?
      else match db.reflections[r].status
           case PendingReview => c.Some? && OnlyStatus(db, c.value, r, Retired, now)
           case Confirmed => c.Some? && OnlyStatus(db, c.value, r, Retired, now)
           case Retired => c == Some(db)
           case Superseded => c.None?
  {
  }

  /** The semantic memories, and the observations that were promoted to one. */
  lemma SemanticIff(db: Database, m: Id, o: Id, now: Time)
    ensures var c := CreateSemantic(db, m);
      && (c.None? <==> m in db.semantics)
      && (c.Some? ==> c.value == db.(semantics := db.semantics[m := ZERO_COUNTERS]))
    ensures var d := DeleteSemantic(db, m);
      d == db.(semantics := d.semantics) && m !in d.semantics && forall k :: k != m ==>
        (k in d.semantics <==> k in db.semantics) && (k in d.semantics ==> d.semantics[k] == db.semantics[k])
    ensures var p := PromoteObservation(db, o, m, now);
      && (p.Some? <==> o in db.observations && db.observations[o].status == Active && m !in db.semantics)
      && (p.Some? ==>
            && m in p.value.semantics && p.value.semantics[m] == ZERO_COUNTERS
            && p.value.observations.Keys == db.observations.Keys
            && p.value.observations[o].status == ConsumedWithoutReflection
            && forall k :: k in db.observations && k != o ==> p.value.observations[k] == db.observations[k])
  {
  }

  /** Texts can be edited while a reflection is live, triggers always; either moves the
      timestamp of that row and nothing else that is modelled. */
  lemma TouchedIff(db: Database, r: Id, now: Time)
    ensures var t := UpdateText(db, r, now);
      && (t.Some? <==> r in db.reflections && db.reflections[r].status in {PendingReview, Confirmed})
      && (t.Some? ==> OnlyStatus(db, t.value, r, db.reflections[r].status, now))
    ensures var t := SetTriggers(db, r, now);
      && (t.Some? <==> r in db.reflections)
      && (t.Some? ==> OnlyStatus(db, t.value, r, db.reflections[r].status, now))
  {
  }
}
