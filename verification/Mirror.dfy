/** What the remote records hold after migrate runs: the payloads of the sources. */
module Mirror {
  import opened Tables
  import opened Ledger

  /** The record of the row agrees with what the ledger says was written: a migrated row
      with a payload hash has a standing record of that payload, a retired row a retired
      record. */
  predicate Agrees(s: State, id: Id) {
    Target(s.rows, id).Some? && s.rows[id].target.value in s.remote ==>
      var row, record := s.rows[id], s.remote[s.rows[id].target.value];
      && (row.status == Migrated && row.hash > 0 ==> record.hash == row.hash && !record.retired)
      && (row.status == Status.Retired ==> record.retired)
  }

  ghost predicate AllAgree(s: State) {
    forall id :: Agrees(s, id)
  }

  /** The record that the ledger binds to the row holds this payload and stands. */
  predicate Holds(s: State, id: Id, hash: nat) {
    && Target(s.rows, id).Some? && s.rows[id].target.value in s.remote
    && s.remote[s.rows[id].target.value].hash == hash && !s.remote[s.rows[id].target.value].retired
  }

  // ---- one write ----

  lemma WriteAgrees(s: State, op: Op, k: Id)
    requires Consistent(s)
    ensures Agrees(ApplyOne(s, op), k) <==> k == OpId(op) || Agrees(s, k)
  {
    var t := ApplyOne(s, op);
    StepIsLocal(s, op);
    if k != OpId(op) {
      OtherRecords(s, op, k);
    }
  }

  /** A write leaves the records of other rows alone. */
  lemma OtherRecords(s: State, op: Op, k: Id)
    requires Consistent(s) && k != OpId(op)
    ensures Target(ApplyOne(s, op).rows, k) == Target(s.rows, k) && SameRow(s.rows, ApplyOne(s, op).rows, k)
    ensures Target(s.rows, k).Some? ==>
      var rid := s.rows[k].target.value; rid in ApplyOne(s, op).remote && ApplyOne(s, op).remote[rid] == s.remote[rid]
  {
  }

  lemma {:induction false} WritesAgree(s: State, ops: seq<Op>, k: Id)
    requires Consistent(s)
    ensures Consistent(Apply(s, ops))
    ensures Agrees(Apply(s, ops), k) <==> Touches(ops, k) || Agrees(s, k)
  {
    if ops != [] {
      var front, op := ops[..|ops| - 1], ops[|ops| - 1];
      WritesAgree(s, front, k);
      StepIsLocal(Apply(s, front), op);
      WriteAgrees(Apply(s, front), op, k);
      TouchesStep(ops, k);
    }
  }

  lemma TouchesStep(ops: seq<Op>, k: Id)
    requires ops != []
    ensures Touches(ops, k) <==> Touches(ops[..|ops| - 1], k) || OpId(ops[|ops| - 1]) == k
  {
    assert ops == ops[..|ops| - 1] + [ops[|ops| - 1]];
    assert ops[|ops| - 1] in ops;
  }

  // ---- a run ----

  /** Reattaching bound the row, by its old hash, to a record that holds another payload
      or was retired. */
  predicate BoundStale(s: State, rows: map<Id, Row>, id: Id) {
    && id in s.rows && s.rows[id].target.None? && s.rows[id].hash > 0
    && Target(rows, id).Some? && rows[id].target.value in s.remote
    && (s.remote[rows[id].target.value].hash != s.rows[id].hash || s.remote[rows[id].target.value].retired)
  }

  lemma ReattachedAgrees(s: State, rows: map<Id, Row>, listed: set<Rid>, id: Id)
    requires Consistent(s) && listed <= s.remote.Keys && IsReconciled(s.rows, rows, s.remote, listed)
    ensures Agrees(s.(rows := rows), id) <==> if Target(s.rows, id).Some? then Agrees(s, id) else !BoundStale(s, rows, id)
  {
    if Target(s.rows, id).None? && Found(s.remote, listed, id) {
      var rid :| rid in listed && s.remote[rid].source == id && GotTarget(s.rows, rows, id, rid);
    }
  }

  /** The run writes the row: it is eligible with a payload that is not the one its row
      names, or it is dropped. */
  predicate Rewritten(rows: map<Id, Row>, sources: seq<Source>, retired: seq<Id>, id: Id) {
    || (exists src :: src in sources && src.id == id && PlanOf(rows, src) != Skip)
    || (id in retired && Drops(rows, id))
  }

  lemma TouchesIff(rows: map<Id, Row>, sources: seq<Source>, retired: seq<Id>, id: Id)
    ensures Touches(Ops(rows, sources, retired), id) <==> Rewritten(rows, sources, retired, id)
  {
    var ops := Ops(rows, sources, retired);
    if op :| op in ops && OpId(op) == id {
      OpsAre(rows, sources, retired, op);
    }
    if src :| src in sources && src.id == id && PlanOf(rows, src) != Skip {
      var op := if PlanOf(rows, src) == Create then Make(src) else Refresh(src);
      OpsAre(rows, sources, retired, op);
      assert op in ops && OpId(op) == id;
    }
    if id in retired && Drops(rows, id) {
      OpsAre(rows, sources, retired, Drop(id));
      assert OpId(Drop(id)) == id;
    }
  }

  /** What happens to the agreement of one row in a run. */
  lemma RunAgreesAt(s: State, rows: map<Id, Row>, t: State, sources: seq<Source>, retired: seq<Id>, id: Id)
    requires Consistent(s) && AllAgree(s) && IsRunWith(s, rows, t, sources, retired)
    ensures Consistent(t)
    ensures Agrees(t, id) <==> !BoundStale(s, rows, id) || Rewritten(rows, sources, retired, id)
  {
    var u, ops := s.(rows := rows), Ops(rows, sources, retired);
    ReconcileKeepsConsistent(s, rows, Scanned(s.remote, sources));
    ReattachedAgrees(s, rows, Scanned(s.remote, sources), id);
    WritesAgree(u, ops, id);
    TouchesIff(rows, sources, retired, id);
    assert Agrees(s, id);
  }

  /** A row bound by its old hash is rewritten exactly when it is dropped, or eligible
      with another payload than that hash names. */
  lemma StaleIsRewritten(s: State, rows: map<Id, Row>, sources: seq<Source>, retired: seq<Id>, id: Id)
    requires IsReconciled(s.rows, rows, s.remote, Scanned(s.remote, sources)) && BoundStale(s, rows, id)
    ensures Rewritten(rows, sources, retired, id) <==>
      id in retired || exists src :: src in sources && src.id == id && src.hash != s.rows[id].hash
  {
    var listed := Scanned(s.remote, sources);
    assert Found(s.remote, listed, id);
    var rid :| rid in listed && s.remote[rid].source == id && GotTarget(s.rows, rows, id, rid);
    forall src | src in sources && src.id == id ensures PlanOf(rows, src) != Skip <==> src.hash != s.rows[id].hash {
    }
    if src :| src in sources && src.id == id && src.hash != s.rows[id].hash {
      assert PlanOf(rows, src) != Skip;
    }
  }

  /** A run keeps ledger and records in agreement exactly when every row that it bound
      stale is dropped or has another payload now. */
  lemma RunKeepsAgreementIff(s: State, rows: map<Id, Row>, t: State, sources: seq<Source>, retired: seq<Id>)
    requires Consistent(s) && AllAgree(s) && IsRunWith(s, rows, t, sources, retired)
    ensures AllAgree(t) <==>
      forall id :: BoundStale(s, rows, id) ==>
        id in retired || exists src :: src in sources && src.id == id && src.hash != s.rows[id].hash
  {
    forall id ensures Agrees(t, id) <==>
      (BoundStale(s, rows, id) ==> id in retired || exists src :: src in sources && src.id == id && src.hash != s.rows[id].hash)
    {
      RunAgreesAt(s, rows, t, sources, retired, id);
      if BoundStale(s, rows, id) {
        StaleIsRewritten(s, rows, sources, retired, id);
      }
    }
  }

  // ---- what the sources find ----

  /** After a run every eligible row has a standing record of its payload, except exactly
      the rows that were bound stale by the very hash they have now. */
  lemma SourceIsMirroredIff(s: State, rows: map<Id, Row>, t: State, sources: seq<Source>, retired: seq<Id>, src: Source)
    requires Consistent(s) && AllAgree(s) && IsRunWith(s, rows, t, sources, retired)
    requires Listing(sources, retired) && src in sources && src.hash > 0
    ensures Holds(t, src.id, src.hash) <==> !(BoundStale(s, rows, src.id) && s.rows[src.id].hash == src.hash)
  {
    var u := s.(rows := rows);
    ReconcileKeepsConsistent(s, rows, Scanned(s.remote, sources));
    SourceIsSettled(u, sources, retired, src);
    RunAgreesAt(s, rows, t, sources, retired, src.id);
    assert Holds(t, src.id, src.hash) <==> Agrees(t, src.id);
    if BoundStale(s, rows, src.id) {
      StaleIsRewritten(s, rows, sources, retired, src.id);
      SameSource(sources);
    }
  }

  /** The record of a dropped row is retired, whatever happened before. */
  lemma DroppedIsRetired(s: State, rows: map<Id, Row>, t: State, sources: seq<Source>, retired: seq<Id>, id: Id)
    requires Consistent(s) && AllAgree(s) && IsRunWith(s, rows, t, sources, retired)
    requires Listing(sources, retired) && id in retired && Target(rows, id).Some?
    ensures Target(t.rows, id).Some? && t.rows[id].target.value in t.remote && t.remote[t.rows[id].target.value].retired
  {
    var u := s.(rows := rows);
    ReconcileKeepsConsistent(s, rows, Scanned(s.remote, sources));
    ApplyKeeps(u, Ops(rows, sources, retired));
    RetiredIsSettled(u, sources, retired, id);
    RunAgreesAt(s, rows, t, sources, retired, id);
    if BoundStale(s, rows, id) {
      StaleIsRewritten(s, rows, sources, retired, id);
    }
    assert Agrees(t, id) && t.rows[id].status == Status.Retired;
  }

  /** Such a row stays wrong: no later run over the same rows writes its payload. */
  lemma StaleStays(s: State, rows: map<Id, Row>, t: State, u: State, sources: seq<Source>, retired: seq<Id>, src: Source)
    requires Consistent(s) && AllAgree(s) && IsRunWith(s, rows, t, sources, retired) && IsRun(t, u, sources, retired)
    requires Listing(sources, retired) && src in sources && src.hash > 0
    requires BoundStale(s, rows, src.id) && s.rows[src.id].hash == src.hash
    ensures !Holds(u, src.id, src.hash)
  {
    SourceIsMirroredIff(s, rows, t, sources, retired, src);
    SecondRunWritesNothing(s, t, u, sources, retired);
  }

  /** A create that failed, when the ledger had lost the record of an earlier payload. */
  function Lost(id: Id, space: nat, was: nat, hash: nat): State {
    State(map[id := Row(hash, Failed, None)], map[0 := Record(id, space, was, false)], 1)
  }

  function Bound(id: Id, hash: nat): map<Id, Row> {
    map[id := Row(hash, Migrated, Some(0))]
  }

  lemma LostIsReconciled(id: Id, space: nat, was: nat, hash: nat)
    ensures var s, listed := Lost(id, space, was, hash), Scanned(Lost(id, space, was, hash).remote, [Source(id, hash, space)]);
      listed == {0} && IsReconciled(s.rows, Bound(id, hash), s.remote, listed)
  {
    var s, sources := Lost(id, space, was, hash), [Source(id, hash, space)];
    assert sources[0] in sources;
    assert space in Spaces(sources);
    assert Scanned(s.remote, sources) == {0};
    assert GotTarget(s.rows, Bound(id, hash), id, 0);
    forall k ensures Found(s.remote, {0}, k) <==> k == id {
      assert s.remote[0].source == id;
    }
  }

  /** The run binds the row to that record by the hash of the failed payload, and so
      takes it for written. */
  lemma StaleBinding(id: Id, space: nat, was: nat, hash: nat)
    requires was != hash && hash > 0
    ensures var s, sources := Lost(id, space, was, hash), [Source(id, hash, space)];
      var t := s.(rows := Bound(id, hash));
      && Consistent(s) && AllAgree(s) && IsRunWith(s, Bound(id, hash), t, sources, [])
      && BoundStale(s, Bound(id, hash), id) && !Holds(t, id, hash)
  {
    var s, sources := Lost(id, space, was, hash), [Source(id, hash, space)];
    var t := s.(rows := Bound(id, hash));
    LostIsReconciled(id, space, was, hash);
    assert Settled(t, sources, []);
    SettledNeedsNoWrite(t, sources, []);
  }

  // ---- what else the records hold ----

  /** A failure disturbs no agreement. */
  lemma FailureKeepsAgreement(s: State, id: Id, hash: Option<nat>, k: Id)
    requires Agrees(s, k)
    ensures Agrees(s.(rows := WithFailure(s.rows, id, hash)), k)
  {
  }

  predicate MadeFor(record: Record, src: Source) {
    record == Record(src.id, src.space, src.hash, false)
  }

  predicate IsMadeBy(ops: seq<Op>, record: Record) {
    exists op :: op in ops && op.Make? && MadeFor(record, op.src)
  }

  /** Every record that was not there before was made for an eligible row, with its
      payload and in its namespace. */
  lemma {:induction false} NewRecordsAreMade(s: State, ops: seq<Op>, rid: Rid)
    requires Consistent(s) && DistinctOps(ops) && rid in Apply(s, ops).remote && rid !in s.remote
    ensures IsMadeBy(ops, Apply(s, ops).remote[rid])
  {
    var front, op := ops[..|ops| - 1], ops[|ops| - 1];
    var t := Apply(s, front);
    ApplyKeeps(s, front);
    assert op in ops && forall x :: x in front ==> x in ops;
    if rid in t.remote {
      NewRecordsAreMade(s, front, rid);
      LastIsNew(ops);
      assert Touches(front, t.remote[rid].source);
      OtherRow(t, op, rid);
    } else {
      assert op.Make? && MadeFor(Apply(s, ops).remote[rid], op.src);
    }
  }

  lemma OtherRow(s: State, op: Op, rid: Rid)
    requires Consistent(s) && rid in s.remote && s.remote[rid].source != OpId(op)
    ensures rid in ApplyOne(s, op).remote && ApplyOne(s, op).remote[rid] == s.remote[rid]
  {
  }
}
