/** The migrate command over the ledger and the remote store. */
module MigrationService {
  import opened Tables
  import opened Ledger

  class Migration {
    var rows: map<Id, Row>
    var remote: map<Rid, Record>
    var next: Rid

    ghost function Now(): State
      reads this
    {
      State(rows, remote, next)
    }

    constructor ()
      ensures Now() == State(map[], map[], 0)
    {
      rows, remote, next := map[], map[], 0;
    }

    /** Fields that are not given keep their value. */
    method RecordSuccess(id: Id, hash: Option<nat>, target: Option<Rid>, status: Status)
      modifies this`rows
      ensures rows == WithSuccess(old(rows), id, hash, target, status)
    {
      if id in rows {
        var row := rows[id];
        rows := rows[id := Row(if hash.Some? then hash.value else row.hash, status,
                               if target.Some? then target else row.target)];
      } else {
        rows := rows[id := Row(if hash.Some? then hash.value else 0, status, target)];
      }
    }

    method RecordFailure(id: Id, hash: Option<nat>)
      modifies this`rows
      ensures rows == WithFailure(old(rows), id, hash)
    {
      if id in rows {
        rows := rows[id := Row(if hash.Some? then hash.value else rows[id].hash, Failed, rows[id].target)];
      } else {
        rows := rows[id := Row(if hash.Some? then hash.value else 0, Failed, None)];
      }
    }

    method ReconcileLedger(id: Id, target: Rid) returns (reattached: bool)
      modifies this`rows
      ensures rows == Reattach(old(rows), id, target)
      ensures reattached <==> Target(old(rows), id).None?
    {
      if id in rows && rows[id].target.Some? {
        return false;
      }
      if id in rows {
        rows := rows[id := rows[id].(status := Migrated, target := Some(target))];
      } else {
        rows := rows[id := Row(0, Migrated, Some(target))];
      }
      reattached := true;
    }

    /** Lists the namespaces of the planned rows, in any order of the records. */
    method ReconcileFromRemote(sources: seq<Source>) returns (reattached: nat)
      modifies this`rows
      ensures IsReconciled(old(rows), rows, remote, Scanned(remote, sources))
      ensures reattached == |NewTargets(old(rows), rows)|
    {
      reattached := 0;
      assert NewTargets(rows, rows) == {};
      var todo := Scanned(remote, sources);
      ghost var listed := todo;
      while todo != {}
        invariant todo <= listed
        invariant IsReconciled(old(rows), rows, remote, listed - todo)
        invariant reattached == |NewTargets(old(rows), rows)|
        decreases |todo|
      {
        var rid :| rid in todo;
        ReattachStep(old(rows), rows, remote, listed - todo, rid);
        assert listed - todo + {rid} == listed - (todo - {rid});
        NewTargetsGrow(old(rows), rows, remote, listed - todo, rid);
        var added := ReconcileLedger(remote[rid].source, rid);
        if added {
          reattached := reattached + 1;
        }
        todo := todo - {rid};
      }
      assert listed - todo == listed;
    }

    method CreateRecord(src: Source)
      modifies this
      ensures Now() == CreateOne(old(Now()), src)
    {
      var minted := next;
      remote := remote[minted := Record(src.id, src.space, src.hash, false)];
      next := next + 1;
      RecordSuccess(src.id, Some(src.hash), Some(minted), Migrated);
    }

    method UpdateRecord(src: Source)
      modifies this
      ensures Now() == UpdateOne(old(Now()), src)
    {
      var target := Target(rows, src.id);
      if target.None? {
        RecordFailure(src.id, Some(src.hash));
      } else {
        if target.value in remote {
          remote := remote[target.value := remote[target.value].(hash := src.hash, retired := false)];
        }
        RecordSuccess(src.id, Some(src.hash), target, Migrated);
      }
    }

    /** Only the status of the record's body and of the ledger row changes. */
    method RetireRecord(id: Id)
      modifies this
      ensures Now() == RetireOne(old(Now()), id)
    {
      var target := Target(rows, id);
      if target.Some? {
        if target.value in remote {
          remote := remote[target.value := remote[target.value].(retired := true)];
        }
        RecordSuccess(id, None, None, Status.Retired);
      }
    }

    method CreateRecords(sources: seq<Source>, ghost planned: map<Id, Row>, decisions: seq<Decision>)
      requires |decisions| == |sources|
      requires forall i :: 0 <= i < |sources| ==> decisions[i] == PlanOf(planned, sources[i])
      modifies this
      ensures Now() == Apply(old(Now()), Makes(planned, sources))
    {
      for i := 0 to |sources|
        invariant Now() == Apply(old(Now()), Makes(planned, sources[..i]))
      {
        MakesGrow(planned, sources, i);
        if decisions[i] == Create {
          CreateRecord(sources[i]);
        }
      }
      assert sources[..|sources|] == sources;
    }

    method UpdateRecords(sources: seq<Source>, ghost planned: map<Id, Row>, decisions: seq<Decision>)
      requires |decisions| == |sources|
      requires forall i :: 0 <= i < |sources| ==> decisions[i] == PlanOf(planned, sources[i])
      modifies this
      ensures Now() == Apply(old(Now()), Refreshes(planned, sources))
    {
      for i := 0 to |sources|
        invariant Now() == Apply(old(Now()), Refreshes(planned, sources[..i]))
      {
        MakesGrow(planned, sources, i);
        if decisions[i] == Update {
          UpdateRecord(sources[i]);
        }
      }
      assert sources[..|sources|] == sources;
    }

    method RetireRecords(retired: seq<Id>, ghost planned: map<Id, Row>, drops: seq<bool>)
      requires |drops| == |retired|
      requires forall i :: 0 <= i < |retired| ==> drops[i] == Drops(planned, retired[i])
      modifies this
      ensures Now() == Apply(old(Now()), DropsOf(planned, retired))
    {
      for i := 0 to |retired|
        invariant Now() == Apply(old(Now()), DropsOf(planned, retired[..i]))
      {
        DropsGrow(planned, retired, i);
        if drops[i] {
          RetireRecord(retired[i]);
        }
      }
      assert retired[..|retired|] == retired;
    }

    /** One run without failures: reattach, decide every row, execute. */
    method Migrate(sources: seq<Source>, retired: seq<Id>) returns (decisions: seq<Decision>)
      modifies this
      ensures exists planned :: Decides(planned, sources, decisions) && IsRunWith(old(Now()), planned, Now(), sources, retired)
    {
      var reattached := ReconcileFromRemote(sources);
      ghost var planned := rows;
      ghost var before := Now();
      decisions := seq(|sources|, i requires 0 <= i < |sources| reads this => PlanOf(rows, sources[i]));
      var drops := seq(|retired|, i requires 0 <= i < |retired| reads this => Drops(rows, retired[i]));
      CreateRecords(sources, planned, decisions);
      UpdateRecords(sources, planned, decisions);
      RetireRecords(retired, planned, drops);
      ApplyJoin(before, Makes(planned, sources), Refreshes(planned, sources));
      ApplyJoin(before, Makes(planned, sources) + Refreshes(planned, sources), DropsOf(planned, retired));
      assert before == old(Now()).(rows := planned);
      assert IsRunWith(old(Now()), planned, Now(), sources, retired);
    }
  }

  /** The decisions are those of the plan for this ledger. */
  predicate Decides(planned: map<Id, Row>, sources: seq<Source>, decisions: seq<Decision>) {
    |decisions| == |sources| && forall i :: 0 <= i < |sources| ==> decisions[i] == PlanOf(planned, sources[i])
  }

  /** The rows that got a target. */
  function NewTargets(before: map<Id, Row>, after: map<Id, Row>): set<Id> {
    set id | id in after && after[id].target.Some? && Target(before, id).None?
  }

  lemma TargetsStay(before: map<Id, Row>, rows: map<Id, Row>, remote: map<Rid, Record>, listed: set<Rid>, id: Id)
    requires listed <= remote.Keys && IsReconciled(before, rows, remote, listed) && Target(rows, id).None?
    ensures Target(before, id).None? && id !in NewTargets(before, rows)
  {
  }

  lemma NewTargetsAfter(before: map<Id, Row>, rows: map<Id, Row>, id: Id, rid: Rid)
    requires Target(rows, id).None? && Target(before, id).None?
    ensures NewTargets(before, Reattach(rows, id, rid)) == NewTargets(before, rows) + {id}
  {
  }

  lemma NewTargetsGrow(before: map<Id, Row>, rows: map<Id, Row>, remote: map<Rid, Record>, listed: set<Rid>, rid: Rid)
    requires listed <= remote.Keys && rid in remote && IsReconciled(before, rows, remote, listed)
    ensures var id := remote[rid].source;
      |NewTargets(before, Reattach(rows, id, rid))| ==
        |NewTargets(before, rows)| + if Target(rows, id).None? then 1 else 0
  {
    var id := remote[rid].source;
    if Target(rows, id).None? {
      TargetsStay(before, rows, remote, listed, id);
      NewTargetsAfter(before, rows, id, rid);
    }
  }

  lemma {:induction false} ApplyJoin(s: State, a: seq<Op>, b: seq<Op>)
    ensures Apply(s, a + b) == Apply(Apply(s, a), b)
  {
    if b == [] {
      assert a + b == a;
    } else {
      var front := b[..|b| - 1];
      ApplyJoin(s, a, front);
      assert (a + b)[..|a + b| - 1] == a + front;
    }
  }

  lemma MakesGrow(rows: map<Id, Row>, sources: seq<Source>, i: nat)
    requires i < |sources|
    ensures Makes(rows, sources[..i + 1]) ==
      if PlanOf(rows, sources[i]) == Create then Makes(rows, sources[..i]) + [Make(sources[i])] else Makes(rows, sources[..i])
    ensures Refreshes(rows, sources[..i + 1]) ==
      if PlanOf(rows, sources[i]) == Update then Refreshes(rows, sources[..i]) + [Refresh(sources[i])] else Refreshes(rows, sources[..i])
  {
    assert sources[..i + 1][..i] == sources[..i];
  }

  lemma DropsGrow(rows: map<Id, Row>, retired: seq<Id>, i: nat)
    requires i < |retired|
    ensures DropsOf(rows, retired[..i + 1]) ==
      if Drops(rows, retired[i]) then DropsOf(rows, retired[..i]) + [Drop(retired[i])] else DropsOf(rows, retired[..i])
  {
    assert retired[..i + 1][..i] == retired[..i];
  }

  lemma ReattachStep(before: map<Id, Row>, rows: map<Id, Row>, remote: map<Rid, Record>, listed: set<Rid>, rid: Rid)
    requires listed <= remote.Keys && rid in remote && IsReconciled(before, rows, remote, listed)
    ensures IsReconciled(before, Reattach(rows, remote[rid].source, rid), remote, listed + {rid})
  {
    var id, more := remote[rid].source, listed + {rid};
    var after := Reattach(rows, id, rid);
    forall k ensures Found(remote, more, k) <==> Found(remote, listed, k) || k == id {
      assert rid in more;
      if r :| r in listed && remote[r].source == k {
        assert r in more;
      }
    }
    forall k | Target(before, k).None? && Found(remote, more, k)
      ensures exists r :: r in more && remote[r].source == k && GotTarget(before, after, k, r)
    {
      if Found(remote, listed, k) {
        var r :| r in listed && remote[r].source == k && GotTarget(before, rows, k, r);
        assert r in more && GotTarget(before, after, k, r);
      } else {
        assert rid in more && GotTarget(before, after, k, rid);
      }
    }
  }
}
