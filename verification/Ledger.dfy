/** The migration ledger: which source row was written to which remote record. One
    kind of row is modelled, and calls to the remote store succeed. */
module Ledger {
  import opened Tables

  type Rid = nat

  datatype Status = Pending | Failed | Migrated | Retired

  /** `hash` 0 is the empty hash of a reattached row. */
  datatype Row = Row(hash: nat, status: Status, target: Option<Rid>)

  datatype Record = Record(source: Id, space: nat, hash: nat, retired: bool)

  /** A row that is eligible for migration. */
  datatype Source = Source(id: Id, hash: nat, space: nat)

  datatype Decision = Create | Update | Skip | Retire

  /** The remote store mints `next` for the next record. */
  datatype State = State(rows: map<Id, Row>, remote: map<Rid, Record>, next: Rid)

  /** `hash` is absent for a row that is not eligible any more. */
  function PlanRow(rows: map<Id, Row>, id: Id, hash: Option<nat>): Decision {
    if hash.None? then
      if id !in rows || rows[id].status == Status.Retired then Skip else Retire
    else if id !in rows || rows[id].status in {Pending, Failed} then Create
    else if rows[id].status == Migrated && rows[id].hash == hash.value then Skip
    else Update
  }

  function PlanOf(rows: map<Id, Row>, src: Source): Decision {
    PlanRow(rows, src.id, Some(src.hash))
  }

  function Target(rows: map<Id, Row>, id: Id): Option<Rid> {
    if id in rows then rows[id].target else None
  }

  /** An existing target is never overwritten; the hash of an existing row stays. */
  function Reattach(rows: map<Id, Row>, id: Id, rid: Rid): map<Id, Row> {
    if Target(rows, id).Some? then rows
    else rows[id := Row(if id in rows then rows[id].hash else 0, Migrated, Some(rid))]
  }

  /** The ledger row of a success; what is not given is kept. */
  function WithSuccess(rows: map<Id, Row>, id: Id, hash: Option<nat>, target: Option<Rid>, status: Status): map<Id, Row> {
    var row := if id in rows then rows[id] else Row(0, status, None);
    rows[id := Row(if hash.Some? then hash.value else row.hash, status, if target.Some? then target else row.target)]
  }

  /** The ledger row of a failure, which keeps the target. */
  function WithFailure(rows: map<Id, Row>, id: Id, hash: Option<nat>): map<Id, Row> {
    var row := if id in rows then rows[id] else Row(0, Failed, None);
    rows[id := Row(if hash.Some? then hash.value else row.hash, Failed, row.target)]
  }

  function Spaces(sources: seq<Source>): set<nat> {
    set src | src in sources :: src.space
  }

  /** The records found by listing the namespaces of this run. */
  function Scanned(remote: map<Rid, Record>, sources: seq<Source>): set<Rid> {
    set rid | rid in remote && remote[rid].space in Spaces(sources)
  }

  /** Every row without a target that some listed record belongs to got one of them. */
  ghost predicate IsReconciled(before: map<Id, Row>, after: map<Id, Row>, remote: map<Rid, Record>, listed: set<Rid>)
    requires listed <= remote.Keys
  {
    && (forall id :: Target(before, id).Some? || !Found(remote, listed, id) ==>
          (id in after <==> id in before) && (id in before ==> after[id] == before[id]))
    && (forall id :: Target(before, id).None? && Found(remote, listed, id) ==>
          exists rid :: rid in listed && remote[rid].source == id && GotTarget(before, after, id, rid))
  }

  predicate GotTarget(before: map<Id, Row>, after: map<Id, Row>, id: Id, rid: Rid) {
    id in after && after[id] == Row(if id in before then before[id].hash else 0, Migrated, Some(rid))
  }

  ghost predicate Found(remote: map<Rid, Record>, listed: set<Rid>, id: Id)
    requires listed <= remote.Keys
  {
    exists rid :: rid in listed && remote[rid].source == id
  }

  // ---- executing a plan ----

  function CreateOne(s: State, src: Source): State {
    State(s.rows[src.id := Row(src.hash, Migrated, Some(s.next))],
          s.remote[s.next := Record(src.id, src.space, src.hash, false)], s.next + 1)
  }

  /** Without a target the update is recorded as a failure. */
  function UpdateOne(s: State, src: Source): State {
    match Target(s.rows, src.id)
    case None =>
      s.(rows := s.rows[src.id := Row(src.hash, Failed, None)])
    case Some(rid) =>
      s.(rows := s.rows[src.id := Row(src.hash, Migrated, Some(rid))],
         remote := if rid in s.remote then s.remote[rid := s.remote[rid].(hash := src.hash, retired := false)] else s.remote)
  }

  function RetireOne(s: State, id: Id): State {
    match Target(s.rows, id)
    case None => s
    case Some(rid) =>
      s.(rows := s.rows[id := s.rows[id].(status := Status.Retired)],
         remote := if rid in s.remote then s.remote[rid := s.remote[rid].(retired := true)] else s.remote)
  }

  /** A write of the execution, planned before it starts. */
  datatype Op = Make(src: Source) | Refresh(src: Source) | Drop(gone: Id)

  function OpId(op: Op): Id {
    if op.Drop? then op.gone else op.src.id
  }

  function ApplyOne(s: State, op: Op): State {
    match op
    case Make(src) => CreateOne(s, src)
    case Refresh(src) => UpdateOne(s, src)
    case Drop(id) => RetireOne(s, id)
  }

  function Apply(s: State, ops: seq<Op>): State {
    if ops == [] then s else ApplyOne(Apply(s, ops[..|ops| - 1]), ops[|ops| - 1])
  }

  function Makes(rows: map<Id, Row>, sources: seq<Source>): seq<Op> {
    if sources == [] then []
    else
      var earlier, src := Makes(rows, sources[..|sources| - 1]), sources[|sources| - 1];
      if PlanOf(rows, src) == Create then earlier + [Make(src)] else earlier
  }

  function Refreshes(rows: map<Id, Row>, sources: seq<Source>): seq<Op> {
    if sources == [] then []
    else
      var earlier, src := Refreshes(rows, sources[..|sources| - 1]), sources[|sources| - 1];
      if PlanOf(rows, src) == Update then earlier + [Refresh(src)] else earlier
  }

  predicate Drops(rows: map<Id, Row>, id: Id) {
    PlanRow(rows, id, None) == Retire && Target(rows, id).Some?
  }

  function DropsOf(rows: map<Id, Row>, retired: seq<Id>): seq<Op> {
    if retired == [] then []
    else
      var earlier, id := DropsOf(rows, retired[..|retired| - 1]), retired[|retired| - 1];
      if Drops(rows, id) then earlier + [Drop(id)] else earlier
  }

  /** The writes of a run: first the creates, then the updates, then the retirements. */
  function Ops(rows: map<Id, Row>, sources: seq<Source>, retired: seq<Id>): seq<Op> {
    Makes(rows, sources) + Refreshes(rows, sources) + DropsOf(rows, retired)
  }

  function Execute(s: State, sources: seq<Source>, retired: seq<Id>): State {
    Apply(s, Ops(s.rows, sources, retired))
  }

  // ---- invariants ----

  /** A source row has at most one remote record. */
  predicate OnePerRow(remote: map<Rid, Record>) {
    forall a, b :: a in remote && b in remote && remote[a].source == remote[b].source ==> a == b
  }

  /** Targets point to records of their row, and a row that was written has one. */
  predicate Consistent(s: State) {
    && (forall rid :: rid in s.remote ==> rid < s.next)
    && (forall id :: id in s.rows && s.rows[id].target.Some? ==>
          s.rows[id].target.value in s.remote && s.remote[s.rows[id].target.value].source == id)
    && (forall id :: id in s.rows && s.rows[id].status in {Migrated, Status.Retired} ==> s.rows[id].target.Some?)
  }

  lemma ReconcileKeepsConsistent(s: State, rows: map<Id, Row>, listed: set<Rid>)
    requires Consistent(s) && listed <= s.remote.Keys && IsReconciled(s.rows, rows, s.remote, listed)
    ensures Consistent(s.(rows := rows))
  {
    forall id | id in rows
      ensures rows[id].target.Some? ==> rows[id].target.value in s.remote && s.remote[rows[id].target.value].source == id
      ensures rows[id].status in {Migrated, Status.Retired} ==> rows[id].target.Some?
    {
      if Target(s.rows, id).None? && Found(s.remote, listed, id) {
        var rid :| rid in listed && s.remote[rid].source == id && GotTarget(s.rows, rows, id, rid);
      } else {
        assert id in s.rows && rows[id] == s.rows[id];
      }
    }
  }

  predicate SameRow(a: map<Id, Row>, b: map<Id, Row>, k: Id) {
    (k in a <==> k in b) && (k in a ==> b[k] == a[k])
  }

  /** Nothing is deleted, no record changes its row or namespace, and no row loses its
      target. */
  ghost predicate Keeps(s: State, t: State) {
    && s.next <= t.next
    && (forall rid :: rid in s.remote ==>
          rid in t.remote && t.remote[rid].source == s.remote[rid].source && t.remote[rid].space == s.remote[rid].space)
    && (forall k :: Target(s.rows, k).Some? ==> Target(t.rows, k).Some?)
  }

  /** A step on row `id` leaves the other rows alone, and may only add a record of its
      own row, as its target. */
  ghost predicate Local(s: State, t: State, id: Id) {
    && Keeps(s, t)
    && (forall k :: k != id ==> SameRow(s.rows, t.rows, k))
    && (forall rid :: rid in t.remote && rid !in s.remote ==>
          t.remote[rid].source == id && Target(t.rows, id).Some?)
  }

  lemma StepIsLocal(s: State, op: Op)
    requires Consistent(s)
    ensures Consistent(ApplyOne(s, op)) && Local(s, ApplyOne(s, op), OpId(op))
    ensures !op.Make? ==> ApplyOne(s, op).remote.Keys == s.remote.Keys
  {
  }

  /** Only a create can give a row a second record. */
  lemma StepKeepsOnePerRow(s: State, op: Op)
    requires Consistent(s)
    ensures OnePerRow(ApplyOne(s, op).remote) <==> OnePerRow(s.remote) && (op.Make? ==> !Recorded(s, op.src.id))
  {
    var t := ApplyOne(s, op);
    StepIsLocal(s, op);
    if op.Make? {
      var src := op.src;
      assert s.next in t.remote && s.next !in s.remote && t.remote[s.next].source == src.id;
      assert forall rid :: rid in s.remote ==> t.remote[rid] == s.remote[rid];
      if OnePerRow(t.remote) {
        assert !Recorded(s, src.id);
        OnePerRowShrinks(s.remote, t.remote);
      }
    } else {
      SameRows(s, t);
    }
  }

  predicate Recorded(s: State, id: Id) {
    exists rid :: rid in s.remote && s.remote[rid].source == id
  }

  lemma OnePerRowShrinks(small: map<Rid, Record>, large: map<Rid, Record>)
    requires OnePerRow(large)
    requires forall rid :: rid in small ==> rid in large && large[rid].source == small[rid].source
    ensures OnePerRow(small)
  {
    forall a, b | a in small && b in small && small[a].source == small[b].source ensures a == b {
      assert a in large && b in large;
    }
  }

  lemma SameRows(s: State, t: State)
    requires t.remote.Keys == s.remote.Keys
    requires forall rid :: rid in s.remote ==> t.remote[rid].source == s.remote[rid].source
    ensures OnePerRow(t.remote) <==> OnePerRow(s.remote)
  {
    if OnePerRow(t.remote) {
      OnePerRowShrinks(s.remote, t.remote);
    }
    if OnePerRow(s.remote) {
      OnePerRowShrinks(t.remote, s.remote);
    }
  }

  // ---- what the ledger entries mean for the next run ----

  /** A success loses no target and touches no other row. A migrated row is skipped
      next time exactly while its payload is the one written, and updated otherwise; a
      retired row is retired once. */
  lemma SuccessIsPlanned(rows: map<Id, Row>, id: Id, hash: Option<nat>, target: Option<Rid>, h: nat, k: Id)
    ensures var after := WithSuccess(rows, id, hash, target, Migrated);
      && (k != id ==> SameRow(rows, after, k))
      && (Target(rows, id).Some? ==> Target(after, id).Some?) && (target.Some? ==> Target(after, id) == target)
      && (hash.Some? ==> PlanRow(after, id, Some(h)) == if h == hash.value then Skip else Update)
    ensures var gone := WithSuccess(rows, id, hash, target, Status.Retired);
      && PlanRow(gone, id, None) == Skip && PlanRow(gone, id, Some(h)) == Update
      && (target.None? ==> Target(gone, id) == Target(rows, id))
  {
  }

  /** A failure keeps the target and touches no other row, and yet the row is planned
      as a create whatever its payload: with a record behind the target it is
      endangered. */
  lemma FailureIsPlanned(s: State, sources: seq<Source>, src: Source, hash: Option<nat>, k: Id)
    requires Consistent(s)
    ensures var after := WithFailure(s.rows, src.id, hash);
      && Target(after, src.id) == Target(s.rows, src.id)
      && (k != src.id ==> SameRow(s.rows, after, k))
      && PlanOf(after, src) == Create && PlanRow(after, src.id, None) == Retire
      && Consistent(s.(rows := after))
      && (Target(s.rows, src.id).Some? ==> Endangered(s.(rows := after), sources, src) && Recorded(s, src.id))
  {
    if Target(s.rows, src.id).Some? {
      assert s.rows[src.id].target.value in s.remote;
    }
  }

  // ---- a run ----

  predicate DistinctOps(ops: seq<Op>) {
    forall i, j :: 0 <= i < j < |ops| ==> OpId(ops[i]) != OpId(ops[j])
  }

  predicate Touches(ops: seq<Op>, id: Id) {
    exists op :: op in ops && OpId(op) == id
  }

  lemma {:induction false} ApplyKeeps(s: State, ops: seq<Op>)
    requires Consistent(s)
    ensures Consistent(Apply(s, ops)) && Keeps(s, Apply(s, ops))
    ensures forall k :: Touches(ops, k) || SameRow(s.rows, Apply(s, ops).rows, k)
    ensures forall rid :: rid in Apply(s, ops).remote && rid !in s.remote ==>
      Touches(ops, Apply(s, ops).remote[rid].source) && Target(Apply(s, ops).rows, Apply(s, ops).remote[rid].source).Some?
  {
    if ops != [] {
      var front, op := ops[..|ops| - 1], ops[|ops| - 1];
      ApplyKeeps(s, front);
      StepIsLocal(Apply(s, front), op);
      assert ops == front + [op];
      forall k ensures Touches(ops, k) <==> Touches(front, k) || k == OpId(op) {
        if k == OpId(op) {
          assert op in ops;
        }
      }
    }
  }

  /** The ledger row a write leaves behind. */
  predicate Wrote(rows: map<Id, Row>, op: Op) {
    OpId(op) in rows && match op
                        case Drop(id) => rows[id].status == Status.Retired
                        case _ => rows[op.src.id].status == Migrated && rows[op.src.id].hash == op.src.hash
  }

  lemma {:induction false} ApplyWrites(s: State, ops: seq<Op>, i: nat)
    requires Consistent(s) && DistinctOps(ops) && i < |ops|
    requires !ops[i].Make? ==> Target(s.rows, OpId(ops[i])).Some?
    ensures Wrote(Apply(s, ops).rows, ops[i])
  {
    var front, op := ops[..|ops| - 1], ops[|ops| - 1];
    ApplyKeeps(s, front);
    StepIsLocal(Apply(s, front), op);
    if i < |front| {
      ApplyWrites(s, front, i);
      assert SameRow(Apply(s, front).rows, Apply(s, ops).rows, OpId(ops[i]));
    }
  }

  lemma LastIsNew(ops: seq<Op>)
    requires DistinctOps(ops) && ops != []
    ensures !Touches(ops[..|ops| - 1], OpId(ops[|ops| - 1]))
  {
    assert forall j :: 0 <= j < |ops| - 1 ==> ops[..|ops| - 1][j] == ops[j];
  }

  lemma {:induction false} ApplyKeepsOnePerRow(s: State, ops: seq<Op>)
    requires Consistent(s) && DistinctOps(ops)
    ensures OnePerRow(Apply(s, ops).remote) <==>
      OnePerRow(s.remote) && forall op :: op in ops && op.Make? ==> !Recorded(s, op.src.id)
  {
    if ops != [] {
      var front, op := ops[..|ops| - 1], ops[|ops| - 1];
      var t := Apply(s, front);
      ApplyKeepsOnePerRow(s, front);
      ApplyKeeps(s, front);
      StepKeepsOnePerRow(t, op);
      assert ops == front + [op];
      LastIsNew(ops);
      assert Recorded(s, OpId(op)) ==> Recorded(t, OpId(op)) by {
        if rid :| rid in s.remote && s.remote[rid].source == OpId(op) {
          assert rid in t.remote;
        }
      }
    }
  }

  lemma {:induction false} MakesAre(rows: map<Id, Row>, sources: seq<Source>, op: Op)
    ensures op in Makes(rows, sources) <==> op.Make? && op.src in sources && PlanOf(rows, op.src) == Create
    ensures op in Refreshes(rows, sources) <==> op.Refresh? && op.src in sources && PlanOf(rows, op.src) == Update
  {
    if sources != [] {
      MakesAre(rows, sources[..|sources| - 1], op);
      assert sources == sources[..|sources| - 1] + [sources[|sources| - 1]];
    }
  }

  lemma {:induction false} DropsAre(rows: map<Id, Row>, retired: seq<Id>, op: Op)
    ensures op in DropsOf(rows, retired) <==> op.Drop? && op.gone in retired && Drops(rows, op.gone)
  {
    if retired != [] {
      DropsAre(rows, retired[..|retired| - 1], op);
      assert retired == retired[..|retired| - 1] + [retired[|retired| - 1]];
    }
  }

  lemma OpsAre(rows: map<Id, Row>, sources: seq<Source>, retired: seq<Id>, op: Op)
    ensures op in Ops(rows, sources, retired) <==>
      if op.Drop? then op.gone in retired && Drops(rows, op.gone)
      else op.src in sources && PlanOf(rows, op.src) == if op.Make? then Create else Update
  {
    MakesAre(rows, sources, op);
    DropsAre(rows, retired, op);
  }

  predicate DistinctIds(ids: seq<Id>) {
    forall i, j :: 0 <= i < j < |ids| ==> ids[i] != ids[j]
  }

  predicate DistinctSources(sources: seq<Source>) {
    forall i, j :: 0 <= i < j < |sources| ==> sources[i].id != sources[j].id
  }

  /** Rows are listed once, and no row is both eligible and retired. */
  predicate Listing(sources: seq<Source>, retired: seq<Id>) {
    DistinctSources(sources) && DistinctIds(retired) && forall src :: src in sources ==> src.id !in retired
  }

  lemma SameSource(sources: seq<Source>)
    requires DistinctSources(sources)
    ensures forall a, b :: a in sources && b in sources && a.id == b.id ==> a == b
  {
  }

  lemma {:induction false} MakesDistinct(rows: map<Id, Row>, sources: seq<Source>)
    requires DistinctSources(sources)
    ensures DistinctOps(Makes(rows, sources)) && DistinctOps(Refreshes(rows, sources))
  {
    if sources != [] {
      var front, src := sources[..|sources| - 1], sources[|sources| - 1];
      MakesDistinct(rows, front);
      forall op | op in Makes(rows, front) || op in Refreshes(rows, front) ensures OpId(op) != src.id {
        MakesAre(rows, front, op);
      }
    }
  }

  lemma {:induction false} DropsDistinct(rows: map<Id, Row>, retired: seq<Id>)
    requires DistinctIds(retired)
    ensures DistinctOps(DropsOf(rows, retired))
  {
    if retired != [] {
      var front, id := retired[..|retired| - 1], retired[|retired| - 1];
      DropsDistinct(rows, front);
      forall op | op in DropsOf(rows, front) ensures OpId(op) != id {
        DropsAre(rows, front, op);
      }
    }
  }

  lemma JoinDistinct(a: seq<Op>, b: seq<Op>)
    requires DistinctOps(a) && DistinctOps(b)
    requires forall x, y :: x in a && y in b ==> OpId(x) != OpId(y)
    ensures DistinctOps(a + b)
  {
    forall i, j | 0 <= i < j < |a + b| ensures OpId((a + b)[i]) != OpId((a + b)[j]) {
      assert i < |a| ==> (a + b)[i] in a;
      assert j >= |a| ==> (a + b)[j] in b;
    }
  }

  /** A run writes each row at most once. */
  lemma OpsDistinct(rows: map<Id, Row>, sources: seq<Source>, retired: seq<Id>)
    requires Listing(sources, retired)
    ensures DistinctOps(Ops(rows, sources, retired))
  {
    MakesDistinct(rows, sources);
    DropsDistinct(rows, retired);
    forall x, y | x in Makes(rows, sources) && y in Refreshes(rows, sources) ensures OpId(x) != OpId(y) {
      MakesAre(rows, sources, x);
      MakesAre(rows, sources, y);
      SameSource(sources);
    }
    JoinDistinct(Makes(rows, sources), Refreshes(rows, sources));
    forall x, y | x in Makes(rows, sources) + Refreshes(rows, sources) && y in DropsOf(rows, retired)
      ensures OpId(x) != OpId(y)
    {
      MakesAre(rows, sources, x);
      DropsAre(rows, retired, y);
    }
    JoinDistinct(Makes(rows, sources) + Refreshes(rows, sources), DropsOf(rows, retired));
  }

  /** A run with the reattached ledger `rows`. */
  ghost predicate IsRunWith(s: State, rows: map<Id, Row>, t: State, sources: seq<Source>, retired: seq<Id>) {
    IsReconciled(s.rows, rows, s.remote, Scanned(s.remote, sources)) && t == Execute(s.(rows := rows), sources, retired)
  }

  /** `t` is what a run makes of `s`: reattach, decide, execute. */
  ghost predicate IsRun(s: State, t: State, sources: seq<Source>, retired: seq<Id>) {
    exists rows :: IsRunWith(s, rows, t, sources, retired)
  }

  // ---- one record per row ----

  /** A run gives the row a second record: either its last write failed although it
      has a record, or the record lies in a namespace the run does not list. */
  ghost predicate Endangered(s: State, sources: seq<Source>, src: Source) {
    if Target(s.rows, src.id).Some? then s.rows[src.id].status in {Pending, Failed}
    else Recorded(s, src.id) && !Found(s.remote, Scanned(s.remote, sources), src.id)
  }

  lemma EndangeredIff(s: State, rows: map<Id, Row>, sources: seq<Source>, src: Source)
    requires Consistent(s) && IsReconciled(s.rows, rows, s.remote, Scanned(s.remote, sources))
    ensures Endangered(s, sources, src) <==> PlanOf(rows, src) == Create && Recorded(s, src.id)
  {
    var listed := Scanned(s.remote, sources);
    if Target(s.rows, src.id).Some? {
      assert s.rows[src.id].target.value in s.remote;
    } else if Found(s.remote, listed, src.id) {
      var rid :| rid in listed && s.remote[rid].source == src.id && GotTarget(s.rows, rows, src.id, rid);
    }
  }

  /** A run keeps one record per row exactly when no eligible row is endangered. */
  lemma RunKeepsOnePerRowIff(s: State, t: State, sources: seq<Source>, retired: seq<Id>)
    requires Consistent(s) && OnePerRow(s.remote) && Listing(sources, retired) && IsRun(s, t, sources, retired)
    ensures OnePerRow(t.remote) <==> forall src :: src in sources ==> !Endangered(s, sources, src)
    ensures Consistent(t)
  {
    var listed := Scanned(s.remote, sources);
    var rows :| IsRunWith(s, rows, t, sources, retired);
    var u := s.(rows := rows);
    ReconcileKeepsConsistent(s, rows, listed);
    var ops := Ops(rows, sources, retired);
    OpsDistinct(rows, sources, retired);
    ApplyKeeps(u, ops);
    ApplyKeepsOnePerRow(u, ops);
    forall src ensures src in sources ==> (Endangered(s, sources, src) <==> Make(src) in ops && Recorded(u, src.id)) {
      EndangeredIff(s, rows, sources, src);
      OpsAre(rows, sources, retired, Make(src));
      assert Recorded(s, src.id) <==> Recorded(u, src.id);
    }
    forall op | op in ops && op.Make? ensures op.src in sources && op == Make(op.src) {
      OpsAre(rows, sources, retired, op);
    }
  }

  /** After the loss of the whole ledger the next run updates, and never creates,
      every eligible row whose record still lies in the row's namespace; so there is
      still one record per row. */
  lemma LedgerLossIsRepaired(s: State, rows: map<Id, Row>, sources: seq<Source>, src: Source)
    requires Consistent(s) && s.rows == map[] && src in sources && src.hash > 0
    requires forall rid :: rid in s.remote && s.remote[rid].source == src.id ==> s.remote[rid].space == src.space
    requires IsReconciled(s.rows, rows, s.remote, Scanned(s.remote, sources))
    ensures PlanOf(rows, src) == if Recorded(s, src.id) then Update else Create
    ensures !Endangered(s, sources, src)
  {
    var listed := Scanned(s.remote, sources);
    if Recorded(s, src.id) {
      var rid :| rid in s.remote && s.remote[rid].source == src.id;
      assert src.space in Spaces(sources);
      assert rid in listed;
      assert Found(s.remote, listed, src.id);
    }
    EndangeredIff(s, rows, sources, src);
  }

  /** A failed update is such a danger: the ledger keeps the target, but the next run
      creates a second record. */
  lemma FailedUpdateIsRecreated(s: State, t: State, sources: seq<Source>, retired: seq<Id>, src: Source)
    requires Consistent(s) && OnePerRow(s.remote) && Listing(sources, retired) && IsRun(s, t, sources, retired)
    requires src in sources && Target(s.rows, src.id).Some? && s.rows[src.id].status == Failed
    ensures !OnePerRow(t.remote)
  {
    RunKeepsOnePerRowIff(s, t, sources, retired);
    assert Endangered(s, sources, src);
  }

  // ---- the second run ----

  /** Every row is written, and every record in the listed namespaces is known. */
  ghost predicate Settled(s: State, sources: seq<Source>, retired: seq<Id>) {
    && (forall src :: src in sources ==> PlanOf(s.rows, src) == Skip)
    && (forall id :: id in retired ==> !Drops(s.rows, id))
    && (forall rid :: rid in Scanned(s.remote, sources) ==> Target(s.rows, s.remote[rid].source).Some?)
  }

  lemma SourceIsSettled(u: State, sources: seq<Source>, retired: seq<Id>, src: Source)
    requires Consistent(u) && Listing(sources, retired) && src in sources
    ensures PlanOf(Execute(u, sources, retired).rows, src) == Skip
  {
    var ops := Ops(u.rows, sources, retired);
    OpsDistinct(u.rows, sources, retired);
    ApplyKeeps(u, ops);
    OpsAre(u.rows, sources, retired, Make(src));
    OpsAre(u.rows, sources, retired, Refresh(src));
    if PlanOf(u.rows, src) == Skip {
      forall op | op in ops ensures OpId(op) != src.id {
        OpsAre(u.rows, sources, retired, op);
        SameSource(sources);
      }
      assert SameRow(u.rows, Apply(u, ops).rows, src.id);
    } else {
      var op := if PlanOf(u.rows, src) == Create then Make(src) else Refresh(src);
      var i :| 0 <= i < |ops| && ops[i] == op;
      ApplyWrites(u, ops, i);
    }
  }

  lemma RetiredIsSettled(u: State, sources: seq<Source>, retired: seq<Id>, id: Id)
    requires Consistent(u) && Listing(sources, retired) && id in retired
    ensures !Drops(Execute(u, sources, retired).rows, id)
  {
    var ops := Ops(u.rows, sources, retired);
    OpsDistinct(u.rows, sources, retired);
    ApplyKeeps(u, ops);
    OpsAre(u.rows, sources, retired, Drop(id));
    if Drops(u.rows, id) {
      var i :| 0 <= i < |ops| && ops[i] == Drop(id);
      ApplyWrites(u, ops, i);
    } else {
      forall op | op in ops ensures OpId(op) != id {
        OpsAre(u.rows, sources, retired, op);
      }
      assert SameRow(u.rows, Apply(u, ops).rows, id);
    }
  }

  lemma RunSettles(s: State, t: State, sources: seq<Source>, retired: seq<Id>)
    requires Consistent(s) && Listing(sources, retired) && IsRun(s, t, sources, retired)
    ensures Settled(t, sources, retired)
  {
    var listed := Scanned(s.remote, sources);
    var rows :| IsRunWith(s, rows, t, sources, retired);
    var u := s.(rows := rows);
    ReconcileKeepsConsistent(s, rows, listed);
    ApplyKeeps(u, Ops(rows, sources, retired));
    forall src | src in sources ensures PlanOf(t.rows, src) == Skip {
      SourceIsSettled(u, sources, retired, src);
    }
    forall id | id in retired ensures !Drops(t.rows, id) {
      RetiredIsSettled(u, sources, retired, id);
    }
    forall rid | rid in Scanned(t.remote, sources) ensures Target(t.rows, t.remote[rid].source).Some? {
      if rid in s.remote {
        assert rid in listed;
        assert Target(rows, s.remote[rid].source).Some? by {
          KnownAfterReconcile(s, rows, listed, rid);
        }
      }
    }
  }

  lemma KnownAfterReconcile(s: State, rows: map<Id, Row>, listed: set<Rid>, rid: Rid)
    requires listed <= s.remote.Keys && IsReconciled(s.rows, rows, s.remote, listed) && rid in listed
    ensures Target(rows, s.remote[rid].source).Some?
  {
    var id := s.remote[rid].source;
    assert Found(s.remote, listed, id);
  }

  lemma SettledNeedsNoReconcile(s: State, rows: map<Id, Row>, sources: seq<Source>, retired: seq<Id>)
    requires Settled(s, sources, retired) && IsReconciled(s.rows, rows, s.remote, Scanned(s.remote, sources))
    ensures rows == s.rows
  {
    forall id ensures SameRow(s.rows, rows, id) {
      assert Target(s.rows, id).Some? || !Found(s.remote, Scanned(s.remote, sources), id);
    }
  }

  lemma HasFirst(ops: seq<Op>)
    ensures ops == [] || ops[0] in ops
  {
  }

  lemma SettledNeedsNoWrite(s: State, sources: seq<Source>, retired: seq<Id>)
    requires Settled(s, sources, retired)
    ensures Ops(s.rows, sources, retired) == [] && Execute(s, sources, retired) == s
  {
    var ops := Ops(s.rows, sources, retired);
    forall op ensures op !in ops {
      OpsAre(s.rows, sources, retired, op);
    }
    HasFirst(ops);
  }

  /** A run over the same rows plans only skips and changes nothing, in the ledger or
      in the remote store. */
  lemma SecondRunWritesNothing(s: State, t: State, u: State, sources: seq<Source>, retired: seq<Id>)
    requires Consistent(s) && Listing(sources, retired)
    requires IsRun(s, t, sources, retired) && IsRun(t, u, sources, retired)
    ensures u == t && forall src :: src in sources ==> PlanOf(t.rows, src) == Skip
  {
    RunSettles(s, t, sources, retired);
    var rows :| IsRunWith(t, rows, u, sources, retired);
    SettledNeedsNoReconcile(t, rows, sources, retired);
    SettledNeedsNoWrite(t, sources, retired);
    assert t.(rows := rows) == t;
  }
}
