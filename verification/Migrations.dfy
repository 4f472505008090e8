/** The migration runner as a system of any number of processes that share one
    `schema_migrations` table. */
module Migrations {

  // Versions are the positions 0 .. n-1 of the sorted migration files, whose version
  // prefixes are distinct. Each action is one atomic statement of one process; a process
  // may crash between any two of them. Scripts are not atomic: one that failed half way
  // may fail for good from then on.

  type Pid = nat

  /** A row is absent, claimed (`applied_at` NULL, here false) or complete (true). */
  type Rows = map<nat, bool>

  /** Where a process is in `apply_migrations`. */
  datatype Pc =
    | Scanning(at: nat)   // about to look at file `at`
    | Holding(at: nat)    // won the claim, before the script
    | Ran(at: nat)        // script done, before the row is completed
    | Releasing(at: nat)  // something failed, before the claim is deleted
    | Waiting(at: nat)    // lost the claim, polling the peer
    | Returned
    | Raised
    | Crashed

  /** `known` is the set of completed versions read at the start, `appliedNow` the
      list the call will return. */
  datatype Proc = Proc(known: set<nat>, appliedNow: seq<nat>, pc: Pc)

  /** `broken` holds the versions whose script raises whenever it is run. */
  datatype System = System(rows: Rows, procs: map<Pid, Proc>, broken: set<nat>)

  datatype Action =
    | Start       // read the completed versions
    | Advance     // skip a known version, try to claim, or return after the last file
    | RunScript
    | Fail(spoils: bool)  // reading the file, the script or the completing update raised;
                          // what the script did before may make it fail for good
    | Complete
    | Release
    | ReleaseFails
    | Poll
    | TimeOut
    | Crash

  function CompletedIn(rows: Rows): set<nat> {
    set v | v in rows && rows[v]
  }

  function With(s: System, p: Pid, proc: Proc): System {
    s.(procs := s.procs[p := proc])
  }

  function Spoiled(s: System, v: nat, spoils: bool): System {
    if spoils then s.(broken := s.broken + {v}) else s
  }

  /** The effect of one action of process `p`; an action that is not enabled does
      nothing. */
  function Do(n: nat, s: System, p: Pid, a: Action): System {
    if a.Start? then
      if p in s.procs then s else With(s, p, Proc(CompletedIn(s.rows), [], Scanning(0)))
    else if p !in s.procs then s
    else
      var proc := s.procs[p];
      match (a, proc.pc)
      case (Advance, Scanning(i)) =>
        if i >= n then With(s, p, proc.(pc := Returned))
        else if i in proc.known then With(s, p, proc.(pc := Scanning(i + 1)))
        else if i in s.rows then With(s, p, proc.(pc := Waiting(i)))       // INSERT OR IGNORE ignored
        else s.(rows := s.rows[i := false], procs := s.procs[p := proc.(pc := Holding(i))])
      case (RunScript, Holding(i)) => if i in s.broken then s else With(s, p, proc.(pc := Ran(i)))
      case (Fail(spoils), Holding(i)) => Spoiled(With(s, p, proc.(pc := Releasing(i))), i, spoils)
      case (Fail(spoils), Ran(i)) => Spoiled(With(s, p, proc.(pc := Releasing(i))), i, spoils)
      case (Complete, Ran(i)) =>
        // UPDATE .. WHERE version: a missing row would not be created
        s.(rows := if i in s.rows then s.rows[i := true] else s.rows,
           procs := s.procs[p := proc.(appliedNow := proc.appliedNow + [i], pc := Scanning(i + 1))])
      case (Release, Releasing(i)) =>
        // DELETE .. WHERE version, whatever the row says
        s.(rows := s.rows - {i}, procs := s.procs[p := proc.(pc := Raised)])
      case (ReleaseFails, Releasing(i)) => With(s, p, proc.(pc := Raised))
      case (Poll, Waiting(i)) =>
        if i !in s.rows then With(s, p, proc.(pc := Scanning(i)))
        else if s.rows[i] then With(s, p, proc.(pc := Scanning(i + 1)))
        else s
      case (TimeOut, Waiting(i)) => With(s, p, proc.(pc := Raised))
      case (Crash, _) => if proc.pc.Returned? || proc.pc.Raised? then s else With(s, p, proc.(pc := Crashed))
      case _ => s
  }

  // ---- the invariant ----

  predicate Critical(pc: Pc) {
    pc.Holding? || pc.Ran? || pc.Releasing?
  }

  predicate Positioned(pc: Pc) {
    Critical(pc) || pc.Scanning? || pc.Waiting?
  }

  predicate IsComplete(rows: Rows, v: nat) {
    v in rows && rows[v]
  }

  predicate IsClaim(rows: Rows, v: nat) {
    v in rows && !rows[v]
  }

  predicate CompleteBelow(rows: Rows, v: nat) {
    forall u: nat :: u < v ==> IsComplete(rows, u)
  }

  /** Every row, claimed or complete, has only complete rows below it. */
  predicate PrefixRows(n: nat, rows: Rows) {
    forall v :: v in rows ==> v < n && CompleteBelow(rows, v)
  }

  predicate ProcInv(n: nat, rows: Rows, proc: Proc) {
    && (forall v :: v in proc.known ==> IsComplete(rows, v))
    && (forall k :: 0 <= k < |proc.appliedNow| ==> IsComplete(rows, proc.appliedNow[k]))
    && (forall j, k :: 0 <= j < k < |proc.appliedNow| ==> proc.appliedNow[j] < proc.appliedNow[k])
    && (Positioned(proc.pc) ==>
          && proc.pc.at <= n
          && CompleteBelow(rows, proc.pc.at)
          && forall k :: 0 <= k < |proc.appliedNow| ==> proc.appliedNow[k] < proc.pc.at)
    && (Critical(proc.pc) ==> IsClaim(rows, proc.pc.at))
    && (proc.pc.Returned? ==> CompleteBelow(rows, n))
  }

  predicate Exclusive(procs: map<Pid, Proc>) {
    forall p, q :: p in procs && q in procs && p != q ==>
      && !(Critical(procs[p].pc) && Critical(procs[q].pc))
      && forall v :: v in procs[p].appliedNow ==> v !in procs[q].appliedNow
  }

  predicate Inv(n: nat, s: System) {
    && PrefixRows(n, s.rows)
    && (forall p :: p in s.procs ==> ProcInv(n, s.rows, s.procs[p]))
    && Exclusive(s.procs)
    && (forall p :: p in s.procs && s.procs[p].pc.Ran? ==> s.procs[p].pc.at !in s.broken)
  }

  lemma OneClaim(n: nat, rows: Rows, v: nat, w: nat)
    requires PrefixRows(n, rows) && IsClaim(rows, v) && IsClaim(rows, w)
    ensures v == w
  {
    assert !IsComplete(rows, v) && !IsComplete(rows, w);
  }

  /** The position right after the completed prefix being free, nothing is claimed. */
  lemma NoClaim(n: nat, rows: Rows, i: nat, j: nat)
    requires PrefixRows(n, rows) && CompleteBelow(rows, i) && i !in rows
    ensures !IsClaim(rows, j)
  {
    assert !IsComplete(rows, i);
    assert j < i ==> IsComplete(rows, j);
  }

  lemma BelowGrows(before: Rows, after: Rows, v: nat)
    requires CompleteBelow(before, v)
    requires forall u :: IsComplete(before, u) ==> IsComplete(after, u)
    ensures CompleteBelow(after, v)
  {
  }

  /** Completed rows stay, and a critical process keeps its claim. */
  lemma ProcFrame(n: nat, before: Rows, after: Rows, proc: Proc)
    requires ProcInv(n, before, proc)
    requires forall v :: IsComplete(before, v) ==> IsComplete(after, v)
    requires Critical(proc.pc) ==> IsClaim(after, proc.pc.at)
    ensures ProcInv(n, after, proc)
  {
  }

  /** A process moves without touching the table, not into the critical section
      from outside, and returns nothing new. */
  lemma LocalMove(n: nat, s: System, p: Pid, proc: Proc)
    requires Inv(n, s) && p in s.procs && ProcInv(n, s.rows, proc)
    requires proc.appliedNow == s.procs[p].appliedNow
    requires Critical(proc.pc) ==> Critical(s.procs[p].pc)
    requires proc.pc.Ran? ==> proc.pc.at !in s.broken
    ensures Inv(n, With(s, p, proc))
  {
  }

  lemma StartKeeps(n: nat, s: System, p: Pid)
    requires Inv(n, s)
    ensures Inv(n, Do(n, s, p, Start))
  {
    assert p !in s.procs ==> ProcInv(n, s.rows, Proc(CompletedIn(s.rows), [], Scanning(0)));
  }

  lemma ClaimKeeps(n: nat, s: System, p: Pid)
    requires Inv(n, s) && p in s.procs && s.procs[p].pc.Scanning?
    requires var i := s.procs[p].pc.at; i < n && i !in s.procs[p].known && i !in s.rows
    ensures Inv(n, Do(n, s, p, Advance))
  {
    var i := s.procs[p].pc.at;
    var after := Do(n, s, p, Advance);
    assert ProcInv(n, s.rows, s.procs[p]);
    forall q | q in s.procs ensures !Critical(s.procs[q].pc) {
      assert ProcInv(n, s.rows, s.procs[q]);
      if Positioned(s.procs[q].pc) { NoClaim(n, s.rows, i, s.procs[q].pc.at); }
    }
    forall v | IsComplete(s.rows, v) ensures IsComplete(after.rows, v) {}
    forall q | q in after.procs ensures ProcInv(n, after.rows, after.procs[q]) {
      ProcFrame(n, s.rows, after.rows, s.procs[q]);
    }
  }

  lemma CompleteKeepsExclusive(n: nat, s: System, p: Pid)
    requires Inv(n, s) && p in s.procs && s.procs[p].pc.Ran?
    ensures Exclusive(Do(n, s, p, Complete).procs)
  {
    var i := s.procs[p].pc.at;
    assert ProcInv(n, s.rows, s.procs[p]);
    forall q | q in s.procs && q != p ensures i !in s.procs[q].appliedNow {
      assert ProcInv(n, s.rows, s.procs[q]);
    }
  }

  lemma CompleteKeeps(n: nat, s: System, p: Pid)
    requires Inv(n, s) && p in s.procs && s.procs[p].pc.Ran?
    ensures Inv(n, Do(n, s, p, Complete))
  {
    var i := s.procs[p].pc.at;
    var after := Do(n, s, p, Complete);
    assert ProcInv(n, s.rows, s.procs[p]);
    assert after.rows == s.rows[i := true];
    forall v | v in after.rows ensures CompleteBelow(after.rows, v) { BelowGrows(s.rows, after.rows, v); }
    forall u: nat | u < i + 1 ensures IsComplete(after.rows, u) {
      assert u < i ==> IsComplete(s.rows, u);
    }
    forall q | q in after.procs && q != p ensures ProcInv(n, after.rows, after.procs[q]) {
      ProcFrame(n, s.rows, after.rows, s.procs[q]);
    }
    CompleteKeepsExclusive(n, s, p);
  }

  lemma ReleaseKeeps(n: nat, s: System, p: Pid)
    requires Inv(n, s) && p in s.procs && s.procs[p].pc.Releasing?
    ensures Inv(n, Do(n, s, p, Release))
  {
    var i := s.procs[p].pc.at;
    var after := Do(n, s, p, Release);
    assert ProcInv(n, s.rows, s.procs[p]);
    assert !IsComplete(s.rows, i);
    forall u | IsComplete(s.rows, u) ensures IsComplete(after.rows, u) {}
    forall v | v in after.rows ensures v < n && CompleteBelow(after.rows, v) {
      BelowGrows(s.rows, after.rows, v);
    }
    forall q | q in after.procs ensures ProcInv(n, after.rows, after.procs[q]) {
      ProcFrame(n, s.rows, after.rows, if q == p then after.procs[p] else s.procs[q]);
    }
  }

  lemma AdvanceKeeps(n: nat, s: System, p: Pid)
    requires Inv(n, s) && p in s.procs && s.procs[p].pc.Scanning?
    ensures Inv(n, Do(n, s, p, Advance))
  {
    var proc := s.procs[p];
    var i := proc.pc.at;
    assert ProcInv(n, s.rows, proc);
    if i < n && i !in proc.known && i !in s.rows { ClaimKeeps(n, s, p); }
    else {
      if i in proc.known { assert IsComplete(s.rows, i); }
      LocalMove(n, s, p, Do(n, s, p, Advance).procs[p]);
    }
  }

  lemma PollKeeps(n: nat, s: System, p: Pid)
    requires Inv(n, s) && p in s.procs && s.procs[p].pc.Waiting?
    ensures Inv(n, Do(n, s, p, Poll))
  {
    var i := s.procs[p].pc.at;
    assert ProcInv(n, s.rows, s.procs[p]);
    if i in s.rows && s.rows[i] { assert IsComplete(s.rows, i); }
    LocalMove(n, s, p, Do(n, s, p, Poll).procs[p]);
  }

  /** A failed script may be broken from now on; nobody else has run it. */
  lemma FailKeeps(n: nat, s: System, p: Pid, spoils: bool)
    requires Inv(n, s) && p in s.procs && Critical(s.procs[p].pc) && !s.procs[p].pc.Releasing?
    ensures Inv(n, Do(n, s, p, Fail(spoils)))
  {
    assert ProcInv(n, s.rows, s.procs[p]);
    var i := s.procs[p].pc.at;
    var moved := With(s, p, s.procs[p].(pc := Releasing(i)));
    LocalMove(n, s, p, moved.procs[p]);
    assert forall q :: q in moved.procs ==> !moved.procs[q].pc.Ran?;
    assert Do(n, s, p, Fail(spoils)) == Spoiled(moved, i, spoils);
  }

  /** Actions of one process that leave the table alone. */
  lemma QuietKeeps(n: nat, s: System, p: Pid, a: Action)
    requires Inv(n, s) && p in s.procs
    requires a.RunScript? || a.ReleaseFails? || a.TimeOut? || a.Crash?
    ensures Inv(n, Do(n, s, p, a))
  {
    assert ProcInv(n, s.rows, s.procs[p]);
    if Do(n, s, p, a) != s { LocalMove(n, s, p, Do(n, s, p, a).procs[p]); }
  }

  lemma DoKeepsInv(n: nat, s: System, p: Pid, a: Action)
    requires Inv(n, s)
    ensures Inv(n, Do(n, s, p, a))
  {
    if a.Start? { StartKeeps(n, s, p); }
    else if p in s.procs {
      match (a, s.procs[p].pc)
      case (Advance, Scanning(i)) => AdvanceKeeps(n, s, p);
      case (Complete, Ran(i)) => CompleteKeeps(n, s, p);
      case (Release, Releasing(i)) => ReleaseKeeps(n, s, p);
      case (Poll, Waiting(i)) => PollKeeps(n, s, p);
      case (Fail(spoils), _) =>
        if Critical(s.procs[p].pc) && !s.procs[p].pc.Releasing? { FailKeeps(n, s, p, spoils); }
      case _ =>
        if a.RunScript? || a.ReleaseFails? || a.TimeOut? || a.Crash? { QuietKeeps(n, s, p, a); }
    }
  }

  // ---- runs ----

  datatype Turn = Turn(p: Pid, a: Action)

  function Execute(n: nat, s: System, turns: seq<Turn>): System {
    if |turns| == 0 then s
    else
      var k := |turns| - 1;
      Do(n, Execute(n, s, turns[..k]), turns[k].p, turns[k].a)
  }

  /** The empty table; some scripts may be broken from the start. */
  function Fresh(broken: set<nat>): System {
    System(map[], map[], broken)
  }

  lemma {:induction false} EveryRunKeepsInv(n: nat, s: System, turns: seq<Turn>)
    requires Inv(n, s)
    ensures Inv(n, Execute(n, s, turns))
  {
    if |turns| > 0 {
      var k := |turns| - 1;
      EveryRunKeepsInv(n, s, turns[..k]);
      DoKeepsInv(n, Execute(n, s, turns[..k]), turns[k].p, turns[k].a);
    }
  }

  /** In every interleaving with failures and crashes: the completed versions are a
      prefix of the files, at most one claim is unfinished and it sits right after
      that prefix, no two processes are inside the critical section, no version is
      returned as applied twice, and a process that returned found every version
      complete. */
  lemma MigrationSafety(n: nat, broken: set<nat>, turns: seq<Turn>) returns (k: nat)
    ensures var s := Execute(n, Fresh(broken), turns);
      && k <= n
      && (forall v: nat :: IsComplete(s.rows, v) <==> v < k)
      && (forall v: nat :: IsClaim(s.rows, v) ==> v == k < n)
      && (forall p, q :: p in s.procs && q in s.procs && Critical(s.procs[p].pc) && Critical(s.procs[q].pc) ==> p == q)
      && (forall p, q, v :: p in s.procs && q in s.procs && v in s.procs[p].appliedNow && v in s.procs[q].appliedNow ==> p == q)
      && (forall p :: p in s.procs && s.procs[p].pc.Returned? ==> k == n)
  {
    EveryRunKeepsInv(n, Fresh(broken), turns);
    var s := Execute(n, Fresh(broken), turns);
    k := PrefixLength(n, s.rows, n);
    assert !IsComplete(s.rows, k);
    forall v: nat | IsClaim(s.rows, v) ensures v == k { assert !IsComplete(s.rows, v); }
    forall p | p in s.procs && s.procs[p].pc.Returned? ensures k == n {
      assert ProcInv(n, s.rows, s.procs[p]);
    }
  }

  /** The number of completed versions below `bound`, which form a prefix. */
  lemma {:induction false} PrefixLength(n: nat, rows: Rows, bound: nat) returns (k: nat)
    requires PrefixRows(n, rows) && bound <= n
    ensures k <= bound && forall v: nat :: v < bound ==> (IsComplete(rows, v) <==> v < k)
    ensures forall v: nat :: IsComplete(rows, v) ==> v < n
  {
    if bound == 0 { k := 0; }
    else {
      k := PrefixLength(n, rows, bound - 1);
      if IsComplete(rows, bound - 1) {
        assert CompleteBelow(rows, bound - 1);
        forall v: nat | v < bound - 1 ensures IsComplete(rows, v) {}
        assert k == bound - 1 by { assert bound > 1 ==> IsComplete(rows, bound - 2); }
        k := bound;
      }
    }
  }

  /** Completion is permanent. */
  lemma {:induction false} CompletionIsPermanent(n: nat, s: System, turns: seq<Turn>, v: nat)
    requires Inv(n, s) && IsComplete(s.rows, v)
    ensures IsComplete(Execute(n, s, turns).rows, v)
  {
    if |turns| > 0 {
      var k := |turns| - 1;
      var before := Execute(n, s, turns[..k]);
      CompletionIsPermanent(n, s, turns[..k], v);
      EveryRunKeepsInv(n, s, turns[..k]);
      assert turns[k].p in before.procs ==> ProcInv(n, before.rows, before.procs[turns[k].p]);
    }
  }

  // ---- what a crash inside the critical section costs ----

  /** A claim that no live process holds. */
  predicate Orphaned(s: System, v: nat) {
    IsClaim(s.rows, v) && forall p :: p in s.procs ==> !Critical(s.procs[p].pc)
  }

  lemma OrphanStep(n: nat, s: System, p: Pid, a: Action, v: nat)
    requires Inv(n, s) && Orphaned(s, v)
    ensures var after := Do(n, s, p, a);
      && Orphaned(after, v) && after.rows == s.rows
      && (p in after.procs ==> !after.procs[p].pc.Returned?)
  {
    if p in s.procs {
      var proc := s.procs[p];
      assert ProcInv(n, s.rows, proc);
      assert v < n;
      assert !IsComplete(s.rows, v);
      if proc.pc.Scanning? { assert proc.pc.at < v ==> IsComplete(s.rows, proc.pc.at); }
    }
  }

  /** Once a holder dies, the table never changes again and no process, running or
      started later, ever returns: each one ends raising or waiting. */
  lemma {:induction false} OrphanBlocksForever(n: nat, s: System, turns: seq<Turn>, v: nat)
    requires Inv(n, s) && Orphaned(s, v)
    ensures var after := Execute(n, s, turns);
      && Orphaned(after, v) && after.rows == s.rows
      && forall p :: p in after.procs ==> !after.procs[p].pc.Returned?
  {
    if |turns| > 0 {
      var k := |turns| - 1;
      OrphanBlocksForever(n, s, turns[..k], v);
      EveryRunKeepsInv(n, s, turns[..k]);
      OrphanStep(n, Execute(n, s, turns[..k]), turns[k].p, turns[k].a, v);
    } else {
      forall p | p in s.procs ensures !s.procs[p].pc.Returned? {
        assert ProcInv(n, s.rows, s.procs[p]);
        assert v < n && !IsComplete(s.rows, v);
      }
    }
  }

  // ---- without deaths, a claim always has a live holder ----

  predicate Deathless(turns: seq<Turn>) {
    forall k :: 0 <= k < |turns| ==> !turns[k].a.Crash? && !turns[k].a.ReleaseFails?
  }

  predicate HeldBy(s: System, v: nat, p: Pid) {
    p in s.procs && Critical(s.procs[p].pc) && s.procs[p].pc.at == v
  }

  ghost predicate ClaimsHeld(s: System) {
    forall v :: IsClaim(s.rows, v) ==> exists p :: HeldBy(s, v, p)
  }

  lemma StepKeepsHeld(n: nat, s: System, p: Pid, a: Action)
    requires ClaimsHeld(s) && !a.Crash? && !a.ReleaseFails?
    ensures ClaimsHeld(Do(n, s, p, a))
  {
    var after := Do(n, s, p, a);
    forall v | IsClaim(after.rows, v) ensures exists q :: HeldBy(after, v, q) {
      if IsClaim(s.rows, v) {
        var q :| HeldBy(s, v, q);
        assert HeldBy(after, v, q);
      } else {
        assert HeldBy(after, v, p);
      }
    }
  }

  /** Unless a process dies or fails to release, whoever waits waits on a process
      that is still at work. */
  lemma {:induction false} WaitersWaitOnTheLiving(n: nat, broken: set<nat>, turns: seq<Turn>)
    requires Deathless(turns)
    ensures ClaimsHeld(Execute(n, Fresh(broken), turns))
  {
    if |turns| > 0 {
      var k := |turns| - 1;
      WaitersWaitOnTheLiving(n, broken, turns[..k]);
      StepKeepsHeld(n, Execute(n, Fresh(broken), turns[..k]), turns[k].p, turns[k].a);
    }
  }

  // ---- a dead holder and a broken script are all that blocks ----

  ghost predicate Reaches(n: nat, s: System, t: System) {
    exists turns :: Execute(n, s, turns) == t
  }

  lemma {:induction false} ExecuteConcat(n: nat, s: System, a: seq<Turn>, b: seq<Turn>)
    ensures Execute(n, s, a + b) == Execute(n, Execute(n, s, a), b)
  {
    if b == [] {
      assert a + b == a;
    } else {
      var front := b[..|b| - 1];
      ExecuteConcat(n, s, a, front);
      assert (a + b)[..|a + b| - 1] == a + front;
    }
  }

  lemma ReachesStep(n: nat, s: System, t: System, p: Pid, a: Action)
    requires Reaches(n, s, t)
    ensures Reaches(n, s, Do(n, t, p, a))
  {
    var turns :| Execute(n, s, turns) == t;
    var more := turns + [Turn(p, a)];
    assert more[..|more| - 1] == turns;
    assert Execute(n, s, more) == Do(n, t, p, a);
  }

  lemma ReachesBoth(n: nat, s: System, t: System, u: System)
    requires Reaches(n, s, t) && Reaches(n, t, u)
    ensures Reaches(n, s, u)
  {
    var a :| Execute(n, s, a) == t;
    var b :| Execute(n, t, b) == u;
    ExecuteConcat(n, s, a, b);
  }

  predicate AllComplete(rows: Rows) {
    forall v :: v in rows ==> rows[v]
  }

  /** Every other version that has a row is complete. */
  predicate OnlyClaim(rows: Rows, i: nat) {
    forall v :: v in rows && v != i ==> rows[v]
  }

  lemma ReachesItself(n: nat, s: System)
    ensures Reaches(n, s, s)
  {
    assert Execute(n, s, []) == s;
  }

  /** One death inside the critical section is enough for an orphaned claim: a crash,
      or a release that fails. */
  lemma OrphanIsReachable(n: nat, broken: set<nat>, p: Pid) returns (dead: System, unreleased: System)
    requires n >= 1
    ensures Reaches(n, Fresh(broken), dead) && Orphaned(dead, 0)
    ensures Reaches(n, Fresh(broken), unreleased) && Orphaned(unreleased, 0)
    ensures p in unreleased.procs && unreleased.procs[p].pc.Raised?
  {
    var held := ClaimIsReachable(n, broken, p);
    ReachesStep(n, Fresh(broken), held, p, Crash);
    dead := Do(n, held, p, Crash);
    ReachesStep(n, Fresh(broken), held, p, Fail(false));
    var failed := Do(n, held, p, Fail(false));
    ReachesStep(n, Fresh(broken), failed, p, ReleaseFails);
    unreleased := Do(n, failed, p, ReleaseFails);
  }

  /** One script that fails half way is enough for a broken one: its claim is released,
      and still no process can return. */
  lemma SpoiledIsReachable(n: nat, p: Pid) returns (spoiled: System)
    requires n >= 1
    ensures Reaches(n, Fresh({}), spoiled) && spoiled.rows == map[] && spoiled.broken == {0}
    ensures forall t :: Reaches(n, spoiled, t) ==> forall q :: q in t.procs ==> !t.procs[q].pc.Returned?
  {
    var held := ClaimIsReachable(n, {}, p);
    ReachesStep(n, Fresh({}), held, p, Fail(true));
    var failed := Do(n, held, p, Fail(true));
    ReachesStep(n, Fresh({}), failed, p, Release);
    spoiled := Do(n, failed, p, Release);
    var turns :| Execute(n, Fresh({}), turns) == spoiled;
    EveryRunKeepsInv(n, Fresh({}), turns);
    forall t | Reaches(n, spoiled, t) ensures forall q :: q in t.procs ==> !t.procs[q].pc.Returned? {
      var more :| Execute(n, spoiled, more) == t;
      BrokenBlocksForever(n, spoiled, more, 0);
    }
  }

  lemma ClaimIsReachable(n: nat, broken: set<nat>, p: Pid) returns (held: System)
    requires n >= 1
    ensures Reaches(n, Fresh(broken), held) && held == System(map[0 := false], map[p := Proc({}, [], Holding(0))], broken)
  {
    ReachesItself(n, Fresh(broken));
    ReachesStep(n, Fresh(broken), Fresh(broken), p, Start);
    assert CompletedIn(map[]) == {};
    var started := Do(n, Fresh(broken), p, Start);
    ReachesStep(n, Fresh(broken), started, p, Advance);
    held := Do(n, started, p, Advance);
  }

  /** Every version whose script is broken is complete. */
  predicate Runnable(n: nat, s: System) {
    forall v :: v in s.broken && v < n ==> IsComplete(s.rows, v)
  }

  predicate Ready(n: nat, s: System) {
    Inv(n, s) && Runnable(n, s)
  }

  lemma DoKeepsReady(n: nat, s: System, p: Pid, a: Action)
    requires Ready(n, s) && !a.Fail?
    ensures Ready(n, Do(n, s, p, a))
  {
    DoKeepsInv(n, s, p, a);
    assert p in s.procs ==> ProcInv(n, s.rows, s.procs[p]);
  }

  /** A script that ran can be recorded as complete. */
  lemma RanPasses(n: nat, s: System, p: Pid, i: nat) returns (t: System)
    requires Ready(n, s) && p in s.procs && s.procs[p].pc == Ran(i)
    requires OnlyClaim(s.rows, i)
    ensures Reaches(n, s, t) && Ready(n, t) && AllComplete(t.rows) && t.procs.Keys == s.procs.Keys
    ensures t.procs[p].pc == Scanning(i + 1)
  {
    ReachesItself(n, s);
    StepOn(n, s, s, p, Complete);
    t := Do(n, s, p, Complete);
  }

  /** The script of an unfinished version runs when no such script is broken. */
  lemma ScriptRuns(n: nat, s: System, p: Pid, i: nat) returns (ran: System)
    requires Ready(n, s) && p in s.procs && s.procs[p].pc == Holding(i)
    ensures Reaches(n, s, ran) && Ready(n, ran) && ran.rows == s.rows && ran.procs.Keys == s.procs.Keys
    ensures ran.procs[p].pc == Ran(i)
  {
    assert ProcInv(n, s.rows, s.procs[p]);
    assert !IsComplete(s.rows, i);
    ReachesItself(n, s);
    StepOn(n, s, s, p, RunScript);
    ran := Do(n, s, p, RunScript);
  }

  /** A claim that was just won can be completed. */
  lemma WinnerPasses(n: nat, s: System, p: Pid, i: nat) returns (t: System)
    requires Ready(n, s) && p in s.procs && s.procs[p].pc == Holding(i)
    requires OnlyClaim(s.rows, i)
    ensures Reaches(n, s, t) && Ready(n, t) && AllComplete(t.rows) && t.procs.Keys == s.procs.Keys
    ensures t.procs[p].pc == Scanning(i + 1)
  {
    var ran := ScriptRuns(n, s, p, i);
    t := RanPasses(n, ran, p, i);
    ReachesBoth(n, s, ran, t);
  }

  /** The holder of a claim can always finish: it completes its version, or releases
      it. */
  lemma HolderFinishes(n: nat, s: System, v: nat, q: Pid) returns (t: System)
    requires Ready(n, s) && IsClaim(s.rows, v) && HeldBy(s, v, q)
    ensures Reaches(n, s, t) && Ready(n, t) && AllComplete(t.rows) && t.procs.Keys == s.procs.Keys
  {
    forall w | w in s.rows && w != v ensures s.rows[w] {
      if !s.rows[w] {
        OneClaim(n, s.rows, v, w);
      }
    }
    if s.procs[q].pc.Holding? {
      t := WinnerPasses(n, s, q, v);
    } else if s.procs[q].pc.Ran? {
      t := RanPasses(n, s, q, v);
    } else {
      ReachesItself(n, s);
      StepOn(n, s, s, q, Release);
      t := Do(n, s, q, Release);
    }
  }

  /** Without unfinished claims a scanning process skips the next version, finds it
      complete, or claims it. */
  lemma AdvanceOutcome(n: nat, s: System, p: Pid)
    requires AllComplete(s.rows) && p in s.procs && s.procs[p].pc.Scanning? && s.procs[p].pc.at < n
    ensures var i, next := s.procs[p].pc.at, Do(n, s, p, Advance);
      && p in next.procs
      && (next.procs[p].pc != Holding(i) ==> next.rows == s.rows)
      && (next.procs[p].pc == Scanning(i + 1)
          || (next.procs[p].pc == Waiting(i) && i in next.rows)
          || (next.procs[p].pc == Holding(i) && OnlyClaim(next.rows, i)))
  {
  }

  lemma StepOn(n: nat, s: System, t: System, p: Pid, a: Action)
    requires Reaches(n, s, t) && Ready(n, t) && !a.Fail?
    ensures Reaches(n, s, Do(n, t, p, a)) && Ready(n, Do(n, t, p, a))
  {
    ReachesStep(n, s, t, p, a);
    DoKeepsReady(n, t, p, a);
  }

  lemma PollPasses(n: nat, s: System, p: Pid) returns (t: System)
    requires Ready(n, s) && AllComplete(s.rows) && p in s.procs
    requires s.procs[p].pc.Waiting? && s.procs[p].pc.at in s.rows
    ensures Reaches(n, s, t) && Ready(n, t) && AllComplete(t.rows)
    ensures p in t.procs && t.procs[p].pc == Scanning(s.procs[p].pc.at + 1)
  {
    ReachesItself(n, s);
    StepOn(n, s, s, p, Poll);
    t := Do(n, s, p, Poll);
  }

  /** Without unfinished claims a scanning process can get past the next version. */
  lemma PassesOne(n: nat, s: System, p: Pid) returns (t: System)
    requires Ready(n, s) && AllComplete(s.rows) && p in s.procs && s.procs[p].pc.Scanning? && s.procs[p].pc.at < n
    ensures Reaches(n, s, t) && Ready(n, t) && AllComplete(t.rows)
    ensures p in t.procs && t.procs[p].pc == Scanning(s.procs[p].pc.at + 1)
  {
    var next := AdvanceOn(n, s, p);
    t := FinishesOne(n, next, p, s.procs[p].pc.at);
    ReachesBoth(n, s, next, t);
  }

  lemma FinishesOne(n: nat, s: System, p: Pid, i: nat) returns (t: System)
    requires Ready(n, s) && p in s.procs
    requires s.procs[p].pc != Holding(i) ==> AllComplete(s.rows)
    requires s.procs[p].pc == Scanning(i + 1) || (s.procs[p].pc == Waiting(i) && i in s.rows)
      || (s.procs[p].pc == Holding(i) && OnlyClaim(s.rows, i))
    ensures Reaches(n, s, t) && Ready(n, t) && AllComplete(t.rows)
    ensures p in t.procs && t.procs[p].pc == Scanning(i + 1)
  {
    if s.procs[p].pc.Waiting? {
      t := PollPasses(n, s, p);
    } else if s.procs[p].pc.Holding? {
      t := WinnerPasses(n, s, p, i);
    } else {
      ReachesItself(n, s);
      t := s;
    }
  }

  lemma AdvanceOn(n: nat, s: System, p: Pid) returns (next: System)
    requires Ready(n, s) && AllComplete(s.rows) && p in s.procs && s.procs[p].pc.Scanning? && s.procs[p].pc.at < n
    ensures Reaches(n, s, next) && Ready(n, next) && p in next.procs
    ensures var i := s.procs[p].pc.at;
      && (next.procs[p].pc != Holding(i) ==> next.rows == s.rows)
      && (next.procs[p].pc == Scanning(i + 1)
          || (next.procs[p].pc == Waiting(i) && i in next.rows)
          || (next.procs[p].pc == Holding(i) && OnlyClaim(next.rows, i)))
  {
    ReachesItself(n, s);
    StepOn(n, s, s, p, Advance);
    AdvanceOutcome(n, s, p);
    next := Do(n, s, p, Advance);
  }

  lemma {:induction false} ScanFinishes(n: nat, s: System, p: Pid) returns (t: System)
    requires Ready(n, s) && AllComplete(s.rows) && p in s.procs && s.procs[p].pc.Scanning? && s.procs[p].pc.at <= n
    ensures Reaches(n, s, t) && p in t.procs && t.procs[p].pc.Returned?
    decreases n - s.procs[p].pc.at
  {
    if s.procs[p].pc.at == n {
      ReachesItself(n, s);
      ReachesStep(n, s, s, p, Advance);
      t := Do(n, s, p, Advance);
    } else {
      var next := PassesOne(n, s, p);
      t := ScanFinishes(n, next, p);
      ReachesBoth(n, s, next, t);
    }
  }

  lemma NewcomerFinishes(n: nat, s: System, p: Pid) returns (t: System)
    requires Ready(n, s) && ClaimsHeld(s) && p !in s.procs
    ensures Reaches(n, s, t) && p in t.procs && t.procs[p].pc.Returned?
  {
    var free := s;
    ReachesItself(n, s);
    if v :| IsClaim(s.rows, v) {
      var q :| HeldBy(s, v, q);
      free := HolderFinishes(n, s, v, q);
    } else {
      forall v | v in s.rows ensures s.rows[v] {
        assert !IsClaim(s.rows, v);
      }
    }
    ReachesStep(n, s, free, p, Start);
    DoKeepsReady(n, free, p, Start);
    t := ScanFinishes(n, Do(n, free, p, Start), p);
    ReachesBoth(n, s, Do(n, free, p, Start), t);
  }

  lemma UnheldIsOrphaned(n: nat, s: System, v: nat)
    requires Inv(n, s) && IsClaim(s.rows, v)
    ensures Orphaned(s, v) <==> !exists p :: HeldBy(s, v, p)
  {
    forall p | p in s.procs && Critical(s.procs[p].pc) ensures HeldBy(s, v, p) {
      assert ProcInv(n, s.rows, s.procs[p]);
      OneClaim(n, s.rows, v, s.procs[p].pc.at);
    }
  }

  /** A version whose script is broken before it is complete never becomes complete,
      so no process ever returns. */
  lemma {:induction false} BrokenBlocksForever(n: nat, s: System, turns: seq<Turn>, v: nat)
    requires Inv(n, s) && v < n && v in s.broken && !IsComplete(s.rows, v)
    ensures var after := Execute(n, s, turns);
      && v in after.broken && !IsComplete(after.rows, v)
      && forall p :: p in after.procs ==> !after.procs[p].pc.Returned?
  {
    EveryRunKeepsInv(n, s, turns);
    if |turns| > 0 {
      var k := |turns| - 1;
      BrokenBlocksForever(n, s, turns[..k], v);
      EveryRunKeepsInv(n, s, turns[..k]);
      BrokenStaysIncomplete(n, Execute(n, s, turns[..k]), turns[k].p, turns[k].a, v);
    }
    forall p | p in Execute(n, s, turns).procs ensures !Execute(n, s, turns).procs[p].pc.Returned? {
      assert ProcInv(n, Execute(n, s, turns).rows, Execute(n, s, turns).procs[p]);
    }
  }

  lemma BrokenStaysIncomplete(n: nat, s: System, p: Pid, a: Action, v: nat)
    requires Inv(n, s) && v in s.broken && !IsComplete(s.rows, v)
    ensures v in Do(n, s, p, a).broken && !IsComplete(Do(n, s, p, a).rows, v)
  {
  }

  /** From every reachable state, a process started now can still return, in some
      continuation, exactly when no claim is orphaned and every version with a broken
      script is complete. */
  lemma NewcomerReturnsIff(n: nat, s: System, p: Pid)
    requires Inv(n, s) && p !in s.procs
    ensures (exists t :: Reaches(n, s, t) && p in t.procs && t.procs[p].pc.Returned?)
      <==> (forall v: nat :: !Orphaned(s, v)) && Runnable(n, s)
  {
    if v: nat :| Orphaned(s, v) {
      forall t | Reaches(n, s, t) ensures !(p in t.procs && t.procs[p].pc.Returned?) {
        var turns :| Execute(n, s, turns) == t;
        OrphanBlocksForever(n, s, turns, v);
      }
    } else if !Runnable(n, s) {
      var v :| v in s.broken && v < n && !IsComplete(s.rows, v);
      forall t | Reaches(n, s, t) ensures !(p in t.procs && t.procs[p].pc.Returned?) {
        var turns :| Execute(n, s, turns) == t;
        BrokenBlocksForever(n, s, turns, v);
      }
    } else {
      forall v | IsClaim(s.rows, v) ensures exists q :: HeldBy(s, v, q) {
        UnheldIsOrphaned(n, s, v);
      }
      var t := NewcomerFinishes(n, s, p);
    }
  }

  // ---- one process on its own ----

  function Range(low: nat, high: nat): seq<nat>
    requires low <= high
  {
    seq(high - low, i requires 0 <= i < high - low => low + i)
  }

  class MigrationRunner {
    var rows: Rows

    constructor ()
      ensures rows == map[]
    {
      rows := map[];
    }

    method TryClaim(v: nat) returns (won: bool)
      modifies this
      ensures won <==> v !in old(rows)
      ensures rows == if won then old(rows)[v := false] else old(rows)
    {
      won := v !in rows;
      if won { rows := rows[v := false]; }
    }

    /** `_apply_one` with no live peer: a script in `broken` raises, and so does
        waiting for a claim whose holder is gone. */
    method ApplyOne(v: nat, broken: set<nat>) returns (ok: bool, ran: bool)
      modifies this
      ensures ok <==> if v in old(rows) then old(rows)[v] else v !in broken
      ensures ran <==> v !in old(rows) && v !in broken
      ensures rows == if ran then old(rows)[v := true] else old(rows)
    {
      var won := TryClaim(v);
      if won {
        if v in broken {
          rows := rows - {v};
          return false, false;
        }
        rows := rows[v := true];
        return true, true;
      }
      ok, ran := rows[v], false;
    }

    /** A call with no live peer applies, in order, every version from the completed
        prefix up to the first broken one, and returns normally exactly when nothing
        stands in the way of the last. */
    method ApplyMigrations(n: nat, broken: set<nat>, ghost done: nat) returns (ok: bool, appliedNow: seq<nat>)
      requires PrefixRows(n, rows) && done <= n && forall v: nat :: IsComplete(rows, v) <==> v < done
      modifies this
      ensures done + |appliedNow| <= n && appliedNow == Range(done, done + |appliedNow|)
      ensures forall v: nat :: IsComplete(rows, v) <==> v < done + |appliedNow|
      ensures forall v :: IsClaim(rows, v) <==> IsClaim(old(rows), v)
      ensures ok <==> done + |appliedNow| == n
      ensures !ok ==> IsClaim(rows, done + |appliedNow|) || (done + |appliedNow|) in broken
    {
      var known := CompletedIn(rows);
      appliedNow := [];
      forall u: nat ensures u in known <==> IsComplete(rows, u) {}
      for v := 0 to n
        invariant known == CompletedIn(old(rows))
        invariant forall u: nat :: u in known <==> u < done
        invariant |appliedNow| == if v <= done then 0 else v - done
        invariant done + |appliedNow| <= n && appliedNow == Range(done, done + |appliedNow|)
        invariant PrefixRows(n, rows)
        invariant forall u: nat :: IsComplete(rows, u) <==> u < done + |appliedNow|
        invariant forall u :: IsClaim(rows, u) <==> IsClaim(old(rows), u)
      {
        if v in known { continue; }
        ghost var before := rows;
        assert !IsComplete(before, v);
        var fine, ran := ApplyOne(v, broken);
        if !fine { return false, appliedNow; }
        assert rows == before[v := true];
        forall u: nat ensures IsComplete(rows, u) <==> IsComplete(before, u) || u == v {}
        forall u | u in rows ensures CompleteBelow(rows, u) { if u in before { BelowGrows(before, rows, u); } }
        appliedNow := appliedNow + [v];
      }
      ok := true;
    }
  }
}
