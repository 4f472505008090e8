/** The drain of the hook spool into the event table, step by step. Any number of
    server processes drain one spool into one database at the same time, without a
    lock of their own; each may crash between any two steps. */
module Spool {
  import opened Tables

  type Name = nat
  type Pid = nat

  datatype EventKind = CommitClose | SessionEnd | Other

  /** What a spool file says; `stamp` stands for its other fields. */
  datatype Event = Event(stamp: nat, kind: EventKind, session: Text)

  /** A row of the event table, with the file it came from. */
  datatype Row = Row(origin: Name, event: Event)

  /** What becomes of one file that was read: inserted, refused for good, or refused
      because the database is busy. */
  datatype Verdict = Good | Bad | Transient

  /** Where a process is in `drain`; `hand` holds the text of the first file of `todo`
      once that was read. */
  datatype Phase =
    | Idle
    | Inserting(todo: seq<Name>, inserted: seq<Name>, hand: Option<Event>)
    | Unlinking(left: seq<Name>)

  /** The database admits one writer: `pending` holds the rows of its open transaction.
      `ever` holds every file ever written. */
  datatype State = State(spool: map<Name, Event>, quarantine: map<Name, Event>, rows: multiset<Row>,
                         pending: multiset<Row>, writer: Option<Pid>, phases: map<Pid, Phase>, ever: map<Name, Event>)

  datatype Step =
    | Arrive(name: Name, event: Event)
    | Begin(p: Pid, files: seq<Name>)
    | Read(p: Pid)
    | Take(p: Pid, verdict: Verdict)
    | Commit(p: Pid)
    | CommitFails(p: Pid, rolledBack: bool)
    | Unlink(p: Pid, ok: bool)
    | Finish(p: Pid)
    | Settle(p: Pid, keeps: bool)  // another service commits or rolls back on the connection
    | Crash(p: Pid)

  const START := State(map[], map[], multiset{}, multiset{}, None, map[], map[])

  function Of(s: State, p: Pid): Phase {
    if p in s.phases then s.phases[p] else Idle
  }

  predicate Distinct(s: seq<Name>) {
    forall i, j :: 0 <= i < j < |s| ==> s[i] != s[j]
  }

  predicate IsListing(files: seq<Name>, spool: map<Name, Event>) {
    (forall n :: n in files ==> n in spool) && forall n :: n in spool ==> n in files
  }

  /** Nobody else holds the write lock. */
  predicate Free(s: State, p: Pid) {
    s.writer.None? || s.writer == Some(p)
  }

  predicate Enabled(s: State, step: Step) {
    match step
    case Arrive(name, event) => name !in s.ever
    case Begin(p, files) => Of(s, p).Idle? && Distinct(files) && IsListing(files, s.spool)
    case Read(p) => Of(s, p).Inserting? && Of(s, p).todo != [] && Of(s, p).hand.None?
    case Take(p, verdict) =>
      Of(s, p).Inserting? && Of(s, p).todo != [] && Of(s, p).hand.Some? && (verdict.Good? ==> Free(s, p))
    case Commit(p) => Of(s, p).Inserting? && Of(s, p).todo == []
    case CommitFails(p, rolledBack) => Of(s, p).Inserting? && Of(s, p).todo == []
    case Unlink(p, ok) => Of(s, p).Unlinking? && Of(s, p).left != []
    case Finish(p) => Of(s, p).Unlinking? && Of(s, p).left == []
    case Settle(p, keeps) => Of(s, p).Idle?
    case Crash(p) => true
  }

  function At(s: State, p: Pid, phase: Phase): State {
    s.(phases := s.phases[p := phase])
  }

  /** The open transaction of `p`, if there is one, ends. */
  function Ended(s: State, p: Pid, keeps: bool): State {
    if s.writer != Some(p) then s
    else s.(rows := if keeps then s.rows + s.pending else s.rows, pending := multiset{}, writer := None)
  }

  /** The file goes to quarantine; nothing happens when it is already gone. */
  function Moved(s: State, n: Name): State {
    if n !in s.spool then s
    else s.(quarantine := s.quarantine[n := s.spool[n]], spool := s.spool - {n})
  }

  /** A read of a file that is gone raises, and so does its move to quarantine: the
      drain goes on with the next one. */
  function AfterRead(s: State, phase: Phase): Phase
    requires phase.Inserting? && phase.todo != []
  {
    if phase.todo[0] in s.spool then phase.(hand := Some(s.spool[phase.todo[0]])) else phase.(todo := phase.todo[1..])
  }

  function Do(s: State, step: Step): State
    requires Enabled(s, step)
  {
    match step
    case Arrive(name, event) => s.(spool := s.spool[name := event], ever := s.ever[name := event])
    case Begin(p, files) => At(s, p, Inserting(files, [], None))
    case Read(p) => At(s, p, AfterRead(s, Of(s, p)))
    case Take(p, verdict) =>
      var phase := Of(s, p);
      var n, rest := phase.todo[0], phase.todo[1..];
      (match verdict
       case Good =>
         At(s.(pending := s.pending + multiset{Row(n, phase.hand.value)}, writer := Some(p)), p,
            Inserting(rest, phase.inserted + [n], None))
       case Bad => At(Moved(s, n), p, Inserting(rest, phase.inserted, None))
       case Transient => At(s, p, Inserting(rest, phase.inserted, None)))
    case Commit(p) => At(Ended(s, p, true), p, Unlinking(Of(s, p).inserted))
    case CommitFails(p, rolledBack) => At(if rolledBack then Ended(s, p, false) else s, p, Idle)
    case Unlink(p, ok) =>
      var n, rest := Of(s, p).left[0], Of(s, p).left[1..];
      At(if ok then s.(spool := s.spool - {n}) else Moved(s, n), p, Unlinking(rest))
    case Finish(p) => At(s, p, Idle)
    case Settle(p, keeps) => Ended(s, p, keeps)
    case Crash(p) => At(Ended(s, p, false), p, Idle)
  }

  predicate Runs(s: State, steps: seq<Step>)
    decreases steps, 0
  {
    steps == [] || (Runs(s, steps[..|steps| - 1]) && Enabled(After(s, steps[..|steps| - 1]), steps[|steps| - 1]))
  }

  function After(s: State, steps: seq<Step>): State
    requires Runs(s, steps)
    decreases steps, 1
  {
    if steps == [] then s else Do(After(s, steps[..|steps| - 1]), steps[|steps| - 1])
  }

  // ---- nothing is lost ----

  /** The file is in the spool, in quarantine, or has a committed row. */
  predicate Accounted(s: State, n: Name)
    requires n in s.ever
  {
    || (n in s.spool && s.spool[n] == s.ever[n])
    || (n in s.quarantine && s.quarantine[n] == s.ever[n])
    || Row(n, s.ever[n]) in s.rows
  }

  predicate Known(s: State, r: Row) {
    r.origin in s.ever && r.event == s.ever[r.origin]
  }

  predicate PhaseInv(s: State, p: Pid) {
    match Of(s, p)
    case Idle => true
    case Inserting(todo, inserted, hand) =>
      && Distinct(todo)
      && (forall n :: n in todo ==> n in s.ever && n !in inserted)
      && (hand.Some? ==> todo != [] && Known(s, Row(todo[0], hand.value)))
      && (forall n :: n in inserted ==> s.writer == Some(p) && n in s.ever && Row(n, s.ever[n]) in s.pending)
    case Unlinking(left) =>
      s.writer != Some(p) && forall n :: n in left ==> n in s.ever && Row(n, s.ever[n]) in s.rows
  }

  ghost predicate FilesInv(s: State) {
    && (forall n :: n in s.ever ==> Accounted(s, n))
    && (forall n :: n in s.spool ==> n in s.ever && s.spool[n] == s.ever[n])
    && (forall r :: r in s.rows || r in s.pending ==> Known(s, r))
    && (s.writer.None? ==> s.pending == multiset{})
  }

  ghost predicate OthersInv(s: State, p: Pid) {
    forall q :: q != p ==> PhaseInv(s, q)
  }

  ghost predicate Inv(s: State) {
    FilesInv(s) && forall p :: PhaseInv(s, p)
  }

  lemma HeadTail(s: seq<Name>)
    requires s != [] && Distinct(s)
    ensures Distinct(s[1..]) && s[0] !in s[1..]
    ensures forall n :: n in s <==> n == s[0] || n in s[1..]
  {
    assert s == [s[0]] + s[1..];
  }

  /** One process moves on. */
  lemma AtKeepsInv(s: State, p: Pid, phase: Phase)
    requires FilesInv(s) && OthersInv(s, p) && PhaseInv(At(s, p, phase), p)
    ensures Inv(At(s, p, phase))
  {
    var t := At(s, p, phase);
    forall q ensures PhaseInv(t, q) {
      assert q != p ==> PhaseInv(s, q);
    }
    forall n | n in t.ever ensures Accounted(t, n) {
      assert Accounted(s, n);
    }
  }

  lemma EndedKeepsFiles(s: State, p: Pid, keeps: bool)
    requires FilesInv(s)
    ensures FilesInv(Ended(s, p, keeps))
  {
    var t := Ended(s, p, keeps);
    forall n | n in t.ever ensures Accounted(t, n) {
      assert Accounted(s, n);
    }
  }

  /** The end of a transaction matters to its own process only. */
  lemma EndedKeeps(s: State, p: Pid, keeps: bool)
    requires Inv(s)
    ensures var t := Ended(s, p, keeps); FilesInv(t) && OthersInv(t, p) && t.writer != Some(p)
  {
    EndedKeepsFiles(s, p, keeps);
    var t := Ended(s, p, keeps);
    forall q | q != p ensures PhaseInv(t, q) {
      assert PhaseInv(s, q);
    }
  }

  lemma MovedKeeps(s: State, p: Pid, n: Name)
    requires FilesInv(s) && OthersInv(s, p)
    ensures FilesInv(Moved(s, n)) && OthersInv(Moved(s, n), p)
  {
    var t := Moved(s, n);
    forall q | q != p ensures PhaseInv(t, q) {
      assert PhaseInv(s, q);
    }
    forall m | m in t.ever ensures Accounted(t, m) {
      assert Accounted(s, m);
    }
  }

  lemma DeletedKeeps(s: State, p: Pid, n: Name)
    requires FilesInv(s) && OthersInv(s, p) && n in s.ever && Row(n, s.ever[n]) in s.rows
    ensures var t := s.(spool := s.spool - {n}); FilesInv(t) && OthersInv(t, p)
  {
    var t := s.(spool := s.spool - {n});
    forall q | q != p ensures PhaseInv(t, q) {
      assert PhaseInv(s, q);
    }
    forall m | m in t.ever ensures Accounted(t, m) {
      assert Accounted(s, m);
    }
  }

  lemma PendingKeeps(s: State, p: Pid, r: Row)
    requires Inv(s) && Free(s, p) && Known(s, r)
    ensures var t := s.(pending := s.pending + multiset{r}, writer := Some(p)); FilesInv(t) && OthersInv(t, p)
  {
    var t := s.(pending := s.pending + multiset{r}, writer := Some(p));
    forall q | q != p ensures PhaseInv(t, q) {
      assert PhaseInv(s, q);
    }
    forall m | m in t.ever ensures Accounted(t, m) {
      assert Accounted(s, m);
    }
  }

  lemma ReadKeepsInv(s: State, p: Pid)
    requires Inv(s) && Enabled(s, Read(p))
    ensures Inv(Do(s, Read(p)))
  {
    assert PhaseInv(s, p);
    HeadTail(Of(s, p).todo);
    AtKeepsInv(s, p, AfterRead(s, Of(s, p)));
  }

  lemma TakeKeepsInv(s: State, p: Pid, verdict: Verdict)
    requires Inv(s) && Enabled(s, Take(p, verdict))
    ensures Inv(Do(s, Take(p, verdict)))
  {
    var phase := Of(s, p);
    var n, rest := phase.todo[0], phase.todo[1..];
    assert PhaseInv(s, p);
    HeadTail(phase.todo);
    match verdict
    case Good =>
      var r := Row(n, phase.hand.value);
      PendingKeeps(s, p, r);
      AtKeepsInv(s.(pending := s.pending + multiset{r}, writer := Some(p)), p, Inserting(rest, phase.inserted + [n], None));
    case Bad =>
      MovedKeeps(s, p, n);
      AtKeepsInv(Moved(s, n), p, Inserting(rest, phase.inserted, None));
    case Transient => AtKeepsInv(s, p, Inserting(rest, phase.inserted, None));
  }

  lemma CommitKeepsInv(s: State, p: Pid)
    requires Inv(s) && Enabled(s, Commit(p))
    ensures Inv(Do(s, Commit(p)))
  {
    assert PhaseInv(s, p);
    EndedKeeps(s, p, true);
    AtKeepsInv(Ended(s, p, true), p, Unlinking(Of(s, p).inserted));
  }

  lemma UnlinkKeepsInv(s: State, p: Pid, ok: bool)
    requires Inv(s) && Enabled(s, Unlink(p, ok))
    ensures Inv(Do(s, Unlink(p, ok)))
  {
    var n, rest := Of(s, p).left[0], Of(s, p).left[1..];
    assert PhaseInv(s, p);
    if ok {
      DeletedKeeps(s, p, n);
      AtKeepsInv(s.(spool := s.spool - {n}), p, Unlinking(rest));
    } else {
      MovedKeeps(s, p, n);
      AtKeepsInv(Moved(s, n), p, Unlinking(rest));
    }
  }

  lemma SettleKeepsInv(s: State, p: Pid, keeps: bool)
    requires Inv(s) && Enabled(s, Settle(p, keeps))
    ensures Inv(Do(s, Settle(p, keeps)))
  {
    EndedKeeps(s, p, keeps);
    var t := Do(s, Settle(p, keeps));
    forall q ensures PhaseInv(t, q) {
      assert q != p ==> PhaseInv(t, q);
    }
  }

  lemma ArriveKeepsFiles(s: State, name: Name, event: Event)
    requires FilesInv(s) && Enabled(s, Arrive(name, event))
    ensures FilesInv(Do(s, Arrive(name, event)))
  {
    var t := Do(s, Arrive(name, event));
    forall n | n in t.ever ensures Accounted(t, n) {
      assert n != name ==> Accounted(s, n);
    }
  }

  lemma ArriveKeepsInv(s: State, name: Name, event: Event)
    requires Inv(s) && Enabled(s, Arrive(name, event))
    ensures Inv(Do(s, Arrive(name, event)))
  {
    ArriveKeepsFiles(s, name, event);
    var t := Do(s, Arrive(name, event));
    forall q ensures PhaseInv(t, q) {
      assert PhaseInv(s, q);
    }
  }

  lemma StepKeepsInv(s: State, step: Step)
    requires Inv(s) && Enabled(s, step)
    ensures Inv(Do(s, step))
  {
    match step
    case Arrive(name, event) => ArriveKeepsInv(s, name, event);
    case Begin(p, files) => AtKeepsInv(s, p, Inserting(files, [], None));
    case Read(p) => ReadKeepsInv(s, p);
    case Take(p, verdict) => TakeKeepsInv(s, p, verdict);
    case Commit(p) => CommitKeepsInv(s, p);
    case CommitFails(p, rolledBack) =>
      EndedKeeps(s, p, false);
      AtKeepsInv(if rolledBack then Ended(s, p, false) else s, p, Idle);
    case Unlink(p, ok) => UnlinkKeepsInv(s, p, ok);
    case Finish(p) => AtKeepsInv(s, p, Idle);
    case Settle(p, keeps) => SettleKeepsInv(s, p, keeps);
    case Crash(p) =>
      EndedKeeps(s, p, false);
      AtKeepsInv(Ended(s, p, false), p, Idle);
  }

  /** At every point of every run, with any number of drains at once, crashes and
      failed commits, each file ever written is in the spool, in quarantine, or has a
      committed row. */
  lemma {:induction false} NothingIsLost(steps: seq<Step>, n: Name)
    requires Runs(START, steps) && n in After(START, steps).ever
    ensures Accounted(After(START, steps), n)
  {
    RunKeepsInv(steps);
  }

  lemma {:induction false} RunKeepsInv(steps: seq<Step>)
    requires Runs(START, steps)
    ensures Inv(After(START, steps))
  {
    if steps != [] {
      RunKeepsInv(steps[..|steps| - 1]);
      StepKeepsInv(After(START, steps[..|steps| - 1]), steps[|steps| - 1]);
    }
  }

  // ---- how often a file is inserted ----

  function CountRows(s: State, n: Name): nat
    requires n in s.ever
  {
    s.rows[Row(n, s.ever[n])] + s.pending[Row(n, s.ever[n])]
  }

  predicate Inserted(s: State, p: Pid, n: Name) {
    Of(s, p).Inserting? && n in Of(s, p).inserted
  }

  predicate Leaving(s: State, p: Pid, n: Name) {
    Of(s, p).Unlinking? && n in Of(s, p).left
  }

  /** The process has read the file, or will when it comes to it. */
  predicate Wants(s: State, p: Pid, n: Name) {
    && Of(s, p).Inserting? && n in Of(s, p).todo
    && (n in s.spool || (Of(s, p).hand.Some? && Of(s, p).todo[0] == n))
  }

  ghost predicate Wanted(s: State, n: Name) {
    exists p :: Wants(s, p, n)
  }

  /** Some process wants the file, or it is in the spool and nobody is about to remove
      it. */
  ghost predicate Available(s: State, n: Name) {
    Wanted(s, n) || (n in s.spool && forall p :: !Leaving(s, p, n))
  }

  /** The file can be inserted (again): it is available, and no open transaction that
      is still to be followed by its removal holds a row of it. */
  ghost predicate Takable(s: State, n: Name) {
    Available(s, n) && forall p :: !Inserted(s, p, n)
  }

  /** A step after which the file can be inserted again although it keeps its row:
      - its commit fails and leaves the row in the open transaction,
      - it is committed while another drain still wants the file,
      - the one process that was to remove it dies after the commit,
      - a drain lists it between its commit and its removal. */
  ghost predicate Harms(s: State, step: Step, n: Name) {
    match step
    case CommitFails(p, rolledBack) => !rolledBack && Inserted(s, p, n) && Available(s, n)
    case Commit(p) => Inserted(s, p, n) && Wanted(s, n)
    case Crash(p) =>
      && n in s.spool && Leaving(s, p, n)
      && forall q :: !Wants(s, q, n) && !Inserted(s, q, n) && (q != p ==> !Leaving(s, q, n))
    case Begin(p, files) =>
      && n in files
      && (forall q :: !Wants(s, q, n) && !Inserted(s, q, n))
      && exists q :: Leaving(s, q, n)
    case _ => false
  }

  ghost predicate Reopens(s: State, step: Step, n: Name)
    requires Enabled(s, step) && n in s.ever
  {
    !Takable(s, n) && Takable(Do(s, step), n)
  }

  // what processes other than `p` do with the file

  ghost predicate OthersWant(s: State, p: Pid, n: Name) {
    exists q :: q != p && Wants(s, q, n)
  }

  ghost predicate OthersLeave(s: State, p: Pid, n: Name) {
    exists q :: q != p && Leaving(s, q, n)
  }

  ghost predicate OthersInserted(s: State, p: Pid, n: Name) {
    exists q :: q != p && Inserted(s, q, n)
  }

  lemma Split(s: State, p: Pid, n: Name)
    ensures Wanted(s, n) <==> Wants(s, p, n) || OthersWant(s, p, n)
    ensures Available(s, n) <==> Wanted(s, n) || (n in s.spool && !Leaving(s, p, n) && !OthersLeave(s, p, n))
    ensures Takable(s, n) <==> Available(s, n) && !Inserted(s, p, n) && !OthersInserted(s, p, n)
  {
  }

  /** The others do not notice a step of `p` that leaves the file where it is. */
  lemma Views(s: State, t: State, p: Pid, n: Name)
    requires forall q :: q != p ==> Of(t, q) == Of(s, q)
    ensures (n in s.spool <==> n in t.spool) ==> (OthersWant(s, p, n) <==> OthersWant(t, p, n))
    ensures (n in t.spool ==> n in s.spool) ==> (OthersWant(t, p, n) ==> OthersWant(s, p, n))
    ensures OthersLeave(s, p, n) <==> OthersLeave(t, p, n)
    ensures OthersInserted(s, p, n) <==> OthersInserted(t, p, n)
    ensures forall u :: u == s || u == t ==>
      && (Wanted(u, n) <==> Wants(u, p, n) || OthersWant(u, p, n))
      && (Available(u, n) <==> Wanted(u, n) || (n in u.spool && !Leaving(u, p, n) && !OthersLeave(u, p, n)))
      && (Takable(u, n) <==> Available(u, n) && !Inserted(u, p, n) && !OthersInserted(u, p, n))
  {
    forall q ensures q != p ==> (Leaving(t, q, n) <==> Leaving(s, q, n)) {}
    forall q ensures q != p ==> (Inserted(t, q, n) <==> Inserted(s, q, n)) {}
    forall q ensures q != p && (n in t.spool ==> n in s.spool) && Wants(t, q, n) ==> Wants(s, q, n) {}
    forall q ensures q != p && (n in s.spool ==> n in t.spool) && Wants(s, q, n) ==> Wants(t, q, n) {}
    Split(s, p, n);
    Split(t, p, n);
  }

  /** Only the writer has inserted anything that is not committed. */
  lemma OneInserter(s: State, p: Pid, n: Name)
    requires Inv(s) && Inserted(s, p, n)
    ensures !OthersInserted(s, p, n)
  {
    forall q ensures Inserted(s, q, n) ==> q == p {
      assert PhaseInv(s, p) && PhaseInv(s, q);
    }
  }

  lemma ReadReopensNothing(s: State, p: Pid, n: Name)
    requires Inv(s) && Enabled(s, Read(p)) && n in s.ever
    ensures !Reopens(s, Read(p), n)
  {
    assert PhaseInv(s, p);
    HeadTail(Of(s, p).todo);
    Views(s, Do(s, Read(p)), p, n);
  }

  /** Inserting a file makes it untakable, and needs it takable. */
  lemma GoodTakes(s: State, p: Pid)
    requires Inv(s) && Enabled(s, Take(p, Good))
    ensures var t, n := Do(s, Take(p, Good)), Of(s, p).todo[0];
      && n in s.ever && Takable(s, n) && !Takable(t, n) && CountRows(t, n) == CountRows(s, n) + 1
  {
    var t, n := Do(s, Take(p, Good)), Of(s, p).todo[0];
    assert PhaseInv(s, p);
    assert Wants(s, p, n);
    forall q ensures !Inserted(s, q, n) {
      assert PhaseInv(s, q);
    }
    assert Inserted(t, p, n);
  }

  lemma TakeReopensNothing(s: State, p: Pid, verdict: Verdict, n: Name)
    requires Inv(s) && Enabled(s, Take(p, verdict)) && n in s.ever
    ensures !Reopens(s, Take(p, verdict), n)
  {
    assert PhaseInv(s, p);
    HeadTail(Of(s, p).todo);
    var t := Do(s, Take(p, verdict));
    Views(s, t, p, n);
    assert Wants(t, p, n) ==> Wants(s, p, n);
    assert !Leaving(t, p, n) && !Leaving(s, p, n);
    assert Inserted(s, p, n) ==> Inserted(t, p, n);
  }

  lemma AfterUnlink(s: State, p: Pid, ok: bool, n: Name)
    requires Enabled(s, Unlink(p, ok))
    ensures var t := Do(s, Unlink(p, ok));
      && (n in t.spool ==> n in s.spool && (Leaving(t, p, n) <==> Leaving(s, p, n)))
      && Of(t, p).Unlinking? && t.ever == s.ever
      && forall q :: q != p ==> Of(t, q) == Of(s, q)
  {
    var left := Of(s, p).left;
    assert left == [left[0]] + left[1..];
  }

  lemma UnlinkReopensNothing(s: State, p: Pid, ok: bool, n: Name)
    requires Enabled(s, Unlink(p, ok)) && n in s.ever
    ensures !Reopens(s, Unlink(p, ok), n)
  {
    AfterUnlink(s, p, ok, n);
    Views(s, Do(s, Unlink(p, ok)), p, n);
  }

  lemma QuietReopensNothing(s: State, step: Step, n: Name)
    requires Inv(s) && Enabled(s, step) && n in s.ever && (step.Arrive? || step.Finish? || step.Settle?)
    ensures !Reopens(s, step, n)
  {
    Views(s, Do(s, step), if step.Arrive? then 0 else step.p, n);
  }

  lemma EndedCounts(s: State, p: Pid, keeps: bool, n: Name)
    requires Inv(s) && n in s.ever
    ensures var t := Ended(s, p, keeps);
      && CountRows(t, n) <= CountRows(s, n)
      && (keeps ==> CountRows(t, n) == CountRows(s, n))
      && (Inserted(s, p, n) && !keeps ==> CountRows(t, n) < CountRows(s, n))
      && (s.writer != Some(p) ==> t == s)
  {
    assert PhaseInv(s, p);
  }

  lemma CommitReopens(s: State, p: Pid, n: Name)
    requires Inv(s) && Enabled(s, Commit(p)) && n in s.ever
    ensures Reopens(s, Commit(p), n) <==> Harms(s, Commit(p), n)
    ensures CountRows(Do(s, Commit(p)), n) == CountRows(s, n)
  {
    EndedCounts(s, p, true, n);
    Views(s, Do(s, Commit(p)), p, n);
    if Inserted(s, p, n) {
      OneInserter(s, p, n);
    }
  }

  /** The process becomes idle; `mid` differs from `s` in rows alone. */
  lemma IdleViews(s: State, mid: State, p: Pid, n: Name)
    requires mid.phases == s.phases && mid.spool == s.spool
    ensures Takable(At(mid, p, Idle), n) <==>
      (OthersWant(s, p, n) || (n in s.spool && !OthersLeave(s, p, n))) && !OthersInserted(s, p, n)
  {
    var t := At(mid, p, Idle);
    Views(s, t, p, n);
    assert !Wants(t, p, n) && !Leaving(t, p, n) && !Inserted(t, p, n);
  }

  lemma CommitFailsReopens(s: State, p: Pid, rolledBack: bool, n: Name)
    requires Inv(s) && Enabled(s, CommitFails(p, rolledBack)) && n in s.ever
    ensures var step := CommitFails(p, rolledBack);
      Reopens(s, step, n) && CountRows(Do(s, step), n) == CountRows(s, n) <==> Harms(s, step, n)
  {
    EndedCounts(s, p, false, n);
    Split(s, p, n);
    IdleViews(s, if rolledBack then Ended(s, p, false) else s, p, n);
    if Inserted(s, p, n) {
      OneInserter(s, p, n);
    }
  }

  lemma CrashReopens(s: State, p: Pid, n: Name)
    requires Inv(s) && Enabled(s, Crash(p)) && n in s.ever
    ensures Reopens(s, Crash(p), n) && CountRows(Do(s, Crash(p)), n) == CountRows(s, n) <==> Harms(s, Crash(p), n)
  {
    EndedCounts(s, p, false, n);
    assert PhaseInv(s, p);
    Split(s, p, n);
    IdleViews(s, Ended(s, p, false), p, n);
    CrashSplit(s, p, n);
  }

  lemma CrashSplit(s: State, p: Pid, n: Name)
    ensures Harms(s, Crash(p), n) <==>
      && n in s.spool && Leaving(s, p, n)
      && !OthersWant(s, p, n) && !OthersInserted(s, p, n) && !OthersLeave(s, p, n)
  {
  }

  lemma BeginReopens(s: State, p: Pid, files: seq<Name>, n: Name)
    requires Inv(s) && Enabled(s, Begin(p, files)) && n in s.ever
    ensures Reopens(s, Begin(p, files), n) <==> Harms(s, Begin(p, files), n)
  {
    Views(s, Do(s, Begin(p, files)), p, n);
    assert Wants(Do(s, Begin(p, files)), p, n) <==> n in files;
  }

  /** The steps that harm a file are exactly those that let it be inserted again while
      all its rows stay. */
  lemma HarmsIff(s: State, step: Step, n: Name)
    requires Inv(s) && Enabled(s, step) && n in s.ever
    ensures Harms(s, step, n) <==> Reopens(s, step, n) && CountRows(Do(s, step), n) == CountRows(s, n)
  {
    match step
    case Begin(p, files) => BeginReopens(s, p, files, n);
    case Read(p) => ReadReopensNothing(s, p, n);
    case Take(p, verdict) => TakeReopensNothing(s, p, verdict, n);
    case Commit(p) => CommitReopens(s, p, n);
    case CommitFails(p, rolledBack) => CommitFailsReopens(s, p, rolledBack, n);
    case Unlink(p, ok) => UnlinkReopensNothing(s, p, ok, n);
    case Crash(p) => CrashReopens(s, p, n);
    case _ => QuietReopensNothing(s, step, n);
  }

  predicate Inserts(s: State, step: Step, n: Name)
    requires Enabled(s, step)
  {
    step.Take? && step.verdict.Good? && Of(s, step.p).todo[0] == n
  }

  /** Rows of a file appear only when it is inserted. */
  lemma CountFalls(s: State, step: Step, n: Name)
    requires Inv(s) && Enabled(s, step) && n in s.ever && !Inserts(s, step, n)
    ensures CountRows(Do(s, step), n) <= CountRows(s, n)
  {
    match step
    case Commit(p) => EndedCounts(s, p, true, n);
    case CommitFails(p, rolledBack) => EndedCounts(s, p, false, n);
    case Settle(p, keeps) => EndedCounts(s, p, keeps, n);
    case Crash(p) => EndedCounts(s, p, false, n);
    case _ =>
  }

  /** How many steps of the run harm the file. */
  ghost function HarmCount(s: State, steps: seq<Step>, n: Name): nat
    requires Runs(s, steps)
  {
    if steps == [] then 0
    else
      var front := steps[..|steps| - 1];
      HarmCount(s, front, n) + if Harms(After(s, front), steps[|steps| - 1], n) then 1 else 0
  }

  /** With `harms` steps that harmed it, a file has at most that many rows while it can
      still be inserted, and at most one more otherwise. */
  ghost predicate Bounded(s: State, n: Name, harms: nat) {
    n in s.ever ==> CountRows(s, n) <= harms + if Takable(s, n) then 0 else 1
  }

  lemma NewIsBounded(s: State, step: Step, n: Name)
    requires Inv(s) && Enabled(s, step) && n !in s.ever
    ensures Bounded(Do(s, step), n, 0)
  {
    forall e ensures Row(n, e) !in s.rows && Row(n, e) !in s.pending {
      assert !Known(s, Row(n, e));
    }
  }

  lemma StepKeepsBounded(s: State, step: Step, n: Name, harms: nat)
    requires Inv(s) && Enabled(s, step) && Bounded(s, n, harms)
    ensures Bounded(Do(s, step), n, harms + if Harms(s, step, n) then 1 else 0)
  {
    if n !in s.ever {
      NewIsBounded(s, step, n);
    } else if Inserts(s, step, n) {
      GoodTakes(s, step.p);
    } else {
      CountFalls(s, step, n);
      HarmsIff(s, step, n);
    }
  }

  lemma {:induction false} RunKeepsBounded(steps: seq<Step>, n: Name)
    requires Runs(START, steps)
    ensures Bounded(After(START, steps), n, HarmCount(START, steps, n))
  {
    if steps != [] {
      var front, step := steps[..|steps| - 1], steps[|steps| - 1];
      RunKeepsBounded(front, n);
      RunKeepsInv(front);
      StepKeepsBounded(After(START, front), step, n, HarmCount(START, front, n));
    }
  }

  /** A file has at most one row more than there were steps that harmed it; so without
      such a step a file that was drained has exactly one. Crashes before the commit,
      commits that are rolled back and drains that overlap otherwise cost nothing. */
  lemma AtMostOneRowPerHarm(steps: seq<Step>, n: Name)
    requires Runs(START, steps) && n in After(START, steps).ever
    ensures var s, harms := After(START, steps), HarmCount(START, steps, n);
      && s.rows[Row(n, s.ever[n])] <= harms + 1
      && (harms == 0 && n !in s.spool && n !in s.quarantine ==> s.rows[Row(n, s.ever[n])] == 1)
  {
    RunKeepsBounded(steps, n);
    RunKeepsInv(steps);
    assert Accounted(After(START, steps), n);
  }
}
