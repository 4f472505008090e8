/** What a step that harms a spool file costs: a second row, and four runs in which
    that happens. */
module SpoolHarm {
  import opened Tables
  import opened Spool
  import opened SpoolDrain

  /** No crash and no failed commit. */
  predicate Faultless(run: seq<Step>) {
    forall i :: 0 <= i < |run| ==> !run[i].Crash? && !run[i].CommitFails?
  }

  /** A run without a fault and without a step that harms the file. */
  ghost predicate Smooth(s: State, t: State, run: seq<Step>, n: Name) {
    IsRun(s, t, run) && Faultless(run) && HarmCount(s, run, n) == 0
  }

  lemma NextSmooth(s: State, t: State, run: seq<Step>, step: Step, n: Name)
    requires Smooth(s, t, run, n) && Enabled(t, step) && !Harms(t, step, n) && !step.Crash? && !step.CommitFails?
    ensures Smooth(s, Do(t, step), run + [step], n)
  {
    NextStep(s, t, run, step);
    assert (run + [step])[..|run|] == run;
  }

  /** The rows of the file, and one for its insertion if `q` still wants it. */
  function Due(s: State, q: Pid, n: Name): nat
    requires n in s.ever
  {
    CountRows(s, n) + if Wants(s, q, n) then 1 else 0
  }

  /** `q` has got on with its list, taking of all files only this one. */
  ghost predicate GotOn(s: State, t: State, q: Pid, n: Name)
    requires n in s.ever
  {
    && t.spool == s.spool && t.ever == s.ever && Free(t, q) && Of(t, q).Inserting?
    && (forall r :: r != q ==> Of(t, r) == Of(s, r))
    && (Inserted(t, q, n) || Wants(t, q, n) <==> Inserted(s, q, n) || Wants(s, q, n))
    && Due(t, q, n) == Due(s, q, n)
  }

  function NextStepOf(s: State, q: Pid, n: Name): Step
    requires Of(s, q).Inserting? && Of(s, q).todo != []
  {
    if Of(s, q).hand.None? then Read(q) else Take(q, if Of(s, q).todo[0] == n then Good else Transient)
  }

  function Remaining(s: State, q: Pid): nat {
    if !Of(s, q).Inserting? then 0 else 2 * |Of(s, q).todo| + if Of(s, q).hand.Some? then 0 else 1
  }

  lemma ReadOn(s: State, q: Pid, n: Name)
    requires Inv(s) && n in s.ever && Free(s, q) && Enabled(s, Read(q))
    ensures GotOn(s, Do(s, Read(q)), q, n) && Remaining(Do(s, Read(q)), q) < Remaining(s, q)
  {
    assert PhaseInv(s, q);
    HeadTail(Of(s, q).todo);
  }

  lemma TakeOn(s: State, q: Pid, n: Name, verdict: Verdict)
    requires Inv(s) && n in s.ever && Free(s, q) && Enabled(s, Take(q, verdict))
    requires verdict == if Of(s, q).todo[0] == n then Good else Transient
    ensures GotOn(s, Do(s, Take(q, verdict)), q, n) && Remaining(Do(s, Take(q, verdict)), q) < Remaining(s, q)
  {
    assert PhaseInv(s, q);
    HeadTail(Of(s, q).todo);
  }

  lemma StepOn(s: State, q: Pid, n: Name) returns (t: State)
    requires Inv(s) && n in s.ever && Free(s, q) && Of(s, q).Inserting? && Of(s, q).todo != []
    ensures var step := NextStepOf(s, q, n); Enabled(s, step) && (step.Read? || step.Take?) && t == Do(s, step)
    ensures Inv(t) && GotOn(s, t, q, n) && Remaining(t, q) < Remaining(s, q)
  {
    var step := NextStepOf(s, q, n);
    if step.Read? {
      ReadOn(s, q, n);
      ReadKeepsInv(s, q);
    } else {
      TakeOn(s, q, n, step.verdict);
      TakeKeepsInv(s, q, step.verdict);
    }
    t := Do(s, step);
  }

  lemma {:induction false} GetsThrough(start: State, s: State, before: seq<Step>, q: Pid, n: Name)
    returns (t: State, run: seq<Step>)
    requires Inv(s) && n in s.ever && Smooth(start, s, before, n) && Of(s, q).Inserting? && Free(s, q)
    ensures Smooth(start, t, run, n) && Inv(t) && GotOn(s, t, q, n) && Of(t, q).todo == []
    decreases Remaining(s, q)
  {
    if Of(s, q).todo == [] {
      t, run := s, before;
    } else {
      var u := StepOn(s, q, n);
      NextSmooth(start, s, before, NextStepOf(s, q, n), n);
      t, run := GetsThrough(start, u, before + [NextStepOf(s, q, n)], q, n);
    }
  }

  /** The lock is free, and the file can still be inserted. */
  ghost predicate Freed(s: State, t: State, n: Name)
    requires n in s.ever
  {
    && Inv(t) && t.spool == s.spool && t.ever == s.ever && t.writer.None?
    && Takable(t, n) && CountRows(t, n) == CountRows(s, n)
    && forall p :: Of(s, p).Idle? ==> Of(t, p).Idle?
  }

  lemma SettleFrees(s: State, n: Name, h: Pid)
    requires Inv(s) && n in s.ever && Takable(s, n) && s.writer == Some(h) && Of(s, h).Idle?
    ensures Freed(s, Do(s, Settle(h, true)), n)
  {
    StepKeepsInv(s, Settle(h, true));
    EndedCounts(s, h, true, n);
    Views(s, Do(s, Settle(h, true)), h, n);
  }

  lemma CommitFrees(s: State, u: State, n: Name, h: Pid)
    requires n in s.ever && Takable(s, n) && !Wants(s, h, n) && Of(s, h).Inserting?
    requires Inv(u) && GotOn(s, u, h, n) && Of(u, h).todo == []
    ensures Freed(s, Do(u, Commit(h)), n) && !Harms(u, Commit(h), n)
  {
    var t := CommitsOther(u, h, n);
    Views(s, t, h, n);
  }

  /** A transaction that holds the lock can be ended, unless its process wants the
      file itself. */
  lemma FreesLock(s: State, n: Name, h: Pid) returns (t: State, run: seq<Step>)
    requires Inv(s) && n in s.ever && Takable(s, n) && s.writer == Some(h) && !Wants(s, h, n)
    ensures Smooth(s, t, run, n) && Freed(s, t, n)
  {
    assert PhaseInv(s, h);
    if Of(s, h).Idle? {
      SettleFrees(s, n, h);
      NextSmooth(s, s, [], Settle(h, true), n);
      t, run := Do(s, Settle(h, true)), [] + [Settle(h, true)];
    } else {
      var u, front := GetsThrough(s, s, [], h, n);
      CommitFrees(s, u, n, h);
      NextSmooth(s, u, front, Commit(h), n);
      t, run := Do(u, Commit(h)), front + [Commit(h)];
    }
  }

  lemma CommitsOther(s: State, h: Pid, n: Name) returns (t: State)
    requires Inv(s) && n in s.ever && Enabled(s, Commit(h)) && Free(s, h) && !Inserted(s, h, n)
    ensures t == Do(s, Commit(h)) && !Harms(s, Commit(h), n) && Inv(t)
    ensures t.spool == s.spool && t.ever == s.ever && t.writer.None? && CountRows(t, n) == CountRows(s, n)
    ensures forall r :: r != h ==> Of(t, r) == Of(s, r)
    ensures Of(t, h).Unlinking? && !Leaving(t, h, n)
  {
    t := Do(s, Commit(h));
    StepKeepsInv(s, Commit(h));
    EndedCounts(s, h, true, n);
  }

  /** A file that can be inserted is inserted in some continuation without a fault, in
      which no step but possibly the last one, the commit, harms it. */
  lemma TakableIsTaken(s: State, n: Name, p: Pid, files: seq<Name>) returns (t: State, run: seq<Step>)
    requires Inv(s) && n in s.ever && Takable(s, n)
    requires Of(s, p).Idle? && Distinct(files) && IsListing(files, s.spool)
    ensures IsRun(s, t, run) && Faultless(run) && run != [] && HarmCount(s, run[..|run| - 1], n) == 0
    ensures t.rows[Row(n, s.ever[n])] == CountRows(s, n) + 1
  {
    if s.writer.Some? && !Wants(s, s.writer.value, n) {
      var u, before := FreesLock(s, n, s.writer.value);
      t, run := FreeIsTaken(s, u, before, n, p, files);
    } else {
      t, run := FreeIsTaken(s, s, [], n, p, files);
    }
  }

  lemma FreeIsTaken(start: State, s: State, before: seq<Step>, n: Name, p: Pid, files: seq<Name>)
    returns (t: State, run: seq<Step>)
    requires Inv(s) && n in s.ever && Takable(s, n) && Smooth(start, s, before, n)
    requires s.writer.Some? ==> Wants(s, s.writer.value, n)
    requires Of(s, p).Idle? && Distinct(files) && IsListing(files, s.spool)
    ensures IsRun(start, t, run) && Faultless(run) && run != [] && HarmCount(start, run[..|run| - 1], n) == 0
    ensures t.rows[Row(n, s.ever[n])] == CountRows(s, n) + 1
  {
    if s.writer.Some? {
      t, run := WanterTakes(start, s, before, n, s.writer.value);
    } else if q :| Wants(s, q, n) {
      t, run := WanterTakes(start, s, before, n, q);
    } else {
      StepKeepsInv(s, Begin(p, files));
      NextSmooth(start, s, before, Begin(p, files), n);
      t, run := WanterTakes(start, Do(s, Begin(p, files)), before + [Begin(p, files)], n, p);
    }
  }

  lemma WanterTakes(start: State, s: State, before: seq<Step>, n: Name, q: Pid) returns (t: State, run: seq<Step>)
    requires Inv(s) && n in s.ever && Wants(s, q, n) && Free(s, q) && Smooth(start, s, before, n)
    ensures IsRun(start, t, run) && Faultless(run) && run != [] && HarmCount(start, run[..|run| - 1], n) == 0
    ensures t.rows[Row(n, s.ever[n])] == CountRows(s, n) + 1
  {
    var u, front := GetsThrough(start, s, before, q, n);
    NextStep(start, u, front, Commit(q));
    t, run := Do(u, Commit(q)), front + [Commit(q)];
    assert run[..|run| - 1] == front;
  }

  lemma HarmedHasRow(s: State, step: Step, n: Name)
    requires Inv(s) && Enabled(s, step) && Harms(s, step, n)
    ensures n in s.ever && CountRows(s, n) >= 1
  {
    match step
    case Commit(p) => assert PhaseInv(s, p);
    case CommitFails(p, rolledBack) => assert PhaseInv(s, p);
    case Crash(p) => assert PhaseInv(s, p);
    case Begin(p, files) =>
      var q :| Leaving(s, q, n);
      assert PhaseInv(s, q);
  }

  lemma EverGrows(s: State, step: Step, n: Name)
    requires Enabled(s, step) && n in s.ever
    ensures n in Do(s, step).ever && Do(s, step).ever[n] == s.ever[n]
  {
  }

  /** After a step that harmed a file there is a way, without any fault and without
      harming it again before its commit, to give it another row: at least two in
      all. */
  lemma HarmGivesSecondRow(s: State, step: Step, n: Name, p: Pid, files: seq<Name>) returns (t: State, run: seq<Step>)
    requires Inv(s) && Enabled(s, step) && Harms(s, step, n)
    requires Of(Do(s, step), p).Idle? && Distinct(files) && IsListing(files, Do(s, step).spool)
    ensures IsRun(Do(s, step), t, run) && Faultless(run) && run != []
    ensures HarmCount(Do(s, step), run[..|run| - 1], n) == 0
    ensures n in s.ever && t.rows[Row(n, s.ever[n])] == CountRows(Do(s, step), n) + 1 >= 2
  {
    HarmedHasRow(s, step, n);
    HarmsIff(s, step, n);
    StepKeepsInv(s, step);
    EverGrows(s, step, n);
    t, run := TakableIsTaken(Do(s, step), n, p, files);
  }

  // ---- four runs that insert one file twice ----

  /** One file, listed, read and inserted by the first process, not committed yet. */
  function Scene(event: Event): State {
    var files := map[0 := event];
    State(files, map[], multiset{}, multiset{Row(0, event)}, Some(1), map[1 := Inserting([], [0], None)], files)
  }

  lemma SceneOpens(event: Event) returns (s: State, run: seq<Step>)
    ensures IsRun(START, s, run) && Faultless(run)
    ensures s == State(map[0 := event], map[], multiset{}, multiset{}, None, map[1 := Inserting([0], [], None)], map[0 := event])
  {
    var files := map[0 := event];
    NextStep(START, START, [], Arrive(0, event));
    s := State(files, map[], multiset{}, multiset{}, None, map[], files);
    assert Do(START, Arrive(0, event)) == s;
    run := [] + [Arrive(0, event)];
    NextStep(START, s, run, Begin(1, [0]));
    s, run := At(s, 1, Inserting([0], [], None)), run + [Begin(1, [0])];
  }

  lemma SceneIsReached(event: Event) returns (run: seq<Step>)
    ensures IsRun(START, Scene(event), run) && Faultless(run)
  {
    var s;
    s, run := SceneOpens(event);
    var t := At(s, 1, Inserting([0], [], Some(event)));
    assert Do(s, Read(1)) == t;
    assert [0][1..] == [] && [] + [0] == [0];
    assert Do(t, Take(1, Good)) == Scene(event);
    run := TwoSteps(START, s, run, Read(1), Take(1, Good));
  }

  /** Which of the four harms happens. */
  datatype Way = FailedCommit | Overlap | Death | LateListing

  /** The state in which the harm happens, and the step that does it. */
  function Ripe(event: Event, way: Way): State {
    match way
    case FailedCommit => Scene(event)
    case Overlap => At(Scene(event), 2, Inserting([0], [], None))
    case _ => At(Scene(event).(rows := multiset{Row(0, event)}, pending := multiset{}, writer := None), 1, Unlinking([0]))
  }

  function Harm(way: Way): Step {
    match way
    case FailedCommit => CommitFails(1, false)
    case Overlap => Commit(1)
    case Death => Crash(1)
    case LateListing => Begin(2, [0])
  }

  lemma RipeIsReached(event: Event, way: Way) returns (run: seq<Step>)
    ensures IsRun(START, Ripe(event, way), run) && Faultless(run)
  {
    run := SceneIsReached(event);
    if way.Overlap? {
      NextStep(START, Scene(event), run, Begin(2, [0]));
      run := run + [Begin(2, [0])];
    } else if !way.FailedCommit? {
      assert Do(Scene(event), Commit(1)) == Ripe(event, way);
      NextStep(START, Scene(event), run, Commit(1));
      run := run + [Commit(1)];
    }
  }

  lemma RipeIsHarmed(event: Event, way: Way)
    ensures Enabled(Ripe(event, way), Harm(way)) && Harms(Ripe(event, way), Harm(way), 0)
    ensures var t := Do(Ripe(event, way), Harm(way));
      t.spool == t.ever == map[0 := event] && CountRows(t, 0) == 1 && Of(t, 3).Idle?
  {
    var s := Ripe(event, way);
    match way
    case Overlap => assert Wants(s, 2, 0);
    case LateListing => assert Leaving(s, 1, 0);
    case _ =>
  }

  /** In each of the four ways a file is inserted twice; two of them need neither a
      crash nor a failed commit, just a second server. */
  lemma InsertedTwice(event: Event, way: Way) returns (run: seq<Step>)
    ensures Runs(START, run) && After(START, run).rows[Row(0, event)] == 2
    ensures way.Overlap? || way.LateListing? ==> Faultless(run)
  {
    var s, step := Ripe(event, way), Harm(way);
    var before := RipeIsReached(event, way);
    RipeIsHarmed(event, way);
    RunKeepsInv(before);
    var t, rest := HarmGivesSecondRow(s, step, 0, 3, [0]);
    NextStep(START, s, before, step);
    JoinRuns(START, Do(s, step), t, before + [step], rest);
    run := before + [step] + rest;
  }
}
