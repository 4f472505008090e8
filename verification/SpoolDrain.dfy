/** One drain from its listing to its end: what it does to the files and the rows, and
    that it is a run of the single steps. The first part states in sets and multisets
    which files leave the spool and which rows are inserted; the second follows the
    drain of one process file by file, while no other process writes. */
module SpoolDrain {
  import opened Tables
  import opened Spool

  /** The files with this verdict, in the order they are met. */
  function Ones(files: seq<Name>, verdict: Name -> Verdict, v: Verdict): seq<Name> {
    if files == [] then []
    else
      var earlier, n := Ones(files[..|files| - 1], verdict, v), files[|files| - 1];
      if verdict(n) == v then earlier + [n] else earlier
  }

  /** The rows that a drain inserts for these files. */
  function RowsOf(spool: map<Name, Event>, files: seq<Name>, verdict: Name -> Verdict): multiset<Row> {
    if files == [] then multiset{}
    else
      var earlier, n := RowsOf(spool, files[..|files| - 1], verdict), files[|files| - 1];
      if n in spool && verdict(n).Good? then earlier + multiset{Row(n, spool[n])} else earlier
  }

  lemma {:induction false} OnesAre(files: seq<Name>, verdict: Name -> Verdict, v: Verdict, n: Name)
    ensures n in Ones(files, verdict, v) <==> n in files && verdict(n) == v
    ensures Distinct(files) ==> Distinct(Ones(files, verdict, v))
  {
    if files != [] {
      var front := files[..|files| - 1];
      OnesAre(front, verdict, v, n);
      OnesAre(front, verdict, v, files[|files| - 1]);
      assert files == front + [files[|files| - 1]];
      if Distinct(files) {
        assert files[|files| - 1] !in front;
      }
    }
  }

  /** Each good file gets exactly one row of its own, and nothing else gets any. */
  lemma {:induction false} OneRowEach(spool: map<Name, Event>, files: seq<Name>, verdict: Name -> Verdict, r: Row)
    requires Distinct(files) && IsListing(files, spool)
    ensures RowsOf(spool, files, verdict)[r] ==
      if r.origin in spool && verdict(r.origin).Good? && r.event == spool[r.origin] then 1 else 0
  {
    OneRowUpTo(spool, files, verdict, r);
  }

  lemma {:induction false} OneRowUpTo(spool: map<Name, Event>, files: seq<Name>, verdict: Name -> Verdict, r: Row)
    requires Distinct(files)
    ensures RowsOf(spool, files, verdict)[r] ==
      if r.origin in files && r.origin in spool && verdict(r.origin).Good? && r.event == spool[r.origin] then 1 else 0
  {
    if files != [] {
      var front, n := files[..|files| - 1], files[|files| - 1];
      assert files == front + [n];
      OneRowUpTo(spool, front, verdict, r);
      assert n !in front;
    }
  }

  /** The files of the list with this property. */
  function Picked(files: seq<Name>, p: Name -> bool): set<Name> {
    set n | n in files && p(n)
  }

  function Only(files: map<Name, Event>, some: set<Name>): map<Name, Event> {
    map n | n in files && n in some :: files[n]
  }

  function IsBad(verdict: Name -> Verdict): Name -> bool {
    (n: Name) => verdict(n).Bad?
  }

  /** The file leaves the spool. */
  function Leaves(verdict: Name -> Verdict, commits: bool): Name -> bool {
    (n: Name) => verdict(n).Bad? || (verdict(n).Good? && commits)
  }

  /** The file ends in quarantine. */
  function Quarantined(verdict: Name -> Verdict, commits: bool, unlinks: Name -> bool): Name -> bool {
    (n: Name) => verdict(n).Bad? || (verdict(n).Good? && commits && !unlinks(n))
  }

  function Any(): Name -> bool {
    (n: Name) => true
  }

  function Stuck(unlinks: Name -> bool): Name -> bool {
    (n: Name) => !unlinks(n)
  }

  lemma NothingMoved(spool: map<Name, Event>, quarantine: map<Name, Event>)
    ensures spool - {} == spool && quarantine + Only(spool, {}) == quarantine
  {
  }

  lemma MoveOne(spool: map<Name, Event>, quarantine: map<Name, Event>, some: set<Name>, n: Name)
    requires n in spool
    ensures spool - some - {n} == spool - (some + {n})
    ensures (quarantine + Only(spool, some))[n := spool[n]] == quarantine + Only(spool, some + {n})
  {
  }

  lemma PickedGrows(files: seq<Name>, i: nat, p: Name -> bool)
    requires i < |files|
    ensures Picked(files[..i + 1], p) == if p(files[i]) then Picked(files[..i], p) + {files[i]} else Picked(files[..i], p)
    ensures Distinct(files) ==> files[i] !in Picked(files[..i], p)
  {
    assert files[..i + 1] == files[..i] + [files[i]];
  }

  lemma OnesOfListing(files: seq<Name>, verdict: Name -> Verdict, v: Verdict)
    requires Distinct(files)
    ensures forall n :: n in Ones(files, verdict, v) <==> n in files && verdict(n) == v
    ensures Distinct(Ones(files, verdict, v))
  {
    forall n ensures n in Ones(files, verdict, v) <==> n in files && verdict(n) == v {
      OnesAre(files, verdict, v, n);
    }
    OnesAre(files, verdict, v, 0);
  }

  /** Where the files are after both moves, or after the first alone. */
  lemma FilesAfter(spool: map<Name, Event>, quarantine: map<Name, Event>, files: seq<Name>,
                   verdict: Name -> Verdict, unlinks: Name -> bool)
    requires Distinct(files) && IsListing(files, spool)
    ensures var bad, good := Picked(files, IsBad(verdict)), Ones(files, verdict, Good);
      && Picked(files, Leaves(verdict, false)) == bad
      && Picked(files, Quarantined(verdict, false, unlinks)) == bad
      && Distinct(good)
      && (forall n :: n in good ==> n in spool - bad && (spool - bad)[n] == spool[n])
      && spool - bad - Picked(good, Any()) == spool - Picked(files, Leaves(verdict, true))
      && quarantine + Only(spool, bad) + Only(spool - bad, Picked(good, Stuck(unlinks)))
         == quarantine + Only(spool, Picked(files, Quarantined(verdict, true, unlinks)))
  {
    OnesOfListing(files, verdict, Good);
    var bad, good := Picked(files, IsBad(verdict)), Ones(files, verdict, Good);
    assert Picked(files, Leaves(verdict, false)) == bad;
    assert Picked(files, Quarantined(verdict, false, unlinks)) == bad;
    assert Picked(files, Leaves(verdict, true)) == bad + Picked(good, Any());
    assert Picked(files, Quarantined(verdict, true, unlinks)) == bad + Picked(good, Stuck(unlinks));
    MovedTwice(spool, quarantine, bad, Picked(good, Any()), Picked(good, Stuck(unlinks)));
  }

  lemma MovedTwice(spool: map<Name, Event>, quarantine: map<Name, Event>, bad: set<Name>, good: set<Name>, stuck: set<Name>)
    requires bad !! stuck
    ensures spool - bad - good == spool - (bad + good)
    ensures quarantine + Only(spool, bad) + Only(spool - bad, stuck) == quarantine + Only(spool, bad + stuck)
  {
  }

  lemma SplitAt(files: seq<Name>, i: nat)
    requires Distinct(files) && i < |files|
    ensures files[..i + 1] == files[..i] + [files[i]] && files[..i + 1][..i] == files[..i]
    ensures files[i] !in files[..i] && files[i] !in files[i + 1..]
    ensures forall n :: n in files[i..] <==> n == files[i] || n in files[i + 1..]
  {
    assert files[i..] == [files[i]] + files[i + 1..];
  }

  // ---- the drain follows the steps ----

  ghost predicate IsRun(s: State, t: State, run: seq<Step>) {
    Runs(s, run) && After(s, run) == t
  }

  lemma NextStep(s: State, t: State, run: seq<Step>, step: Step)
    requires IsRun(s, t, run) && Enabled(t, step)
    ensures IsRun(s, Do(t, step), run + [step])
  {
    assert (run + [step])[..|run|] == run;
  }

  lemma {:induction false} JoinRuns(s: State, t: State, u: State, a: seq<Step>, b: seq<Step>)
    requires IsRun(s, t, a) && IsRun(t, u, b)
    ensures IsRun(s, u, a + b)
    decreases |b|
  {
    if b == [] {
      assert a + b == a;
    } else {
      var front := b[..|b| - 1];
      JoinRuns(s, t, After(t, front), a, front);
      NextStep(s, After(t, front), a + front, b[|b| - 1]);
      assert a + b == a + front + [b[|b| - 1]];
    }
  }

  lemma AtTwice(s: State, p: Pid, first: Phase, second: Phase)
    ensures At(At(s, p, first), p, second) == At(s, p, second) && Of(At(s, p, first), p) == first
  {
  }

  /** What a drain of `p` has done to files and rows after `i` files of the first pass. */
  function Done(s: State, p: Pid, files: seq<Name>, verdict: Name -> Verdict, i: nat): State
    requires i <= |files|
  {
    var bad := Picked(files[..i], IsBad(verdict));
    s.(spool := s.spool - bad, quarantine := s.quarantine + Only(s.spool, bad),
       pending := s.pending + RowsOf(s.spool, files[..i], verdict),
       writer := if Ones(files[..i], verdict, Good) == [] then s.writer else Some(p))
  }

  function Taken(s: State, p: Pid, files: seq<Name>, verdict: Name -> Verdict, i: nat, hand: Option<Event>): State
    requires i <= |files|
  {
    At(Done(s, p, files, verdict, i), p, Inserting(files[i..], Ones(files[..i], verdict, Good), hand))
  }

  /** What the last pass has done after `i` files. */
  function Cleared(s: State, files: seq<Name>, unlinks: Name -> bool, i: nat): State
    requires i <= |files|
  {
    s.(spool := s.spool - Picked(files[..i], Any()),
       quarantine := s.quarantine + Only(s.spool, Picked(files[..i], Stuck(unlinks))))
  }

  function Unlinked(s: State, p: Pid, files: seq<Name>, unlinks: Name -> bool, i: nat): State
    requires i <= |files|
  {
    At(Cleared(s, files, unlinks, i), p, Unlinking(files[i..]))
  }

  lemma ReadNext(s: State, p: Pid, files: seq<Name>, verdict: Name -> Verdict, i: nat)
    requires Distinct(files) && IsListing(files, s.spool) && i < |files|
    ensures var t := Taken(s, p, files, verdict, i, None);
      Enabled(t, Read(p)) && Do(t, Read(p)) == Taken(s, p, files, verdict, i, Some(s.spool[files[i]]))
  {
    SplitAt(files, i);
    PickedGrows(files, i, IsBad(verdict));
    var base, good := Done(s, p, files, verdict, i), Ones(files[..i], verdict, Good);
    assert base.spool[files[i]] == s.spool[files[i]];
    AtTwice(base, p, Inserting(files[i..], good, None), Inserting(files[i..], good, Some(s.spool[files[i]])));
  }

  lemma DoneNext(s: State, p: Pid, files: seq<Name>, verdict: Name -> Verdict, i: nat)
    requires Distinct(files) && IsListing(files, s.spool) && i < |files|
    ensures var base, n := Done(s, p, files, verdict, i), files[i];
      Done(s, p, files, verdict, i + 1) ==
        match verdict(n)
        case Good => base.(pending := base.pending + multiset{Row(n, s.spool[n])}, writer := Some(p))
        case Bad => Moved(base, n)
        case Transient => base
  {
    SplitAt(files, i);
    PickedGrows(files, i, IsBad(verdict));
    MoveOne(s.spool, s.quarantine, Picked(files[..i], IsBad(verdict)), files[i]);
  }

  lemma TakeNext(s: State, p: Pid, files: seq<Name>, verdict: Name -> Verdict, i: nat)
    requires Distinct(files) && IsListing(files, s.spool) && i < |files| && Free(s, p)
    ensures var t, step := Taken(s, p, files, verdict, i, Some(s.spool[files[i]])), Take(p, verdict(files[i]));
      Enabled(t, step) && Do(t, step) == Taken(s, p, files, verdict, i + 1, None)
  {
    SplitAt(files, i);
    DoneNext(s, p, files, verdict, i);
    assert files[i..][0] == files[i] && files[i..][1..] == files[i + 1..];
    var good := Ones(files[..i], verdict, Good);
    TakeAt(Done(s, p, files, verdict, i), p, files[i..], good, s.spool[files[i]], verdict(files[i]));
  }

  lemma TakeAt(s: State, p: Pid, todo: seq<Name>, inserted: seq<Name>, event: Event, verdict: Verdict)
    requires todo != [] && Free(s, p)
    ensures var t := At(s, p, Inserting(todo, inserted, Some(event)));
      && Enabled(t, Take(p, verdict))
      && Do(t, Take(p, verdict)) ==
        match verdict
        case Good =>
          At(s.(pending := s.pending + multiset{Row(todo[0], event)}, writer := Some(p)), p,
             Inserting(todo[1..], inserted + [todo[0]], None))
        case Bad => At(Moved(s, todo[0]), p, Inserting(todo[1..], inserted, None))
        case Transient => At(s, p, Inserting(todo[1..], inserted, None))
  {
    var was := Inserting(todo, inserted, Some(event));
    match verdict
    case Good =>
      assert Do(At(s, p, was), Take(p, Good)) ==
        At(At(s.(pending := s.pending + multiset{Row(todo[0], event)}, writer := Some(p)), p, was), p,
           Inserting(todo[1..], inserted + [todo[0]], None));
      AtTwice(s.(pending := s.pending + multiset{Row(todo[0], event)}, writer := Some(p)), p, was,
              Inserting(todo[1..], inserted + [todo[0]], None));
    case Bad =>
      MovedAt(s, p, was, todo[0]);
      AtTwice(Moved(s, todo[0]), p, was, Inserting(todo[1..], inserted, None));
    case Transient => AtTwice(s, p, was, Inserting(todo[1..], inserted, None));
  }

  lemma MovedAt(s: State, p: Pid, phase: Phase, n: Name)
    ensures Moved(At(s, p, phase), n) == At(Moved(s, n), p, phase)
  {
  }

  lemma UnlinkNext(s: State, p: Pid, files: seq<Name>, unlinks: Name -> bool, i: nat)
    requires Distinct(files) && i < |files| && forall n :: n in files ==> n in s.spool
    ensures var t, step := Unlinked(s, p, files, unlinks, i), Unlink(p, unlinks(files[i]));
      Enabled(t, step) && Do(t, step) == Unlinked(s, p, files, unlinks, i + 1)
  {
    SplitAt(files, i);
    ClearedNext(s, files, unlinks, i);
    var base := Cleared(s, files, unlinks, i);
    assert files[i..][0] == files[i] && files[i..][1..] == files[i + 1..];
    AtTwice(base, p, Unlinking(files[i..]), Unlinking(files[i + 1..]));
    MovedAt(base, p, Unlinking(files[i..]), files[i]);
  }

  lemma ClearedNext(s: State, files: seq<Name>, unlinks: Name -> bool, i: nat)
    requires Distinct(files) && i < |files| && forall n :: n in files ==> n in s.spool
    ensures var base, n := Cleared(s, files, unlinks, i), files[i];
      Cleared(s, files, unlinks, i + 1) == if unlinks(n) then base.(spool := base.spool - {n}) else Moved(base, n)
  {
    SplitAt(files, i);
    PickedGrows(files, i, Any());
    PickedGrows(files, i, Stuck(unlinks));
    MoveOne(s.spool, s.quarantine, Picked(files[..i], Any()), files[i]);
    MoveOne(s.spool, s.quarantine, Picked(files[..i], Stuck(unlinks)), files[i]);
  }

  lemma {:induction false} TakesRun(s: State, p: Pid, files: seq<Name>, verdict: Name -> Verdict, i: nat)
    returns (run: seq<Step>)
    requires Of(s, p).Idle? && Free(s, p) && Distinct(files) && IsListing(files, s.spool) && i <= |files|
    ensures IsRun(s, Taken(s, p, files, verdict, i, None), run)
  {
    if i == 0 {
      run := BeginRun(s, p, files, verdict);
    } else {
      run := TakesRun(s, p, files, verdict, i - 1);
      run := FileRun(s, p, files, verdict, i - 1, run);
    }
  }

  lemma FileRun(s: State, p: Pid, files: seq<Name>, verdict: Name -> Verdict, i: nat, before: seq<Step>)
    returns (run: seq<Step>)
    requires Free(s, p) && Distinct(files) && IsListing(files, s.spool) && i < |files|
    requires IsRun(s, Taken(s, p, files, verdict, i, None), before)
    ensures IsRun(s, Taken(s, p, files, verdict, i + 1, None), run)
  {
    ReadNext(s, p, files, verdict, i);
    TakeNext(s, p, files, verdict, i);
    run := TwoSteps(s, Taken(s, p, files, verdict, i, None), before, Read(p), Take(p, verdict(files[i])));
  }

  lemma BeginRun(s: State, p: Pid, files: seq<Name>, verdict: Name -> Verdict) returns (run: seq<Step>)
    requires Of(s, p).Idle? && Distinct(files) && IsListing(files, s.spool)
    ensures IsRun(s, Taken(s, p, files, verdict, 0, None), run)
  {
    NothingMoved(s.spool, s.quarantine);
    assert files[..0] == [] && files[0..] == files;
    assert Done(s, p, files, verdict, 0) == s;
    NextStep(s, s, [], Begin(p, files));
    run := [] + [Begin(p, files)];
  }

  lemma TwoSteps(s: State, t: State, before: seq<Step>, a: Step, b: Step) returns (run: seq<Step>)
    requires IsRun(s, t, before) && Enabled(t, a) && Enabled(Do(t, a), b)
    ensures IsRun(s, Do(Do(t, a), b), run) && run == before + [a] + [b]
  {
    NextStep(s, t, before, a);
    NextStep(s, Do(t, a), before + [a], b);
    run := before + [a] + [b];
  }

  lemma {:induction false} UnlinksRun(start: State, s: State, before: seq<Step>, p: Pid, files: seq<Name>,
                                      unlinks: Name -> bool, i: nat)
    returns (run: seq<Step>)
    requires Of(s, p) == Unlinking(files) && IsRun(start, s, before) && i <= |files|
    requires Distinct(files) && forall n :: n in files ==> n in s.spool
    ensures IsRun(start, Unlinked(s, p, files, unlinks, i), run)
  {
    if i == 0 {
      NothingMoved(s.spool, s.quarantine);
      assert files[..0] == [] && files[0..] == files;
      assert Cleared(s, files, unlinks, 0) == s;
      assert s.phases[p := Unlinking(files)] == s.phases;
      run := before;
    } else {
      run := UnlinksRun(start, s, before, p, files, unlinks, i - 1);
      UnlinkNext(s, p, files, unlinks, i - 1);
      NextStep(start, Unlinked(s, p, files, unlinks, i - 1), run, Unlink(p, unlinks(files[i - 1])));
      run := run + [Unlink(p, unlinks(files[i - 1]))];
    }
  }

  /** Where a drain of `p` without a fault ends. */
  function Drained(s: State, p: Pid, files: seq<Name>, verdict: Name -> Verdict, unlinks: Name -> bool): State {
    State(s.spool - Picked(files, Leaves(verdict, true)),
          s.quarantine + Only(s.spool, Picked(files, Quarantined(verdict, true, unlinks))),
          s.rows + s.pending + RowsOf(s.spool, files, verdict), multiset{}, None, s.phases[p := Idle], s.ever)
  }

  lemma {:induction false} NoGoodNoRows(spool: map<Name, Event>, files: seq<Name>, verdict: Name -> Verdict)
    requires Ones(files, verdict, Good) == []
    ensures RowsOf(spool, files, verdict) == multiset{}
  {
    if files != [] {
      NoGoodNoRows(spool, files[..|files| - 1], verdict);
    }
  }

  lemma EndedDone(s: State, p: Pid, files: seq<Name>, verdict: Name -> Verdict)
    requires Free(s, p) && (s.writer.None? ==> s.pending == multiset{})
    ensures Ended(Done(s, p, files, verdict, |files|), p, true) == Committed(s, files, verdict)
  {
    assert files[..|files|] == files;
    var base := Done(s, p, files, verdict, |files|);
    if base.writer != Some(p) {
      NoGoodNoRows(s.spool, files, verdict);
      assert base.rows + base.pending == base.rows;
    }
  }

  lemma CommitNext(s: State, p: Pid, files: seq<Name>, verdict: Name -> Verdict)
    requires Free(s, p) && (s.writer.None? ==> s.pending == multiset{})
    ensures var t, good := Taken(s, p, files, verdict, |files|, None), Ones(files, verdict, Good);
      && Enabled(t, Commit(p))
      && Do(t, Commit(p)) == At(Committed(s, files, verdict), p, Unlinking(good))
  {
    var base, good := Done(s, p, files, verdict, |files|), Ones(files, verdict, Good);
    assert files[..|files|] == files && files[|files|..] == [];
    EndedDone(s, p, files, verdict);
    AtTwice(base, p, Inserting([], good, None), Unlinking(good));
    AtTwice(Ended(base, p, true), p, Inserting([], good, None), Unlinking(good));
  }

  function Committed(s: State, files: seq<Name>, verdict: Name -> Verdict): State {
    var bad := Picked(files, IsBad(verdict));
    s.(spool := s.spool - bad, quarantine := s.quarantine + Only(s.spool, bad),
       rows := s.rows + s.pending + RowsOf(s.spool, files, verdict), pending := multiset{}, writer := None)
  }

  lemma FinishNext(s: State, p: Pid, files: seq<Name>, verdict: Name -> Verdict, unlinks: Name -> bool)
    requires Distinct(files) && IsListing(files, s.spool)
    ensures var good := Ones(files, verdict, Good);
      var t := Unlinked(At(Committed(s, files, verdict), p, Unlinking(good)), p, good, unlinks, |good|);
      Enabled(t, Finish(p)) && Do(t, Finish(p)) == Drained(s, p, files, verdict, unlinks)
  {
    var good := Ones(files, verdict, Good);
    FilesAfter(s.spool, s.quarantine, files, verdict, unlinks);
    assert good[..|good|] == good && good[|good|..] == [];
    var base := Committed(s, files, verdict);
    assert Cleared(At(base, p, Unlinking(good)), good, unlinks, |good|) == At(Cleared(base, good, unlinks, |good|), p, Unlinking(good));
    AtTwice(Cleared(base, good, unlinks, |good|), p, Unlinking(good), Unlinking([]));
    AtTwice(Cleared(base, good, unlinks, |good|), p, Unlinking([]), Idle);
  }

  /** A drain without a fault, while nobody else writes, is a run of the steps above. */
  lemma DrainFollowsSteps(s: State, p: Pid, files: seq<Name>, verdict: Name -> Verdict, unlinks: Name -> bool)
    returns (run: seq<Step>)
    requires Of(s, p).Idle? && Free(s, p) && (s.writer.None? ==> s.pending == multiset{})
    requires Distinct(files) && IsListing(files, s.spool)
    ensures IsRun(s, Drained(s, p, files, verdict, unlinks), run)
  {
    var good := Ones(files, verdict, Good);
    run := TakesRun(s, p, files, verdict, |files|);
    CommitNext(s, p, files, verdict);
    NextStep(s, Taken(s, p, files, verdict, |files|, None), run, Commit(p));
    FilesAfter(s.spool, s.quarantine, files, verdict, unlinks);
    var committed := At(Committed(s, files, verdict), p, Unlinking(good));
    run := UnlinksRun(s, committed, run + [Commit(p)], p, good, unlinks, |good|);
    FinishNext(s, p, files, verdict, unlinks);
    NextStep(s, Unlinked(committed, p, good, unlinks, |good|), run, Finish(p));
    run := run + [Finish(p)];
  }

  /** Where a drain leaves a file: inserted and gone; refused, or not to be unlinked, and in
      quarantine; or met while the database was busy, and still there. */
  lemma FateOfFile(s: State, p: Pid, files: seq<Name>, verdict: Name -> Verdict, unlinks: Name -> bool, n: Name)
    requires Distinct(files) && IsListing(files, s.spool) && n in files
    ensures var t := Drained(s, p, files, verdict, unlinks);
      && (n in t.spool <==> verdict(n).Transient?)
      && (verdict(n).Bad? || (verdict(n).Good? && !unlinks(n)) ==> n in t.quarantine && t.quarantine[n] == s.spool[n])
      && (verdict(n).Transient? || (verdict(n).Good? && unlinks(n)) ==>
            (n in t.quarantine <==> n in s.quarantine) && (n in s.quarantine ==> t.quarantine[n] == s.quarantine[n]))
      && (t.rows[Row(n, s.spool[n])] ==
            s.rows[Row(n, s.spool[n])] + s.pending[Row(n, s.spool[n])] + if verdict(n).Good? then 1 else 0)
  {
    OneRowEach(s.spool, files, verdict, Row(n, s.spool[n]));
  }
}
