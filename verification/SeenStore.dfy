/** Contextual injection under races. Hook processes of one session share a JSON file
    and a directory of claim sentinels, with no lock. */
module SeenStore {
  import opened Tables

  // Snapshots go stale, saves are lost or overwrite each other, and the file may turn
  // unreadable, which reads as empty. Claim files are never pruned here, and a memory
  // stands for its sentinel name.

  type Mem = nat
  type Pid = nat

  /** The parsed file: the turn counter and the turn each memory was last marked. */
  datatype File = File(turn: int, seen: map<Mem, int>)

  const UNREADABLE := File(0, map[])

  /** A claim sentinel: one per memory and epoch. */
  datatype Sentinel = Sentinel(mem: Mem, epoch: int)

  // ---- what one process computes from its snapshot ----

  function Epoch(data: File, m: Mem): int {
    if m in data.seen then data.seen[m] else 0
  }

  predicate Unseen(data: File, m: Mem, reinjectTurns: nat) {
    m !in data.seen || (reinjectTurns > 0 && data.turn - data.seen[m] > reinjectTurns)
  }

  function Bumped(file: File): File {
    file.(turn := file.turn + 1)
  }

  function Later(a: int, b: int): int {
    if a >= b then a else b
  }

  /** Merge of the file just read with own entries, stamped with the later turn. */
  function Marked(latest: File, own: File, ids: set<Mem>): File {
    var turn := Later(latest.turn, own.turn);
    File(turn, latest.seen + map m | m in ids :: turn)
  }

  // ---- the system ----

  datatype Pc =
    | Opened      // snapshot taken at process start
    | Bumping     // turn bumped in memory, before the save
    | Ready       // filtering and claiming
    | Marking     // served and merged in memory, before the save
    | Finished

  datatype Proc = Proc(data: File, won: set<Mem>, pc: Pc)

  /** A serve: the epoch it claimed, who won it, and the turn it was stamped with. */
  datatype Serve = Serve(epoch: int, winner: Pid, stamp: Option<int>)

  /** `serves` is the history of winning claims, per memory and in order. */
  datatype System = System(
    file: File, claims: set<Sentinel>, procs: map<Pid, Proc>, serves: map<Mem, seq<Serve>>)

  datatype Action =
    | Open
    | BumpLoad
    | BumpSave(kept: bool)    // a save may be lost
    | Claim(mem: Mem)
    | Burn(mem: Mem)          // the sentinel is created, but closing it fails: a lost claim
    | MarkLoad
    | MarkSave(kept: bool)

  function ServesOf(s: System, m: Mem): seq<Serve> {
    if m in s.serves then s.serves[m] else []
  }

  function StampedBy(ws: seq<Serve>, p: Pid, turn: int): seq<Serve> {
    seq(|ws|, i requires 0 <= i < |ws| =>
      if ws[i].winner == p && ws[i].stamp.None? then ws[i].(stamp := Some(turn)) else ws[i])
  }

  function Saved(s: System, p: Pid, kept: bool, next: Pc): System
    requires p in s.procs
  {
    var proc := s.procs[p];
    s.(file := if kept then proc.data else s.file, procs := s.procs[p := proc.(pc := next)])
  }

  /** One atomic action of process `p`. A process that never acts again has crashed. */
  function Do(r: nat, s: System, p: Pid, a: Action): System {
    if a.Open? then
      if p in s.procs then s else s.(procs := s.procs[p := Proc(s.file, {}, Opened)])
    else if p !in s.procs then s
    else
      var proc := s.procs[p];
      match (a, proc.pc)
      case (BumpLoad, Opened) => s.(procs := s.procs[p := proc.(data := Bumped(s.file), pc := Bumping)])
      case (BumpSave(kept), Bumping) => Saved(s, p, kept, Ready)
      case (Claim(m), Ready) =>
        var sentinel := Sentinel(m, Epoch(proc.data, m));
        if !Unseen(proc.data, m, r) || sentinel in s.claims then s
        else System(
          s.file, s.claims + {sentinel},
          s.procs[p := proc.(won := proc.won + {m})],
          s.serves[m := ServesOf(s, m) + [Serve(sentinel.epoch, p, None)]])
      case (Burn(m), Ready) => s.(claims := s.claims + {Sentinel(m, Epoch(proc.data, m))})
      case (MarkLoad, Ready) =>
        if proc.won == {} then s
        else
          var data := Marked(s.file, proc.data, proc.won);
          s.(procs := s.procs[p := proc.(data := data, pc := Marking)],
             serves := map m | m in s.serves ::
               if m in proc.won then StampedBy(s.serves[m], p, data.turn) else s.serves[m])
      case (MarkSave(kept), Marking) => Saved(s, p, kept, Finished)
      case _ => s
  }

  datatype Turn = Act(p: Pid, a: Action) | FileLost

  function Next(r: nat, s: System, t: Turn): System {
    match t
    case Act(p, a) => Do(r, s, p, a)
    case FileLost => s.(file := UNREADABLE)
  }

  function Execute(r: nat, s: System, turns: seq<Turn>): System {
    if |turns| == 0 then s
    else Next(r, Execute(r, s, turns[..|turns| - 1]), turns[|turns| - 1])
  }

  const FRESH := System(UNREADABLE, {}, map[], map[])

  // ---- the invariant ----

  /** The serves of one memory form a chain: the first claims epoch 0, each next one
      claims the stamp of the one before, and every stamp lies more than `r` turns
      past its epoch. */
  predicate Chain(r: nat, ws: seq<Serve>) {
    && (|ws| > 0 ==> ws[0].epoch == 0)
    && (|ws| > 1 ==> r > 0)
    && (forall k :: 0 < k < |ws| ==> ws[k - 1].stamp == Some(ws[k].epoch))
    && (forall k :: 0 <= k < |ws| && ws[k].stamp.Some? ==>
          ws[k].stamp.value >= 1 && (k > 0 ==> ws[k].stamp.value > ws[k].epoch + r))
  }

  predicate IsStamp(ws: seq<Serve>, turn: int) {
    exists k :: 0 <= k < |ws| && ws[k].stamp == Some(turn)
  }

  /** Everything a snapshot says was seen is the stamp of a recorded serve. */
  predicate Sourced(s: System, data: File) {
    data.turn >= 0 && forall m :: m in data.seen ==> IsStamp(ServesOf(s, m), data.seen[m])
  }

  /** An unstamped serve belongs to a process that has not marked yet and whose own
      turn is already far enough past the epoch. */
  predicate Pending(r: nat, s: System, m: Mem, w: Serve) {
    w.stamp.None? ==>
      && w.winner in s.procs
      && var proc := s.procs[w.winner];
      && proc.pc.Ready? && m in proc.won
      && (w.epoch != 0 ==> proc.data.turn - w.epoch > r)
  }

  predicate ProcInv(s: System, proc: Proc) {
    && Sourced(s, proc.data)
    && (!proc.pc.Opened? ==> proc.data.turn >= 1)
    && (proc.pc.Opened? || proc.pc.Bumping? ==> proc.won == {})
  }

  predicate Recorded(r: nat, s: System, m: Mem, w: Serve) {
    Pending(r, s, m, w) && Sentinel(m, w.epoch) in s.claims
  }

  predicate WinnersAwait(s: System, m: Mem) {
    forall p :: p in s.procs && s.procs[p].pc.Ready? && m in s.procs[p].won ==> Awaits(ServesOf(s, m), p)
  }

  predicate ServesInv(r: nat, s: System, m: Mem) {
    && Chain(r, ServesOf(s, m))
    && (forall k :: 0 <= k < |ServesOf(s, m)| ==> Recorded(r, s, m, ServesOf(s, m)[k]))
    && WinnersAwait(s, m)
  }

  ghost predicate Inv(r: nat, s: System) {
    && Sourced(s, s.file)
    && (forall p :: p in s.procs ==> ProcInv(s, s.procs[p]))
    && (forall m :: ServesInv(r, s, m))
  }

  predicate Awaits(ws: seq<Serve>, p: Pid) {
    exists k :: 0 <= k < |ws| && ws[k].winner == p && ws[k].stamp.None?
  }

  /** Only the end of a chain can be unstamped. */
  lemma EarlierAreStamped(r: nat, ws: seq<Serve>)
    requires Chain(r, ws)
    ensures forall j :: 0 <= j < |ws| - 1 ==> ws[j].stamp.Some?
  {
    forall j | 0 <= j < |ws| - 1 ensures ws[j].stamp.Some? { assert ws[j].stamp == Some(ws[j + 1].epoch); }
  }

  lemma StampIsNextEpoch(r: nat, ws: seq<Serve>, k: nat)
    requires Chain(r, ws) && k < |ws|
    ensures k + 1 < |ws| ==> ws[k].stamp == Some(ws[k + 1].epoch)
  {
  }

  // ---- claims ----

  /** A process can only win the epoch that ends the chain. */
  lemma WinExtendsChain(r: nat, ws: seq<Serve>, data: File, m: Mem, p: Pid)
    requires Chain(r, ws) && data.turn >= 1
    requires m in data.seen ==> IsStamp(ws, data.seen[m])
    requires Unseen(data, m, r)
    requires forall k :: 0 <= k < |ws| ==> ws[k].epoch != Epoch(data, m)
    ensures Chain(r, ws + [Serve(Epoch(data, m), p, None)])
    ensures Epoch(data, m) != 0 ==> data.turn - Epoch(data, m) > r
  {
    var e := Epoch(data, m);
    if m in data.seen {
      var k :| 0 <= k < |ws| && ws[k].stamp == Some(e);
      StampIsNextEpoch(r, ws, k);
      assert k == |ws| - 1;
    }
  }

  /** Stamping a pending serve completes the end of the chain. */
  lemma StampKeepsChain(r: nat, ws: seq<Serve>, p: Pid, turn: int)
    requires Chain(r, ws) && Awaits(ws, p) && turn >= 1
    requires forall k :: 0 <= k < |ws| && ws[k].winner == p && ws[k].stamp.None? && ws[k].epoch != 0 ==>
      turn > ws[k].epoch + r
    ensures Chain(r, StampedBy(ws, p, turn)) && IsStamp(StampedBy(ws, p, turn), turn)
    ensures forall t :: IsStamp(ws, t) ==> IsStamp(StampedBy(ws, p, turn), t)
  {
    var after := StampedBy(ws, p, turn);
    var k :| 0 <= k < |ws| && ws[k].winner == p && ws[k].stamp.None?;
    assert after[k].stamp == Some(turn);
    EarlierAreStamped(r, ws);
    EpochsPositive(r, ws);
    forall t | IsStamp(ws, t) ensures IsStamp(after, t) {
      var j :| 0 <= j < |ws| && ws[j].stamp == Some(t);
      assert after[j].stamp == Some(t);
    }
    forall j | 0 < j < |after| ensures after[j - 1].stamp == Some(after[j].epoch) {
      assert ws[j - 1].stamp == Some(ws[j].epoch);
    }
  }

  lemma EpochsPositive(r: nat, ws: seq<Serve>)
    requires Chain(r, ws)
    ensures forall k :: 0 < k < |ws| ==> ws[k].epoch >= 1
  {
    forall k | 0 < k < |ws| ensures ws[k].epoch >= 1 { assert ws[k - 1].stamp == Some(ws[k].epoch); }
  }

  // ---- one action ----

  /** Nothing about the serves changes; snapshots move among sourced files, and no
      process that is claiming is disturbed. */
  lemma QuietKeeps(r: nat, s: System, after: System)
    requires Inv(r, s) && after.serves == s.serves && s.claims <= after.claims
    requires Sourced(s, after.file)
    requires s.procs.Keys <= after.procs.Keys
    requires forall p :: p in after.procs ==> ProcInv(s, after.procs[p])
    requires forall p :: p in s.procs && s.procs[p].pc.Ready? ==> after.procs[p] == s.procs[p]
    requires forall p :: p in after.procs && after.procs[p].pc.Ready? ==>
      (p in s.procs && s.procs[p].pc.Ready?) || after.procs[p].won == {}
    ensures Inv(r, after)
  {
    forall m ensures ServesOf(after, m) == ServesOf(s, m) {}
    forall m ensures ServesInv(r, after, m) {
      assert ServesInv(r, s, m);
      forall k | 0 <= k < |ServesOf(s, m)| ensures Recorded(r, after, m, ServesOf(s, m)[k]) {
        assert Recorded(r, s, m, ServesOf(s, m)[k]);
      }
    }
  }

  lemma SourcedGrows(before: System, after: System, data: File)
    requires Sourced(before, data)
    requires forall m, t :: IsStamp(ServesOf(before, m), t) ==> IsStamp(ServesOf(after, m), t)
    ensures Sourced(after, data)
  {
  }

  lemma AwaitsGrows(before: seq<Serve>, after: seq<Serve>, p: Pid)
    requires Awaits(before, p) && |before| <= |after|
    requires forall k :: 0 <= k < |before| && before[k].winner == p ==> after[k] == before[k]
    ensures Awaits(after, p)
  {
    var k :| 0 <= k < |before| && before[k].winner == p && before[k].stamp.None?;
    assert after[k].winner == p;
  }

  predicate Wins(r: nat, s: System, p: Pid, m: Mem) {
    && p in s.procs && s.procs[p].pc.Ready?
    && Unseen(s.procs[p].data, m, r)
    && Sentinel(m, Epoch(s.procs[p].data, m)) !in s.claims
  }

  lemma ClaimHistory(r: nat, s: System, p: Pid, m: Mem)
    requires Wins(r, s, p, m)
    ensures forall m' ::
      ServesOf(Do(r, s, p, Claim(m)), m') == ServesOf(s, m') + if m' == m then [Serve(Epoch(s.procs[p].data, m), p, None)] else []
    ensures forall m', t :: IsStamp(ServesOf(s, m'), t) ==> IsStamp(ServesOf(Do(r, s, p, Claim(m)), m'), t)
  {
    var after := Do(r, s, p, Claim(m));
    forall m', t | IsStamp(ServesOf(s, m'), t) ensures IsStamp(ServesOf(after, m'), t) {
      var k :| 0 <= k < |ServesOf(s, m')| && ServesOf(s, m')[k].stamp == Some(t);
      assert ServesOf(after, m')[k].stamp == Some(t);
    }
  }

  lemma ClaimKeepsAwaits(r: nat, s: System, p: Pid, m: Mem, m': Mem)
    requires WinnersAwait(s, m') && Wins(r, s, p, m)
    ensures WinnersAwait(Do(r, s, p, Claim(m)), m')
  {
    var after := Do(r, s, p, Claim(m));
    ClaimHistory(r, s, p, m);
    forall q | q in after.procs && after.procs[q].pc.Ready? && m' in after.procs[q].won
      ensures Awaits(ServesOf(after, m'), q)
    {
      if q == p && m' == m { assert ServesOf(after, m)[|ServesOf(s, m)|].winner == p; }
      else { AwaitsGrows(ServesOf(s, m'), ServesOf(after, m'), q); }
    }
  }

  lemma ClaimKeepsRecorded(r: nat, s: System, p: Pid, m: Mem, m': Mem, w: Serve)
    requires Wins(r, s, p, m) && Recorded(r, s, m', w)
    ensures Recorded(r, Do(r, s, p, Claim(m)), m', w)
  {
  }

  lemma ClaimKeepsChain(r: nat, s: System, p: Pid, m: Mem)
    requires Inv(r, s) && Wins(r, s, p, m)
    ensures var w := Serve(Epoch(s.procs[p].data, m), p, None);
      Chain(r, ServesOf(s, m) + [w]) && Recorded(r, Do(r, s, p, Claim(m)), m, w)
  {
    assert ServesInv(r, s, m) && ProcInv(s, s.procs[p]);
    forall k | 0 <= k < |ServesOf(s, m)| ensures ServesOf(s, m)[k].epoch != Epoch(s.procs[p].data, m) {
      assert Recorded(r, s, m, ServesOf(s, m)[k]);
    }
    WinExtendsChain(r, ServesOf(s, m), s.procs[p].data, m, p);
  }

  lemma ClaimKeepsServes(r: nat, s: System, p: Pid, m: Mem, m': Mem)
    requires Inv(r, s) && Wins(r, s, p, m)
    ensures ServesInv(r, Do(r, s, p, Claim(m)), m')
  {
    assert ServesInv(r, s, m');
    ClaimHistory(r, s, p, m);
    ClaimKeepsAwaits(r, s, p, m, m');
    ClaimKeepsChain(r, s, p, m);
    forall k | 0 <= k < |ServesOf(s, m')| ensures Recorded(r, Do(r, s, p, Claim(m)), m', ServesOf(s, m')[k]) {
      ClaimKeepsRecorded(r, s, p, m, m', ServesOf(s, m')[k]);
    }
  }

  lemma ClaimKeeps(r: nat, s: System, p: Pid, m: Mem)
    requires Inv(r, s) && Wins(r, s, p, m)
    ensures Inv(r, Do(r, s, p, Claim(m)))
  {
    var after := Do(r, s, p, Claim(m));
    ClaimHistory(r, s, p, m);
    SourcedGrows(s, after, s.file);
    forall q | q in after.procs ensures ProcInv(after, after.procs[q]) {
      assert ProcInv(s, s.procs[q]);
      SourcedGrows(s, after, s.procs[q].data);
    }
    forall m' ensures ServesInv(r, after, m') { ClaimKeepsServes(r, s, p, m, m'); }
  }

  predicate Marks(s: System, p: Pid) {
    p in s.procs && s.procs[p].pc.Ready? && s.procs[p].won != {}
  }

  lemma MarkHistory(r: nat, s: System, p: Pid, m: Mem)
    requires Inv(r, s) && Marks(s, p)
    ensures var won, turn := s.procs[p].won, Marked(s.file, s.procs[p].data, s.procs[p].won).turn;
      var ws := ServesOf(Do(r, s, p, MarkLoad), m);
      && ws == (if m in won then StampedBy(ServesOf(s, m), p, turn) else ServesOf(s, m))
      && Chain(r, ws)
      && (m in won ==> IsStamp(ws, turn))
      && (forall t :: IsStamp(ServesOf(s, m), t) ==> IsStamp(ws, t))
  {
    assert ServesInv(r, s, m) && ProcInv(s, s.procs[p]);
    if m in s.procs[p].won {
      StampKeepsChain(r, ServesOf(s, m), p, Marked(s.file, s.procs[p].data, s.procs[p].won).turn);
    }
  }

  lemma MarkKeepsAwaits(r: nat, s: System, p: Pid, m: Mem)
    requires Inv(r, s) && Marks(s, p)
    ensures WinnersAwait(Do(r, s, p, MarkLoad), m)
  {
    var after := Do(r, s, p, MarkLoad);
    assert ServesInv(r, s, m);
    MarkHistory(r, s, p, m);
    forall q | q in after.procs && after.procs[q].pc.Ready? && m in after.procs[q].won
      ensures Awaits(ServesOf(after, m), q)
    {
      AwaitsGrows(ServesOf(s, m), ServesOf(after, m), q);
    }
  }

  lemma MarkKeepsRecorded(r: nat, s: System, p: Pid, m: Mem, k: nat)
    requires Inv(r, s) && Marks(s, p) && k < |ServesOf(s, m)|
    ensures var after := Do(r, s, p, MarkLoad);
      |ServesOf(after, m)| == |ServesOf(s, m)| && Recorded(r, after, m, ServesOf(after, m)[k])
  {
    assert ServesInv(r, s, m);
    assert Recorded(r, s, m, ServesOf(s, m)[k]);
  }

  lemma MarkKeepsServes(r: nat, s: System, p: Pid, m: Mem)
    requires Inv(r, s) && Marks(s, p)
    ensures ServesInv(r, Do(r, s, p, MarkLoad), m)
  {
    var after := Do(r, s, p, MarkLoad);
    MarkHistory(r, s, p, m);
    MarkKeepsAwaits(r, s, p, m);
    forall k | 0 <= k < |ServesOf(after, m)| ensures Recorded(r, after, m, ServesOf(after, m)[k]) {
      MarkKeepsRecorded(r, s, p, m, k);
    }
  }

  lemma MarkKeeps(r: nat, s: System, p: Pid)
    requires Inv(r, s) && Marks(s, p)
    ensures Inv(r, Do(r, s, p, MarkLoad))
  {
    var after := Do(r, s, p, MarkLoad);
    assert ProcInv(s, s.procs[p]);
    forall m, t | IsStamp(ServesOf(s, m), t) ensures IsStamp(ServesOf(after, m), t) { MarkHistory(r, s, p, m); }
    SourcedGrows(s, after, s.file);
    forall m | m in s.procs[p].won ensures IsStamp(ServesOf(after, m), after.procs[p].data.turn) {
      MarkHistory(r, s, p, m);
    }
    forall q | q in after.procs ensures ProcInv(after, after.procs[q]) {
      assert ProcInv(s, s.procs[q]);
      if q != p { SourcedGrows(s, after, s.procs[q].data); }
    }
    forall m ensures ServesInv(r, after, m) { MarkKeepsServes(r, s, p, m); }
  }

  lemma BurnKeeps(r: nat, s: System, p: Pid, m: Mem)
    requires Inv(r, s) && p in s.procs && s.procs[p].pc.Ready?
    ensures Inv(r, Do(r, s, p, Burn(m)))
  {
    QuietKeeps(r, s, Do(r, s, p, Burn(m)));
  }

  lemma DoKeepsInv(r: nat, s: System, p: Pid, a: Action)
    requires Inv(r, s)
    ensures Inv(r, Do(r, s, p, a))
  {
    if p in s.procs && s.procs[p].pc.Ready? {
      match a
      case Claim(m) => if Wins(r, s, p, m) { ClaimKeeps(r, s, p, m); }
      case MarkLoad => if Marks(s, p) { MarkKeeps(r, s, p); }
      case Burn(m) => BurnKeeps(r, s, p, m);
      case _ =>
    } else {
      assert p in s.procs ==> ProcInv(s, s.procs[p]);
      QuietKeeps(r, s, Do(r, s, p, a));
    }
  }

  lemma {:induction false} EveryRunKeepsInv(r: nat, turns: seq<Turn>)
    ensures Inv(r, Execute(r, FRESH, turns))
  {
    if |turns| > 0 {
      var k := |turns| - 1;
      var s := Execute(r, FRESH, turns[..k]);
      EveryRunKeepsInv(r, turns[..k]);
      match turns[k]
      case Act(p, a) => DoKeepsInv(r, s, p, a);
      case FileLost => QuietKeeps(r, s, s.(file := UNREADABLE));
    } else {
      forall m ensures ServesInv(r, FRESH, m) { assert ServesOf(FRESH, m) == []; }
    }
  }

  // ---- what it means for a session ----

  lemma {:induction false} StampsGrow(r: nat, ws: seq<Serve>, i: nat, j: nat)
    requires Chain(r, ws) && i < j < |ws| && ws[j].stamp.Some?
    ensures ws[i].stamp.Some? && ws[i].stamp.value + r < ws[j].stamp.value
    decreases j - i
  {
    assert ws[j - 1].stamp == Some(ws[j].epoch);
    if i < j - 1 { StampsGrow(r, ws, i, j - 1); }
  }

  lemma {:induction false} EpochsGrow(r: nat, ws: seq<Serve>, i: nat, j: nat)
    requires Chain(r, ws) && i < j < |ws|
    ensures ws[i].epoch < ws[j].epoch
    decreases j - i
  {
    assert ws[j - 1].stamp == Some(ws[j].epoch);
    if i < j - 1 { EpochsGrow(r, ws, i, j - 1); }
  }

  /** In every interleaving of hook processes, with stale snapshots, lost saves and
      unreadable files: no two serves of a memory claim the same epoch; without
      re-injection a memory is served at most once in the session; with it, any two
      stamped serves are more than `r` turns apart, and a process that has not marked
      its serve yet holds the latest one. */
  lemma InjectionIsSpaced(r: nat, turns: seq<Turn>, m: Mem)
    ensures var ws := ServesOf(Execute(r, FRESH, turns), m);
      && (forall i, j :: 0 <= i < j < |ws| ==> ws[i].epoch < ws[j].epoch)
      && (r == 0 ==> |ws| <= 1)
      && (forall i, j :: 0 <= i < j < |ws| && ws[j].stamp.Some? ==>
            ws[i].stamp.Some? && ws[j].stamp.value > ws[i].stamp.value + r)
      && (forall i :: 0 <= i < |ws| && ws[i].stamp.None? ==> i == |ws| - 1)
  {
    EveryRunKeepsInv(r, turns);
    var s := Execute(r, FRESH, turns);
    var ws := ServesOf(s, m);
    assert ServesInv(r, s, m);
    forall i, j | 0 <= i < j < |ws| ensures ws[i].epoch < ws[j].epoch { EpochsGrow(r, ws, i, j); }
    forall i, j | 0 <= i < j < |ws| && ws[j].stamp.Some?
      ensures ws[i].stamp.Some? && ws[j].stamp.value > ws[i].stamp.value + r
    {
      StampsGrow(r, ws, i, j);
    }
    EarlierAreStamped(r, ws);
  }

  // ---- what lost saves and overlaps do to the turn counter ----

  /** A process that loads after another one's bump sees the next turn exactly when
      that bump was saved, and one that loads before the save works at the same turn;
      then one of two kept saves is overwritten by an equal turn. */
  lemma TurnsOfTwo(r: nat, s: System, p: Pid, q: Pid, kept: bool)
    requires p != q && p in s.procs && q in s.procs && s.procs[p].pc.Opened? && s.procs[q].pc.Opened?
    ensures var loaded := Do(r, s, p, BumpLoad);
      && (var after := Do(r, Do(r, loaded, p, BumpSave(kept)), q, BumpLoad);
          after.procs[q].data.turn == after.procs[p].data.turn + if kept then 1 else 0)
      && (var both := Do(r, loaded, q, BumpLoad);
          && both.procs[q].data.turn == both.procs[p].data.turn
          && Do(r, Do(r, both, p, BumpSave(true)), q, BumpSave(true)).file.turn == s.file.turn + 1)
  {
    var loaded := Do(r, s, p, BumpLoad);
    var saved := Do(r, loaded, p, BumpSave(kept));
    assert saved.procs[q].pc.Opened? && saved.file.turn == if kept then s.file.turn + 1 else s.file.turn;
    var both := Do(r, loaded, q, BumpLoad);
    assert Do(r, both, p, BumpSave(true)).procs[q] == both.procs[q];
  }

  // ---- the store of one process ----

  /** The files of a session: the JSON snapshot and the claim sentinels. */
  class StateDir {
    var file: File
    var claims: set<Sentinel>

    constructor ()
      ensures file == UNREADABLE && claims == {}
    {
      file, claims := UNREADABLE, {};
    }
  }

  function UnseenOnly(data: File, ids: seq<Mem>, reinjectTurns: nat): seq<Mem> {
    if |ids| == 0 then []
    else
      var last := ids[|ids| - 1];
      UnseenOnly(data, ids[..|ids| - 1], reinjectTurns) + if Unseen(data, last, reinjectTurns) then [last] else []
  }

  /** What the operating system does to the sentinel of a memory. */
  datatype Fault = NoFault | OpenFails | CloseFails

  /** One hook process's handle. `kept` tells whether a save reached the disk; each
      method runs as the matching actions of the system above, without interference. */
  class Store {
    const dir: StateDir
    var data: File

    constructor (dir: StateDir)
      ensures this.dir == dir && data == dir.file
    {
      this.dir := dir;
      data := dir.file;
    }

    method Save(kept: bool)
      modifies dir`file
      ensures dir.file == if kept then data else old(dir.file)
    {
      if kept { dir.file := data; }
    }

    method BumpTurn(kept: bool) returns (turn: int)
      modifies this, dir`file
      ensures data == Bumped(old(dir.file)) && turn == data.turn
      ensures dir.file == if kept then data else old(dir.file)
    {
      data := dir.file;
      data := data.(turn := data.turn + 1);
      Save(kept);
      turn := data.turn;
    }

    method FilterUnseen(ids: seq<Mem>, reinjectTurns: nat) returns (out: seq<Mem>)
      ensures out == UnseenOnly(data, ids, reinjectTurns)
    {
      out := [];
      for i := 0 to |ids|
        invariant out == UnseenOnly(data, ids[..i], reinjectTurns)
      {
        assert ids[..i + 1][..i] == ids[..i];
        if ids[i] !in data.seen {
          out := out + [ids[i]];
        } else if reinjectTurns > 0 && data.turn - data.seen[ids[i]] > reinjectTurns {
          out := out + [ids[i]];
        }
      }
      assert ids[..|ids|] == ids;
    }

    /** Every listed memory whose sentinel could be opened ends up claimed; the winners
        are those nobody had claimed at this epoch and that met no error, each once.
        Never raises: an error counts as a lost claim. */
    method Claim(ids: seq<Mem>, writable: bool, faults: Mem -> Fault) returns (won: seq<Mem>)
      modifies dir`claims
      ensures dir.claims == old(dir.claims) +
        set m | m in ids && writable && faults(m) != OpenFails :: Sentinel(m, Epoch(data, m))
      ensures forall m :: m in won <==>
        m in ids && writable && faults(m) == NoFault && Sentinel(m, Epoch(data, m)) !in old(dir.claims)
      ensures forall i, j :: 0 <= i < j < |won| ==> won[i] != won[j]
    {
      won := [];
      if !writable {
        return;
      }
      for i := 0 to |ids|
        invariant dir.claims == old(dir.claims) +
          set m | m in ids[..i] && faults(m) != OpenFails :: Sentinel(m, Epoch(data, m))
        invariant forall m :: m in won <==>
          m in ids[..i] && faults(m) == NoFault && Sentinel(m, Epoch(data, m)) !in old(dir.claims)
        invariant forall j, k :: 0 <= j < k < |won| ==> won[j] != won[k]
      {
        assert ids[..i + 1] == ids[..i] + [ids[i]];
        var sentinel := Sentinel(ids[i], Epoch(data, ids[i]));
        if sentinel in dir.claims || faults(ids[i]) == OpenFails { continue; }
        dir.claims := dir.claims + {sentinel};
        if faults(ids[i]) == CloseFails { continue; }
        won := won + [ids[i]];
      }
      assert ids[..|ids|] == ids;
    }

    method MarkSeen(ids: seq<Mem>, kept: bool)
      modifies this, dir`file
      ensures data == Marked(old(dir.file), old(data), set m | m in ids)
      ensures dir.file == if kept then data else old(dir.file)
    {
      var latest := dir.file;
      var turn := Later(latest.turn, data.turn);
      var seen := latest.seen;
      for i := 0 to |ids|
        invariant seen == latest.seen + map m | m in ids[..i] :: turn
        invariant data == old(data) && dir.file == old(dir.file)
      {
        assert ids[..i + 1] == ids[..i] + [ids[i]];
        seen := seen[ids[i] := turn];
      }
      assert ids[..|ids|] == ids;
      data := File(turn, seen);
      Save(kept);
    }
  }
}
