/** Hook processes that run one after another, each offering the same memory: at which
    turns it is injected. */
module Injection {
  import opened Tables
  import opened SeenStore

  /** One process from start to end, with nobody in between and no lost save. */
  function Begun(r: nat, s: System, p: Pid): System {
    Do(r, Do(r, Do(r, s, p, Open), p, BumpLoad), p, BumpSave(true))
  }

  function Solo(r: nat, s: System, p: Pid, m: Mem): System {
    Do(r, Do(r, Do(r, Begun(r, s, p), p, Claim(m)), p, MarkLoad), p, MarkSave(true))
  }

  /** `t` is what one process makes of `s`. */
  predicate IsSolo(r: nat, s: System, t: System, p: Pid, m: Mem) {
    t == Solo(r, s, p, m)
  }

  /** Nobody has claimed the memory at its present epoch, and it was never injected or
      more than `r` turns ago, where `r` is positive. */
  predicate IsDue(r: nat, s: System, m: Mem) {
    && Sentinel(m, EpochOf(s, m)) !in s.claims
    && (m !in s.file.seen || (r > 0 && s.file.turn + 1 > s.file.seen[m] + r))
  }

  predicate AllStamped(s: System, m: Mem) {
    forall k :: 0 <= k < |ServesOf(s, m)| ==> ServesOf(s, m)[k].stamp.Some?
  }

  lemma Begins(r: nat, s: System, p: Pid)
    requires p !in s.procs
    ensures Begun(r, s, p) ==
      s.(file := Bumped(s.file), procs := s.procs[p := Proc(Bumped(s.file), {}, Ready)])
  {
    var started, bumped, ready := Proc(s.file, {}, Opened), Proc(Bumped(s.file), {}, Bumping), Proc(Bumped(s.file), {}, Ready);
    assert s.procs[p := started][p := bumped] == s.procs[p := bumped];
    assert s.procs[p := bumped][p := ready] == s.procs[p := ready];
  }

  lemma StampsLast(ws: seq<Serve>, w: Serve, p: Pid, turn: int)
    requires forall k :: 0 <= k < |ws| ==> ws[k].stamp.Some?
    requires w.winner == p && w.stamp.None?
    ensures StampedBy(ws + [w], p, turn) == ws + [w.(stamp := Some(turn))]
  {
  }

  function Served(s: System, m: Mem, w: Serve): map<Mem, seq<Serve>> {
    s.serves[m := ServesOf(s, m) + [w]]
  }

  function EpochOf(s: System, m: Mem): int {
    if m in s.file.seen then s.file.seen[m] else 0
  }

  /** After the claim that wins. */
  function Claimed(s: System, p: Pid, m: Mem): System {
    System(Bumped(s.file), s.claims + {Sentinel(m, EpochOf(s, m))}, s.procs[p := Proc(Bumped(s.file), {m}, Ready)],
           Served(s, m, Serve(EpochOf(s, m), p, None)))
  }

  lemma Claims(r: nat, s: System, p: Pid, m: Mem)
    requires p !in s.procs && IsDue(r, s, m)
    ensures Do(r, Begun(r, s, p), p, Claim(m)) == Claimed(s, p, m)
  {
    Begins(r, s, p);
    var proc := Proc(Bumped(s.file), {}, Ready);
    assert proc.won + {m} == {m};
    assert s.procs[p := proc][p := proc.(won := {m})] == s.procs[p := proc.(won := {m})];
  }

  /** After the mark, which is then saved. */
  lemma Marks(r: nat, s: System, p: Pid, m: Mem)
    requires AllStamped(s, m)
    ensures var n := s.file.turn + 1;
      var after := Do(r, Do(r, Claimed(s, p, m), p, MarkLoad), p, MarkSave(true));
      && after.file == File(n, s.file.seen[m := n]) && after.procs.Keys == s.procs.Keys + {p}
      && after.claims == s.claims + {Sentinel(m, EpochOf(s, m))}
      && ServesOf(after, m) == ServesOf(s, m) + [Serve(EpochOf(s, m), p, Some(n))]
  {
    var c, n := Claimed(s, p, m), s.file.turn + 1;
    StampsLast(ServesOf(s, m), Serve(EpochOf(s, m), p, None), p, n);
    MarkedFile(s.file, m);
    assert m in c.serves && m in c.procs[p].won;
    assert c.serves[m] == ServesOf(s, m) + [Serve(EpochOf(s, m), p, None)];
  }

  lemma MarkedFile(file: File, m: Mem)
    ensures Marked(Bumped(file), Bumped(file), {m}) == File(file.turn + 1, file.seen[m := file.turn + 1])
  {
    var marked := Marked(Bumped(file), Bumped(file), {m});
    assert marked.seen == file.seen[m := file.turn + 1];
  }

  /** A process alone injects the memory exactly when it is due, and then stamps it with
      the turn it opened. */
  lemma SoloServes(r: nat, s: System, after: System, p: Pid, m: Mem)
    requires p !in s.procs && AllStamped(s, m) && IsDue(r, s, m) && IsSolo(r, s, after, p, m)
    ensures var n := s.file.turn + 1;
      && after.file == File(n, s.file.seen[m := n]) && after.procs.Keys == s.procs.Keys + {p}
      && after.claims == s.claims + {Sentinel(m, EpochOf(s, m))}
      && ServesOf(after, m) == ServesOf(s, m) + [Serve(EpochOf(s, m), p, Some(n))]
  {
    Claims(r, s, p, m);
    Marks(r, s, p, m);
  }

  lemma SoloSkips(r: nat, s: System, after: System, p: Pid, m: Mem)
    requires p !in s.procs && !IsDue(r, s, m) && IsSolo(r, s, after, p, m)
    ensures
      && after.file == Bumped(s.file) && after.procs.Keys == s.procs.Keys + {p}
      && after.claims == s.claims && after.serves == s.serves
  {
    Begins(r, s, p);
    var b := Begun(r, s, p);
    assert Do(r, b, p, Claim(m)) == b;
    assert Do(r, b, p, MarkLoad) == b;
  }

  // ---- a whole session ----

  /** The state after each process. */
  ghost predicate IsSession(r: nat, states: nat -> System, m: Mem) {
    states(0) == FRESH && forall i: nat :: IsSolo(r, states(i), states(i + 1), i, m)
  }

  /** The first turn, and with re-injection the one `r + 1` turns after each. */
  predicate IsTurn(r: nat, n: nat) {
    n == 1 || (r > 0 && n > r + 1 && IsTurn(r, n - (r + 1)))
  }

  function TurnsUpTo(r: nat, n: nat): seq<nat> {
    if n == 0 then [] else TurnsUpTo(r, n - 1) + if IsTurn(r, n) then [n] else []
  }

  function LastTurn(r: nat, n: nat): (last: nat)
    requires n >= 1
    ensures 1 <= last <= n && IsTurn(r, last) && forall t :: last < t <= n ==> !IsTurn(r, t)
  {
    if IsTurn(r, n) then n else LastTurn(r, n - 1)
  }

  lemma {:induction false} TurnsAreSpaced(r: nat, early: nat, late: nat)
    requires IsTurn(r, early) && IsTurn(r, late) && early < late
    ensures r > 0 && late - early > r
    decreases late
  {
    var d := r + 1;
    if early > late - d {
      TurnsAreSpaced(r, early - d, late - d);
    } else if early < late - d {
      TurnsAreSpaced(r, early, late - d);
    }
  }

  /** The next turn is one exactly when more than `r` turns have passed since the last. */
  lemma NextTurnIff(r: nat, n: nat)
    requires n >= 1
    ensures r > 0 ==> n - LastTurn(r, n) <= r
    ensures IsTurn(r, n + 1) <==> r > 0 && n + 1 - LastTurn(r, n) > r
  {
    var last := LastTurn(r, n);
    if r > 0 {
      assert IsTurn(r, last + (r + 1));
      if n > r && n - r < last && IsTurn(r, n - r) {
        TurnsAreSpaced(r, n - r, last);
      }
    }
  }

  ghost predicate Periodic(r: nat, s: System, m: Mem, n: nat) {
    && s.file.turn == n && (forall p :: p in s.procs ==> p < n) && AllStamped(s, m)
    && (forall c :: c in s.claims ==> c.mem == m && if n == 0 then false else c.epoch < LastTurn(r, n))
    && s.file.seen == (if n == 0 then map[] else map[m := LastTurn(r, n)])
    && StampedAt(ServesOf(s, m), TurnsUpTo(r, n))
  }

  lemma DueIff(r: nat, s: System, m: Mem, n: nat)
    requires Periodic(r, s, m, n)
    ensures IsDue(r, s, m) <==> IsTurn(r, n + 1)
  {
    if n > 0 {
      NextTurnIff(r, n);
    }
  }

  lemma ServingKeeps(r: nat, s: System, t: System, m: Mem, n: nat)
    requires Periodic(r, s, m, n) && IsTurn(r, n + 1)
    requires t.file == File(n + 1, s.file.seen[m := n + 1]) && t.procs.Keys == s.procs.Keys + {n}
    requires t.claims == s.claims + {Sentinel(m, EpochOf(s, m))}
    requires ServesOf(t, m) == ServesOf(s, m) + [Serve(EpochOf(s, m), n, Some(n + 1))]
    ensures Periodic(r, t, m, n + 1)
  {
    StampsOf(ServesOf(s, m), TurnsUpTo(r, n), Serve(EpochOf(s, m), n, Some(n + 1)), n + 1);
    assert LastTurn(r, n + 1) == n + 1 && TurnsUpTo(r, n + 1) == TurnsUpTo(r, n) + [n + 1];
    assert t.file.seen == map[m := n + 1];
    forall p | p in t.procs ensures p < n + 1 {
      assert p in s.procs.Keys + {n};
    }
  }

  predicate StampedAt(ws: seq<Serve>, turns: seq<nat>) {
    |ws| == |turns| && forall k :: 0 <= k < |ws| ==> ws[k].stamp == Some(turns[k])
  }

  lemma StampsOf(ws: seq<Serve>, turns: seq<nat>, w: Serve, n: nat)
    requires StampedAt(ws, turns) && w.stamp == Some(n)
    ensures StampedAt(ws + [w], turns + [n])
    ensures forall k :: 0 <= k < |ws + [w]| ==> (ws + [w])[k].stamp.Some?
  {
  }

  lemma SkippingKeeps(r: nat, s: System, t: System, m: Mem, n: nat)
    requires Periodic(r, s, m, n) && !IsTurn(r, n + 1)
    requires t.file == Bumped(s.file) && t.procs.Keys == s.procs.Keys + {n} && t.claims == s.claims && t.serves == s.serves
    ensures Periodic(r, t, m, n + 1)
  {
    assert n > 0 && LastTurn(r, n + 1) == LastTurn(r, n) && TurnsUpTo(r, n + 1) == TurnsUpTo(r, n);
    forall p | p in t.procs ensures p < n + 1 {
      assert p in s.procs.Keys + {n};
    }
  }

  lemma DueRoundKeeps(r: nat, s: System, t: System, m: Mem, n: nat)
    requires Periodic(r, s, m, n) && IsTurn(r, n + 1) && IsDue(r, s, m) && IsSolo(r, s, t, n, m)
    ensures Periodic(r, t, m, n + 1)
  {
    SoloServes(r, s, t, n, m);
    ServingKeeps(r, s, t, m, n);
  }

  lemma RoundKeeps(r: nat, s: System, t: System, m: Mem, n: nat)
    requires Periodic(r, s, m, n) && IsSolo(r, s, t, n, m)
    ensures Periodic(r, t, m, n + 1)
  {
    DueIff(r, s, m, n);
    if IsTurn(r, n + 1) {
      DueRoundKeeps(r, s, t, m, n);
    } else {
      SoloSkips(r, s, t, n, m);
      SkippingKeeps(r, s, t, m, n);
    }
  }

  lemma FreshIsPeriodic(r: nat, m: Mem)
    ensures Periodic(r, FRESH, m, 0)
  {
    assert ServesOf(FRESH, m) == [];
  }

  lemma {:induction false} SessionIsPeriodic(r: nat, states: nat -> System, m: Mem, n: nat)
    requires IsSession(r, states, m)
    ensures Periodic(r, states(n), m, n)
  {
    if n > 0 {
      SessionIsPeriodic(r, states, m, n - 1);
      RoundKeeps(r, states(n - 1), states(n), m, n - 1);
    } else {
      FreshIsPeriodic(r, m);
    }
  }

  /** In a session of hook processes that do not overlap, a memory that each of them
      offers is injected at turn 1, and with re-injection after every `r + 1` turns, no
      more and no less. */
  lemma InjectedAt(r: nat, states: nat -> System, m: Mem, n: nat)
    requires IsSession(r, states, m)
    ensures StampedAt(ServesOf(states(n), m), TurnsUpTo(r, n))
  {
    SessionIsPeriodic(r, states, m, n);
  }

  /** The list of those turns holds exactly them. */
  lemma {:induction false} TurnsUpToAre(r: nat, n: nat, t: nat)
    ensures t in TurnsUpTo(r, n) <==> t <= n && IsTurn(r, t)
  {
    if n > 0 {
      TurnsUpToAre(r, n - 1, t);
    }
  }
}
