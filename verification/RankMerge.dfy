/** The round-robin merge of one relevance ranking per namespace. */
module RankMerge {
  import opened Tables

  predicate Distinct(s: seq<Id>) {
    forall i, j :: 0 <= i < j < |s| ==> s[i] != s[j]
  }

  /** A rank map, as its ids in rank order. */
  type Leg = s: seq<Id> | Distinct(s) witness []

  /** In every round each leg has one turn, in the order of the legs. */
  datatype Turn = Turn(round: nat, leg: nat)

  predicate Before(t: Turn, u: Turn) {
    t.round < u.round || (t.round == u.round && t.leg < u.leg)
  }

  predicate Offers(legs: seq<Leg>, t: Turn, id: Id) {
    t.leg < |legs| && t.round < |legs[t.leg]| && legs[t.leg][t.round] == id
  }

  function Give(ranks: map<Id, nat>, id: Id): map<Id, nat> {
    if id in ranks then ranks else ranks[id := |ranks|]
  }

  /** The ranks given out in `round` full rounds and `n` turns of the next. */
  function Ranks(legs: seq<Leg>, round: nat, n: nat): map<Id, nat>
    requires n <= |legs|
    decreases round, n
  {
    if n > 0 then
      var earlier := Ranks(legs, round, n - 1);
      if round < |legs[n - 1]| then Give(earlier, legs[n - 1][round]) else earlier
    else if round > 0 then Ranks(legs, round - 1, |legs|)
    else map[]
  }

  /** The length of the longest leg: from this round on no leg has an id left. */
  function Rounds(legs: seq<Leg>): (n: nat)
    ensures forall i :: 0 <= i < |legs| ==> |legs[i]| <= n
    ensures legs == [] ==> n == 0
  {
    if legs == [] then 0
    else
      var n := Rounds(legs[..|legs| - 1]);
      if |legs[|legs| - 1]| > n then |legs[|legs| - 1]| else n
  }

  function Succeeded(maps: seq<Option<Leg>>): (legs: seq<Leg>)
    ensures legs == [] <==> forall i :: 0 <= i < |maps| ==> maps[i].None?
  {
    if maps == [] then []
    else
      var earlier := Succeeded(maps[..|maps| - 1]);
      match maps[|maps| - 1]
      case None => earlier
      case Some(leg) => earlier + [leg]
  }

  /** The merged ranks of all turns. */
  function Merged(legs: seq<Leg>): map<Id, nat> {
    Ranks(legs, Rounds(legs), 0)
  }

  lemma {:induction false} RoundsIsLeast(legs: seq<Leg>, n: nat)
    requires forall i :: 0 <= i < |legs| ==> |legs[i]| <= n
    ensures Rounds(legs) <= n
  {
    if legs != [] {
      RoundsIsLeast(legs[..|legs| - 1], n);
    }
  }

  /** Once every leg is used up, further turns are idle. */
  lemma {:induction false} IdleTurns(legs: seq<Leg>, round: nat, n: nat)
    requires n <= |legs| && Rounds(legs) <= round
    ensures Ranks(legs, round, n) == Merged(legs)
    decreases round, n
  {
    if n > 0 {
      IdleTurns(legs, round, n - 1);
    } else if round > Rounds(legs) {
      IdleTurns(legs, round - 1, |legs|);
    }
  }

  /** Where the cursor of leg `i` stands in round `round`, before turn `turn`. */
  function Cursor(leg: Leg, round: nat, passed: bool): nat {
    var n := if passed then round + 1 else round;
    if n <= |leg| then n else |leg|
  }

  ghost predicate CursorsAt(legs: seq<Leg>, cursors: seq<nat>, round: nat, turn: nat) {
    |cursors| == |legs| && forall k :: 0 <= k < |legs| ==> cursors[k] == Cursor(legs[k], round, k < turn)
  }

  method Round(legs: seq<Leg>, cursors0: seq<nat>, merged0: map<Id, nat>, ghost round: nat)
    returns (cursors: seq<nat>, merged: map<Id, nat>, advanced: bool)
    requires legs != [] && CursorsAt(legs, cursors0, round, 0) && merged0 == Ranks(legs, round, 0)
    ensures CursorsAt(legs, cursors, round + 1, 0) && merged == Ranks(legs, round + 1, 0)
    ensures advanced <==> exists k :: 0 <= k < |legs| && round < |legs[k]|
  {
    cursors, merged, advanced := cursors0, merged0, false;
    for i := 0 to |legs|
      invariant CursorsAt(legs, cursors, round, i)
      invariant merged == Ranks(legs, round, i)
      invariant advanced <==> exists k :: 0 <= k < i && round < |legs[k]|
    {
      if cursors[i] < |legs[i]| {
        advanced := true;
        var id := legs[i][cursors[i]];
        cursors := cursors[i := cursors[i] + 1];
        if id !in merged {
          merged := merged[id := |merged|];
        }
      }
    }
  }

  method MergeRankMaps(maps: seq<Option<Leg>>) returns (merged: Option<map<Id, nat>>)
    ensures merged.None? <==> forall i :: 0 <= i < |maps| ==> maps[i].None?
    ensures merged.Some? ==> merged.value == Merged(Succeeded(maps))
  {
    var legs := Succeeded(maps);
    if legs == [] {
      return None;
    }
    var cursors := seq(|legs|, i => 0);
    var ranks: map<Id, nat> := map[];
    ghost var round := 0;
    var advanced := true;
    while advanced
      invariant CursorsAt(legs, cursors, round, 0)
      invariant ranks == Ranks(legs, round, 0)
      invariant advanced || (round > 0 && forall k :: 0 <= k < |legs| ==> |legs[k]| <= round - 1)
      invariant advanced ==> round <= Rounds(legs)
      decreases advanced, Rounds(legs) + 1 - round
    {
      cursors, ranks, advanced := Round(legs, cursors, ranks, round);
      round := round + 1;
    }
    RoundsIsLeast(legs, round);
    IdleTurns(legs, round, 0);
    merged := Some(ranks);
  }

  // ---- what the merged ranks promise ----

  /** `t` is the first turn that offers `id`. */
  ghost predicate FirstTurn(legs: seq<Leg>, id: Id, t: Turn) {
    Offers(legs, t, id) && forall u :: Before(u, t) ==> !Offers(legs, u, id)
  }

  ghost predicate Offered(legs: seq<Leg>, t: Turn, id: Id) {
    exists u :: Before(u, t) && Offers(legs, u, id)
  }

  lemma OfferedStep(legs: seq<Leg>, round: nat, n: nat, id: Id)
    requires n <= |legs|
    ensures n > 0 ==> (Offered(legs, Turn(round, n), id) <==>
                       Offered(legs, Turn(round, n - 1), id) || Offers(legs, Turn(round, n - 1), id))
    ensures round > 0 ==> (Offered(legs, Turn(round, 0), id) <==> Offered(legs, Turn(round - 1, |legs|), id))
  {
    if n > 0 {
      assert forall u :: Before(u, Turn(round, n)) <==> Before(u, Turn(round, n - 1)) || u == Turn(round, n - 1);
    }
    if round > 0 {
      assert forall u :: Offers(legs, u, id) ==> (Before(u, Turn(round, 0)) <==> Before(u, Turn(round - 1, |legs|)));
    }
  }

  /** Exactly the ids offered so far are ranked. */
  lemma {:induction false} RankedIffOffered(legs: seq<Leg>, round: nat, n: nat, id: Id)
    requires n <= |legs|
    ensures id in Ranks(legs, round, n) <==> Offered(legs, Turn(round, n), id)
    decreases round, n
  {
    OfferedStep(legs, round, n, id);
    if n > 0 {
      RankedIffOffered(legs, round, n - 1, id);
    } else if round > 0 {
      RankedIffOffered(legs, round - 1, |legs|, id);
    }
  }

  /** An id keeps the rank of its first turn: the number of ids ranked before. */
  lemma {:induction false} RankedAtFirstTurn(legs: seq<Leg>, round: nat, n: nat, id: Id, t: Turn)
    requires n <= |legs| && FirstTurn(legs, id, t) && Before(t, Turn(round, n))
    ensures id in Ranks(legs, round, n) && Ranks(legs, round, n)[id] == |Ranks(legs, t.round, t.leg)|
    decreases round, n
  {
    if n == 0 {
      RankedAtFirstTurn(legs, round - 1, |legs|, id, t);
    } else if t == Turn(round, n - 1) {
      RankedIffOffered(legs, round, n - 1, id);
    } else {
      RankedAtFirstTurn(legs, round, n - 1, id, t);
    }
  }

  /** A first turn adds a rank, and ranks are never taken back. */
  lemma {:induction false} RanksGrow(legs: seq<Leg>, id: Id, t: Turn, round: nat, n: nat)
    requires n <= |legs| && FirstTurn(legs, id, t) && Before(t, Turn(round, n))
    ensures |Ranks(legs, t.round, t.leg)| < |Ranks(legs, round, n)|
    decreases round, n
  {
    if n > 0 {
      if t == Turn(round, n - 1) {
        RankedIffOffered(legs, round, n - 1, id);
      } else {
        RanksGrow(legs, id, t, round, n - 1);
      }
    } else {
      RanksGrow(legs, id, t, round - 1, |legs|);
    }
  }

  lemma {:induction false} AtMostOnePerTurn(legs: seq<Leg>, round: nat, n: nat)
    requires n <= |legs|
    ensures |Ranks(legs, round, n)| <= round * |legs| + n
    decreases round, n
  {
    if n > 0 {
      AtMostOnePerTurn(legs, round, n - 1);
    } else if round > 0 {
      AtMostOnePerTurn(legs, round - 1, |legs|);
      assert (round - 1) * |legs| + |legs| == round * |legs|;
    }
  }

  lemma RankOfFirst(legs: seq<Leg>, id: Id, t: Turn)
    requires FirstTurn(legs, id, t)
    ensures id in Merged(legs) && Merged(legs)[id] == |Ranks(legs, t.round, t.leg)|
  {
    RankedAtFirstTurn(legs, Rounds(legs), 0, id, t);
  }

  /** Smaller rank means offered earlier, and the id at place `round` of leg `i` of
      `m` gets at most the rank `round * m + i`. */
  lemma RankFollowsFirstTurn(legs: seq<Leg>, a: Id, b: Id, t: Turn, u: Turn)
    requires FirstTurn(legs, a, t) && FirstTurn(legs, b, u)
    ensures a in Merged(legs) && b in Merged(legs)
    ensures Merged(legs)[a] < Merged(legs)[b] <==> Before(t, u)
    ensures Merged(legs)[a] <= t.round * |legs| + t.leg
  {
    RankOfFirst(legs, a, t);
    RankOfFirst(legs, b, u);
    AtMostOnePerTurn(legs, t.round, t.leg);
    if Before(t, u) {
      RanksGrow(legs, a, t, u.round, u.leg);
    } else if Before(u, t) {
      RanksGrow(legs, b, u, t.round, t.leg);
    }
  }

  predicate Given(ranks: map<Id, nat>, r: nat) {
    exists id :: id in ranks && ranks[id] == r
  }

  /** The ranks are exactly 0 to n - 1, each once. */
  ghost predicate Dense(ranks: map<Id, nat>) {
    && (forall id :: id in ranks ==> ranks[id] < |ranks|)
    && (forall a, b :: a in ranks && b in ranks && ranks[a] == ranks[b] ==> a == b)
    && (forall r :: 0 <= r < |ranks| ==> Given(ranks, r))
  }

  lemma GiveKeepsDense(ranks: map<Id, nat>, id: Id)
    requires Dense(ranks)
    ensures Dense(Give(ranks, id))
  {
    var next := Give(ranks, id);
    forall r | 0 <= r < |next| ensures Given(next, r) {
      if r < |ranks| {
        assert Given(ranks, r);
        var i :| i in ranks && ranks[i] == r;
        assert i in next && next[i] == r;
      } else {
        assert id in next && next[id] == r;
      }
    }
  }

  lemma {:induction false} RanksAreDense(legs: seq<Leg>, round: nat, n: nat)
    requires n <= |legs|
    ensures Dense(Ranks(legs, round, n))
    decreases round, n
  {
    if n > 0 {
      RanksAreDense(legs, round, n - 1);
      if round < |legs[n - 1]| {
        GiveKeepsDense(Ranks(legs, round, n - 1), legs[n - 1][round]);
      }
    } else if round > 0 {
      RanksAreDense(legs, round - 1, |legs|);
    }
  }

  /** The merged ranks are a bijection from the ids of the legs to 0 to n - 1. */
  lemma MergedIsBijection(legs: seq<Leg>, id: Id)
    ensures Dense(Merged(legs))
    ensures id in Merged(legs) <==> exists i :: 0 <= i < |legs| && id in legs[i]
  {
    RanksAreDense(legs, Rounds(legs), 0);
    RankedIffOffered(legs, Rounds(legs), 0, id);
    if i :| 0 <= i < |legs| && id in legs[i] {
      var c :| 0 <= c < |legs[i]| && legs[i][c] == id;
      assert Offers(legs, Turn(c, i), id) && Before(Turn(c, i), Turn(Rounds(legs), 0));
    }
  }

  /** The order within a leg survives where no other leg offers the later id earlier;
      with disjoint legs that is always. */
  lemma LegOrderKept(legs: seq<Leg>, i: nat, c: nat, d: nat)
    requires i < |legs| && c < d < |legs[i]|
    requires forall k, j :: 0 <= k < |legs| && k != i && 0 <= j < |legs[k]| && j <= d ==> legs[k][j] != legs[i][d]
    ensures legs[i][c] in Merged(legs) && legs[i][d] in Merged(legs)
    ensures Merged(legs)[legs[i][c]] < Merged(legs)[legs[i][d]]
  {
    var a, b := legs[i][c], legs[i][d];
    assert FirstTurn(legs, b, Turn(d, i));
    var t := FirstOffer(legs, a, Turn(c, i));
    RankFollowsFirstTurn(legs, a, b, t, Turn(d, i));
  }

  lemma {:induction false} FirstOffer(legs: seq<Leg>, id: Id, t: Turn) returns (u: Turn)
    requires Offers(legs, t, id)
    ensures FirstTurn(legs, id, u) && !Before(t, u)
    decreases t.round, t.leg
  {
    u := t;
    if v :| Before(v, t) && Offers(legs, v, id) {
      u := FirstOffer(legs, id, v);
    }
  }
}
