/** The rating service and the exposure ledger writer, over the connection. */
module RatingService {
  import opened Tables
  import opened Synthesis
  import opened Rating
  import opened Connection

  /** What a batch reports: one outcome per request, tallied. */
  function Outcomes(db: Database, session: Text, requests: seq<Request>, now: Time): multiset<Outcome> {
    if |requests| == 0 then multiset{}
    else
      var n := |requests| - 1;
      var before := RateAll(db, session, requests[..n], now);
      Outcomes(db, session, requests[..n], now)
      + multiset{Verdict(before, session, requests[n].item, requests[n].verdict)}
  }

  class MemoryRatingService {
    const conn: Connection

    constructor (conn: Connection)
      ensures this.conn == conn
    {
      this.conn := conn;
    }

    /** Rates one memory of a session: refuse, or bump one counter and stamp. */
    method ApplyOne(session: Text, item: Item, verdict: Class, now: Time) returns (outcome: Outcome)
      modifies conn
      ensures outcome == Verdict(old(conn.Tables()), session, item, verdict)
      ensures conn.Tables() == RateOne(old(conn.Tables()), session, item, verdict, now)
    {
      var found, unrated := false, false;
      for i := 0 to |conn.exposures|
        invariant found <==> Exposed(conn.exposures[..i], session, item)
        invariant unrated <==> Unrated(conn.exposures[..i], session, item)
      {
        var e := conn.exposures[i];
        assert conn.exposures[..i + 1] == conn.exposures[..i] + [e];
        assert conn.exposures[..i + 1][i] == e;
        assert forall k :: 0 <= k < i ==> conn.exposures[..i + 1][k] == conn.exposures[..i][k];
        if IsFor(e, session, item) {
          found := true;
          if e.rating.None? { unrated := true; }
        }
      }
      assert conn.exposures[..|conn.exposures|] == conn.exposures;
      if !found { return NotExposed; }
      if !unrated { return AlreadyRated; }
      match item.kind {
        case ReflectionKind =>
          if item.memory !in conn.reflections { return MemoryMissing; }
          var row := conn.reflections[item.memory];
          if row.status == Retired || row.status == Superseded { return MemoryRetired; }
          conn.reflections := conn.reflections[item.memory := row.(counters := Bump(row.counters, verdict, now))];
        case SemanticKind =>
          if item.memory !in conn.semantics { return MemoryMissing; }
          conn.semantics := conn.semantics[item.memory := Bump(conn.semantics[item.memory], verdict, now)];
      }
      conn.exposures := Stamp(conn.exposures, session, item, verdict, now);
      outcome := Applied(verdict);
    }

    /** A single credit; `ignored` is not accepted here. */
    method CreditOne(session: Text, item: Item, verdict: Class, now: Time) returns (outcome: Option<Outcome>)
      modifies conn
      ensures outcome.None? <==> verdict == Ignored
      ensures verdict == Ignored ==> conn.Tables() == old(conn.Tables())
      ensures verdict != Ignored ==>
        && outcome == Some(Verdict(old(conn.Tables()), session, item, verdict))
        && conn.Tables() == RateOne(old(conn.Tables()), session, item, verdict, now)
    {
      if verdict == Ignored { return None; }
      var one := ApplyOne(session, item, verdict, now);
      outcome := Some(one);
    }

    /** The whole batch is validated first; then every entry is rated in order and
        accounted for exactly once. */
    method ApplySessionRatings(session: Text, requests: seq<Request>, now: Time)
      returns (ok: bool, outcomes: multiset<Outcome>)
      modifies conn
      ensures ok <==> ValidBatch(session, requests)
      ensures !ok ==> conn.Tables() == old(conn.Tables())
      ensures ok ==>
        && Some(conn.Tables()) == RateSession(old(conn.Tables()), session, requests, now)
        && outcomes == Outcomes(old(conn.Tables()), session, requests, now)
        && |outcomes| == |requests|
    {
      outcomes := multiset{};
      if session == NO_TEXT || |requests| == 0 { return false, outcomes; }
      var seen := {};
      for i := 0 to |requests|
        invariant seen == set k | 0 <= k < i :: requests[k].item
        invariant forall j, k :: 0 <= j < k < i ==> requests[j].item != requests[k].item
        invariant conn.Tables() == old(conn.Tables())
      {
        if requests[i].item in seen { return false, outcomes; }
        seen := seen + {requests[i].item};
      }
      for i := 0 to |requests|
        invariant conn.Tables() == RateAll(old(conn.Tables()), session, requests[..i], now)
        invariant outcomes == Outcomes(old(conn.Tables()), session, requests[..i], now) && |outcomes| == i
      {
        assert requests[..i + 1][..i] == requests[..i] && requests[..i + 1][i] == requests[i];
        var outcome := ApplyOne(session, requests[i].item, requests[i].verdict, now);
        outcomes := outcomes + multiset{outcome};
      }
      assert requests[..|requests|] == requests;
      ok := true;
    }

    /** The ledger's `record`: one conditional insert per item. */
    method RecordExposures(session: Text, items: seq<Item>)
      modifies conn
      ensures conn.Tables() == Record(old(conn.Tables()), session, items)
    {
      if session == NO_TEXT || |items| == 0 { return; }
      for i := 0 to |items|
        invariant conn.exposures == RecordAll(old(conn.exposures), session, items[..i])
        invariant conn.Tables() == old(conn.Tables()).(exposures := conn.exposures)
      {
        assert items[..i + 1][..i] == items[..i];
        if !Exposed(conn.exposures, session, items[i]) {
          conn.exposures := conn.exposures + [Exposure(session, items[i].kind, items[i].memory, None)];
        }
      }
      assert items[..|items|] == items;
    }
  }
}
