/** The drain in its three passes, with the side effects on episodes. */
module SpoolService {
  import opened Tables
  import opened Spool
  import opened SpoolDrain
  import opened DrainEffects
  import opened Connection
  import Episodes
  import EpisodeService

  class SpoolService {
    const conn: Connection
    const episodes: EpisodeService.EpisodeService
    var spool: map<Name, Event>
    var quarantine: map<Name, Event>
    var rows: multiset<Row>
    var pending: multiset<Row>

    constructor (conn: Connection, episodes: EpisodeService.EpisodeService)
      ensures this.conn == conn && this.episodes == episodes
      ensures spool == map[] && quarantine == map[] && rows == multiset{} && pending == multiset{}
    {
      this.conn, this.episodes := conn, episodes;
      spool, quarantine, rows, pending := map[], map[], multiset{}, multiset{};
    }

    /** Pass 1: parse and insert; files refused for good go to quarantine, files met
        while the database is busy stay. */
    method InsertAll(files: seq<Name>, verdict: Name -> Verdict) returns (inserted: seq<Name>, quarantined: nat)
      requires Distinct(files) && forall n :: n in files ==> n in spool
      modifies this`spool, this`quarantine, this`pending
      ensures inserted == Ones(files, verdict, Good) && quarantined == |Ones(files, verdict, Bad)|
      ensures pending == old(pending) + RowsOf(old(spool), files, verdict)
      ensures var bad := Picked(files, IsBad(verdict));
        spool == old(spool) - bad && quarantine == old(quarantine) + Only(old(spool), bad)
    {
      inserted, quarantined := [], 0;
      ghost var isBad := IsBad(verdict);
      ghost var spool0, quarantine0 := spool, quarantine;
      NothingMoved(spool, quarantine);
      for i := 0 to |files|
        invariant inserted == Ones(files[..i], verdict, Good) && quarantined == |Ones(files[..i], verdict, Bad)|
        invariant pending == old(pending) + RowsOf(spool0, files[..i], verdict)
        invariant spool == spool0 - Picked(files[..i], isBad)
        invariant quarantine == quarantine0 + Only(spool0, Picked(files[..i], isBad))
      {
        SplitAt(files, i);
        var n := files[i];
        PickedGrows(files, i, isBad);
        match verdict(n)
        case Good =>
          pending := pending + multiset{Row(n, spool[n])};
          inserted := inserted + [n];
        case Bad =>
          MoveOne(spool0, quarantine0, Picked(files[..i], isBad), n);
          quarantine := quarantine[n := spool[n]];
          spool := spool - {n};
          quarantined := quarantined + 1;
        case Transient =>
      }
      assert files[..|files|] == files;
    }

    /** Pass 3: unlink what was committed; a file that cannot be unlinked is moved to
        quarantine, so that it is not inserted again. */
    method UnlinkAll(files: seq<Name>, unlinks: Name -> bool)
      requires Distinct(files) && forall n :: n in files ==> n in spool
      modifies this`spool, this`quarantine
      ensures spool == old(spool) - Picked(files, Any())
      ensures quarantine == old(quarantine) + Only(old(spool), Picked(files, Stuck(unlinks)))
    {
      ghost var spool0, quarantine0, all, stuck := spool, quarantine, Any(), Stuck(unlinks);
      NothingMoved(spool, quarantine);
      for i := 0 to |files|
        invariant spool == spool0 - Picked(files[..i], all)
        invariant quarantine == quarantine0 + Only(spool0, Picked(files[..i], stuck))
      {
        SplitAt(files, i);
        var n := files[i];
        PickedGrows(files, i, all);
        PickedGrows(files, i, stuck);
        MoveOne(spool0, quarantine0, Picked(files[..i], all), n);
        if !unlinks(n) {
          MoveOne(spool0, quarantine0, Picked(files[..i], stuck), n);
          quarantine := quarantine[n := spool[n]];
        }
        spool := spool - {n};
      }
      assert files[..|files|] == files;
    }

    /** One drain. `files` lists the spool by name, `verdict` is what inserting a file
        comes to, and `unlinks` whether deleting it works. When the commit fails the
        drain ends with its files still in the spool. */
    method Drain(files: seq<Name>, verdict: Name -> Verdict, commits: bool, unlinks: Name -> bool, now: Time)
      returns (report: Option<(nat, nat)>)
      requires Distinct(files) && IsListing(files, spool) && episodes.conn == conn && Episodes.Lifecycle(conn.Tables())
      modifies this, conn
      ensures Episodes.Lifecycle(conn.Tables())
      ensures report == if commits then Some((|Ones(files, verdict, Good)|, |Ones(files, verdict, Bad)|)) else None
      ensures spool == old(spool) - Picked(files, Leaves(verdict, commits))
      ensures quarantine == old(quarantine) +
        Only(old(spool), Picked(files, Quarantined(verdict, commits, unlinks)))
      ensures commits ==> rows == old(rows) + old(pending) + RowsOf(old(spool), files, verdict) && pending == multiset{}
      ensures !commits ==> rows == old(rows) && pending == old(pending) + RowsOf(old(spool), files, verdict)
      ensures commits ==> EpisodesDrained(old(conn.Tables()), conn.Tables(), old(spool), Ones(files, verdict, Good), now)
      ensures !commits ==> conn.Tables() == old(conn.Tables())
    {
      ghost var spool0, quarantine0 := spool, quarantine;
      var inserted, quarantined := InsertAll(files, verdict);
      FilesAfter(spool0, quarantine0, files, verdict, unlinks);
      if !commits {
        return None;
      }
      rows, pending := rows + pending, multiset{};
      RunSideEffects(inserted, spool0, now);
      EffectsOfDrain(old(conn.Tables()), spool0, inserted, now);
      UnlinkAll(inserted, unlinks);
      report := Some((|inserted|, quarantined));
    }

    /** Pass 2.5: the side effects of the committed events. */
    method RunSideEffects(files: seq<Name>, ghost before: map<Name, Event>, now: Time)
      requires forall n :: n in files ==> n in spool && n in before && spool[n] == before[n]
      requires episodes.conn == conn && Episodes.Lifecycle(conn.Tables())
      modifies conn
      ensures Episodes.Lifecycle(conn.Tables())
      ensures conn.Tables() == SideEffects(old(conn.Tables()), before, files, now)
    {
      for i := 0 to |files|
        invariant Episodes.Lifecycle(conn.Tables())
        invariant conn.Tables() == SideEffects(old(conn.Tables()), before, files[..i], now)
      {
        assert files[..i + 1][..i] == files[..i];
        var event := spool[files[i]];
        match event.kind
        case CommitClose => episodes.OnCommitClose(event.session, now);
        case SessionEnd => episodes.OnSessionEnd(event.session, now);
        case Other =>
      }
      assert files[..|files|] == files;
    }
  }
}
