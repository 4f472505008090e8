/** The retention service: three update statements in order, then a delete, or the
    select-only dry run. */
module RetentionService {
  import opened Tables
  import opened Synthesis
  import opened Retention
  import opened Connection

  class RetentionService {
    const conn: Connection

    constructor (conn: Connection)
      ensures this.conn == conn
    {
      this.conn := conn;
    }

    /** Flips `ids` to archived and reports how many rows changed. */
    method Archive(ids: set<Id>, now: Time) returns (changed: nat)
      modifies conn
      ensures conn.Tables() == ArchiveRows(old(conn.Tables()), ids, now) && changed == |ids|
    {
      conn.observations := SetStatus(conn.observations, ids, Archived, now);
      changed := |ids|;
    }

    method RunArchive(retentionDays: int, now: Time) returns (report: Report)
      modifies conn
      ensures (conn.Tables(), report) == Retention.RunArchive(old(conn.Tables()), retentionDays, now)
    {
      var threshold := Threshold(now, retentionDays);
      var a := Archive(SelectA(conn.Tables(), threshold), now);
      var b := Archive(SelectB(conn.Tables(), threshold), now);
      var c := Archive(SelectC(conn.Tables(), threshold), now);
      report := Report(a, b, c, 0);
    }

    method Prune(pruneAgeDays: int, now: Time) returns (deleted: nat)
      modifies conn
      ensures var eligible := SelectPrunable(old(conn.Tables()), Threshold(now, pruneAgeDays));
        conn.Tables() == DeleteRows(old(conn.Tables()), eligible) && deleted == |eligible|
    {
      var eligible := SelectPrunable(conn.Tables(), Threshold(now, pruneAgeDays));
      if eligible == {} {
        assert conn.observations - {} == conn.observations;
        return 0;
      }
      conn.observations := conn.observations - eligible;
      deleted := |eligible|;
    }

    /** The report of a dry run is the report of the real run, and a dry run writes
        nothing. */
    method Run(p: Parameters, dryRun: bool, now: Time) returns (report: Report)
      modifies conn
      ensures report == Retention.Run(old(conn.Tables()), p, now).1
      ensures conn.Tables() == if dryRun then old(conn.Tables()) else Retention.Run(old(conn.Tables()), p, now).0
    {
      if dryRun {
        DryRunPredictsRun(conn.Tables(), p, now);
        return DryRun(conn.Tables(), p, now);
      }
      report := RunArchive(p.retentionDays, now);
      if p.prune {
        var pruned := Prune(p.pruneAgeDays, now);
        report := report.(pruned := pruned);
      }
    }
  }
}
