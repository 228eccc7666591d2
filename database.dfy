/**
 * The `*sql.DB` handle the core talks to, reduced to what the core relies on:
 * the `raw_logs` table it creates and appends to. Preparing, executing and
 * reading the last insert id are steps that may fail; which of them fails is
 * up to the database and the network, so the model chooses it freely.
 */
module Sql {
  import opened Data

  /** The two statements the core sends: the fixed `raw_logs` DDL and the fixed two-value insert. */
  datatype Stmt =
    | CreateRawLogs
    | InsertRawLog(family: string, log: string)

  /** A row of `raw_logs`; `id` is the AUTO_INCREMENT primary key. */
  datatype RawRow = RawRow(id: int, family: string, log: string)

  /** What `Exec` reports: a failure, or success with the result's last insert id, which may be unavailable. */
  datatype ExecResult =
    | ExecError
    | Executed(lastId: Option<int>)

  /** `after` is `before` with one more row for `(family, log)`, numbered next. */
  ghost predicate RowAdded(before: seq<RawRow>, after: seq<RawRow>, family: string, log: string)
  {
    after == before + [RawRow(|before| + 1, family, log)]
  }

  class Database {
    /** The statements executed so far, oldest first. */
    var executed: seq<Stmt>
    /** The rows of `raw_logs`. */
    var rows: seq<RawRow>

    /** AUTO_INCREMENT numbers the rows 1, 2, 3, ... (rows are never deleted here). */
    ghost predicate Valid()
      reads this
    {
      forall i :: 0 <= i < |rows| ==> rows[i].id == i + 1
    }

    constructor()
      ensures executed == [] && rows == []
      ensures Valid()
    {
      executed, rows := [], [];
    }

    /** `db.Prepare`: may fail; nothing runs yet. */
    method Prepare(s: Stmt) returns (ok: bool)
    {
      ok :| true;
    }

    /** `stmt.Exec` of a prepared statement: either nothing happens, or the statement runs. */
    method Exec(s: Stmt) returns (r: ExecResult)
      requires Valid()
      modifies this
      ensures Valid()
      ensures r.ExecError? ==> executed == old(executed) && rows == old(rows)
      ensures r.Executed? ==> executed == old(executed) + [s]
      ensures r.Executed? && s.CreateRawLogs? ==> rows == old(rows) && r.lastId.None?
      ensures r.Executed? && s.InsertRawLog? ==>
        RowAdded(old(rows), rows, s.family, s.log) &&
        (r.lastId.None? || r.lastId == Some(|old(rows)| + 1))
    {
      var fails :| true;
      if fails {
        return ExecError;
      }
      executed := executed + [s];
      if s.CreateRawLogs? {
        return Executed(None);
      }
      var id := |rows| + 1;
      rows := rows + [RawRow(id, s.family, s.log)];
      var idAvailable :| true;
      r := Executed(if idAvailable then Some(id) else None);
    }
  }
}
