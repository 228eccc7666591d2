/**
 * The older, single-table ingest path of main.go: `IngestLog` checks each
 * event like the service does, marshals it, fetches the database handle from
 * the request context and writes one `raw_logs` row through `NewRawLog`.
 */
module RawLogs {
  import opened Data
  import opened Sql
  import opened Logs

  /** `RawLog`: the row a caller builds and `NewRawLog` completes with its id. */
  class RawLog {
    var id: int
    var family: string
    var log: string

    /** The composite literal `&RawLog{Family: ..., Log: ...}`: the id is Go's zero value. */
    constructor(family: string, log: string)
      ensures id == 0 && this.family == family && this.log == log
    {
      id, this.family, this.log := 0, family, log;
    }
  }

  /** The body `IngestLog` decodes: a family, its schema and the events. */
  datatype IngestLogBody = IngestLogBody(family: string, schema: Schema, logs: seq<Record>)

  /**
   * `NewRawLog`: insert `(rl.family, rl.log)` and set `rl.id` from the last
   * insert id. A failed prepare or exec writes nothing; a missing last insert
   * id leaves the row written but the id unset.
   */
  method NewRawLog(db: Database, rl: RawLog) returns (r: RawLog?, err: Option<Error>)
    requires db.Valid()
    modifies db, rl
    ensures db.Valid()
    ensures err.None? <==> r != null
    ensures err.None? || err == Some(PrepareFailed) || err == Some(ExecFailed) || err == Some(LastInsertIdFailed)
    ensures rl.family == old(rl.family) && rl.log == old(rl.log)
    ensures err.None? ==> r == rl && rl.id == |old(db.rows)| + 1
    ensures err.Some? ==> rl.id == old(rl.id)
    ensures err.None? || err == Some(LastInsertIdFailed) <==> RowAdded(old(db.rows), db.rows, rl.family, rl.log)
    ensures err.None? || err == Some(LastInsertIdFailed) ==>
      db.executed == old(db.executed) + [InsertRawLog(rl.family, rl.log)]
    ensures err == Some(PrepareFailed) || err == Some(ExecFailed) ==>
      db.rows == old(db.rows) && db.executed == old(db.executed)
  {
    var s := InsertRawLog(rl.family, rl.log);
    var prepared := db.Prepare(s);
    if !prepared {
      return null, Some(PrepareFailed);
    }
    var res := db.Exec(s);
    if res.ExecError? {
      return null, Some(ExecFailed);
    }
    if res.lastId.None? {
      return null, Some(LastInsertIdFailed);
    }
    rl.id := res.lastId.value;
    return rl, None;
  }

  /** The errors `NewRawLog` passes on. */
  predicate IsDriverError(err: Option<Error>)
  {
    err == Some(PrepareFailed) || err == Some(ExecFailed) || err == Some(LastInsertIdFailed)
  }

  /**
   * `IngestLog`. `ctx` is the database handle stored in the request context,
   * `null` when none is set. Each event is checked, marshalled and written
   * before the next is looked at; the handle is fetched for each event, after
   * it has passed, so without one the first event decides the error.
   */
  method IngestLog(ctx: Database?, body: IngestLogBody, marshal: Record -> Option<string>)
    returns (err: Option<Error>, ghost stopped: nat, ghost written: nat)
    requires ctx != null ==> ctx.Valid()
    modifies ctx
    ensures ctx != null ==> ctx.Valid()
    ensures stopped <= written <= FirstRejected(body.schema, body.logs, marshal)
    ensures written == stopped || (written == stopped + 1 && err == Some(LastInsertIdFailed))
    ensures err == Some(LastInsertIdFailed) ==> written == stopped + 1
    ensures ctx == null ==> written == 0
    ensures ctx != null ==>
      ctx.rows == old(ctx.rows) + LoggedRows(|old(ctx.rows)|, body.family, body.logs[..written], marshal) &&
      ctx.executed == old(ctx.executed) + LoggedStmts(body.family, body.logs[..written], marshal)
    ensures err.None? <==> stopped == |body.logs|
    ensures err.Some? ==>
      stopped < |body.logs| &&
      (!Accepted(body.schema, marshal, body.logs[stopped]) ==> RejectionError(body.schema, marshal, body.logs[stopped], err)) &&
      (Accepted(body.schema, marshal, body.logs[stopped]) ==>
        (if ctx == null then err == Some(NoDatabase) else IsDriverError(err)))
  {
    if ctx == null {
      err := IngestLogWithoutDatabase(body.family, body.schema, body.logs, marshal);
      stopped, written := 0, 0;
    } else {
      err, stopped, written := IngestLogInto(ctx, body.family, body.schema, body.logs, marshal);
    }
  }

  /**
   * The loop of `IngestLog` when the context holds no database: the first
   * event either fails its checks or reaches the handle lookup and fails there.
   */
  method IngestLogWithoutDatabase(family: string, schema: Schema, events: seq<Record>, marshal: Record -> Option<string>)
    returns (err: Option<Error>)
    ensures err.None? <==> |events| == 0
    ensures |events| > 0 && !Accepted(schema, marshal, events[0]) ==> RejectionError(schema, marshal, events[0], err)
    ensures |events| > 0 && Accepted(schema, marshal, events[0]) ==> err == Some(NoDatabase)
    ensures err != Some(LastInsertIdFailed)
  {
    if |events| == 0 {
      return None;
    }
    ghost var wrote;
    err, wrote := IngestLogEvent(null, family, schema, events, 0, marshal, [], []);
  }

  /** The loop of `IngestLog` when the context holds the database `db`. */
  method IngestLogInto(db: Database, family: string, schema: Schema, events: seq<Record>, marshal: Record -> Option<string>)
    returns (err: Option<Error>, ghost stopped: nat, ghost written: nat)
    requires db.Valid()
    modifies db
    ensures db.Valid()
    ensures stopped <= written <= FirstRejected(schema, events, marshal)
    ensures written == stopped || (written == stopped + 1 && err == Some(LastInsertIdFailed))
    ensures err == Some(LastInsertIdFailed) ==> written == stopped + 1
    ensures db.rows == old(db.rows) + LoggedRows(|old(db.rows)|, family, events[..written], marshal)
    ensures db.executed == old(db.executed) + LoggedStmts(family, events[..written], marshal)
    ensures err.None? <==> stopped == |events|
    ensures err.Some? ==>
      stopped < |events| &&
      (!Accepted(schema, marshal, events[stopped]) ==> RejectionError(schema, marshal, events[stopped], err)) &&
      (Accepted(schema, marshal, events[stopped]) ==> IsDriverError(err))
  {
    ghost var rows0, executed0 := db.rows, db.executed;
    var i := 0;
    while i < |events|
      invariant i <= FirstRejected(schema, events, marshal)
      invariant db.Valid()
      invariant db.rows == rows0 + LoggedRows(|rows0|, family, events[..i], marshal)
      invariant db.executed == executed0 + LoggedStmts(family, events[..i], marshal)
    {
      var e, wrote := IngestLogEvent(db, family, schema, events, i, marshal, rows0, executed0);
      if e.Some? {
        return e, i, if wrote then i + 1 else i;
      }
      i := i + 1;
    }
    assert events[..|events|] == events;
    return None, |events|, |events|;
  }

  /**
   * The body of the loop of `IngestLog` for the event `events[i]`; with a
   * database, the events before it have been written on top of `rows0` and
   * `executed0`.
   */
  method IngestLogEvent(ctx: Database?, family: string, schema: Schema, events: seq<Record>, i: nat,
                        marshal: Record -> Option<string>, ghost rows0: seq<RawRow>, ghost executed0: seq<Stmt>)
    returns (err: Option<Error>, ghost wrote: bool)
    requires i < |events| && i <= FirstRejected(schema, events, marshal)
    requires ctx != null ==>
      ctx.Valid() &&
      ctx.rows == rows0 + LoggedRows(|rows0|, family, events[..i], marshal) &&
      ctx.executed == executed0 + LoggedStmts(family, events[..i], marshal)
    modifies ctx
    ensures ctx != null ==> ctx.Valid()
    ensures ctx == null ==> err.Some? && !wrote
    ensures !Accepted(schema, marshal, events[i]) ==> err.Some? && RejectionError(schema, marshal, events[i], err)
    ensures Accepted(schema, marshal, events[i]) && ctx == null ==> err == Some(NoDatabase)
    ensures Accepted(schema, marshal, events[i]) && ctx != null ==> err.None? || IsDriverError(err)
    ensures wrote <==> Accepted(schema, marshal, events[i]) && ctx != null && (err.None? || err == Some(LastInsertIdFailed))
    ensures err == Some(LastInsertIdFailed) ==> wrote
    ensures wrote || err.None? ==>
      i + 1 <= FirstRejected(schema, events, marshal) && ctx != null &&
      ctx.rows == rows0 + LoggedRows(|rows0|, family, events[..i + 1], marshal) &&
      ctx.executed == executed0 + LoggedStmts(family, events[..i + 1], marshal)
    ensures !wrote && ctx != null ==> ctx.rows == old(ctx.rows) && ctx.executed == old(ctx.executed)
  {
    var event := events[i];
    err := ValidateEvent(schema, event);
    if err.Some? {
      return err, false;
    }
    var rawLogContent := marshal(event);
    if rawLogContent.None? {
      return Some(MarshalFailed), false;
    }
    var rawLog := new RawLog(family, rawLogContent.value);
    if ctx == null {
      return Some(NoDatabase), false;
    }
    assert i < FirstRejected(schema, events, marshal);
    LoggedStep(|rows0|, family, events, marshal, i);
    var r;
    r, err := NewRawLog(ctx, rawLog);
    wrote := err.None? || err == Some(LastInsertIdFailed);
  }
}
