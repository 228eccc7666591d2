/**
 * The ingest service of pkg/logs/service.go: look up (or create) the table of
 * a log family once, then check, marshal and insert the events one after the
 * other, stopping at the first failure.
 */
module Logs {
  import Text
  import opened Data
  import opened Sql
  import opened MySql

  // ---------------------------------------------------------------------------
  // Checking events against the schema
  // ---------------------------------------------------------------------------

  /**
   * What checking one field of an event finds: the field must be declared,
   * with tag "string" or "int", and the value must have the Go type the
   * tag's case asserts (a string, or a float64 for "int").
   */
  function CheckField(schema: Schema, field: string, value: Value): (r: Option<Error>)
    ensures r.None? <==>
      (field in schema && ((schema[field] == "string" && value.Str?) || (schema[field] == "int" && value.Number?)))
    ensures r.Some? ==> r.value.IsFieldError() && r.value.field == field
    ensures r.Some? && r.value.Unsupported? ==>
      field in schema && !SupportedTag(schema[field]) && r.value.tag == schema[field]
    ensures field !in schema <==> r == Some(Undeclared(field))
    ensures field in schema && !SupportedTag(schema[field]) ==> r == Some(Unsupported(field, schema[field]))
    ensures field in schema && SupportedTag(schema[field]) && r.Some? ==> r == Some(KindMismatch(field, schema[field]))
  {
    if field !in schema then Some(Undeclared(field))
    else if schema[field] == "string" then
      if value.Str? then None else Some(KindMismatch(field, "string"))
    else if schema[field] == "int" then
      if value.Number? then None else Some(KindMismatch(field, "int"))
    else Some(Unsupported(field, schema[field]))
  }

  /** Every field of the event passes. */
  predicate EventValid(schema: Schema, event: Record)
  {
    forall f :: f in event ==> CheckField(schema, f, event[f]).None?
  }

  /**
   * The inner loop of `Ingest` (lines 52-69): the fields in the map's iteration
   * order, stopping at the first one that fails. Which failing field is
   * reported depends on that order; whether one is reported does not.
   */
  method ValidateEvent(schema: Schema, event: Record) returns (err: Option<Error>)
    ensures err.None? <==> EventValid(schema, event)
    ensures err.Some? ==> exists f :: f in event && CheckField(schema, f, event[f]) == err
    ensures err.Some? ==> err.value.IsFieldError()
  {
    var remaining := event.Keys;
    ghost var done: set<string> := {};
    while remaining != {}
      invariant remaining !! done && remaining + done == event.Keys
      invariant forall f :: f in done ==> CheckField(schema, f, event[f]).None?
      decreases |remaining|
    {
      var field :| field in remaining;
      var value := event[field];
      if field !in schema {
        return Some(Undeclared(field));
      }
      var columnType := schema[field];
      if columnType == "string" {
        if !value.Str? {
          return Some(KindMismatch(field, "string"));
        }
      } else if columnType == "int" {
        if !value.Number? {
          return Some(KindMismatch(field, "int"));
        }
      } else {
        return Some(Unsupported(field, columnType));
      }
      Text.MoveOne(remaining, done, event.Keys, field);
      remaining := remaining - {field};
      done := done + {field};
    }
    assert done == event.Keys;
    err := None;
  }

  /** Schema entries that an event does not use are never looked at, whatever their tag. */
  lemma ExtraSchemaEntryIgnored(schema: Schema, event: Record, k: string, tag: string)
    requires k !in event
    ensures EventValid(schema[k := tag], event) <==> EventValid(schema, event)
  {
    forall f | f in event ensures CheckField(schema[k := tag], f, event[f]) == CheckField(schema, f, event[f]) {
      assert f != k;
    }
  }

  /** An event that both passes the checks and marshals, so that it reaches the insert. */
  predicate Accepted(schema: Schema, marshal: Record -> Option<string>, event: Record)
  {
    EventValid(schema, event) && marshal(event).Some?
  }

  /** The index of the first event that is not accepted (`|events|` if there is none). */
  function FirstRejected(schema: Schema, events: seq<Record>, marshal: Record -> Option<string>): (k: nat)
    ensures k <= |events|
    ensures forall i :: 0 <= i < k ==> Accepted(schema, marshal, events[i])
    ensures k < |events| ==> !Accepted(schema, marshal, events[k])
  {
    if |events| == 0 then 0
    else if !Accepted(schema, marshal, events[0]) then 0
    else 1 + FirstRejected(schema, events[1..], marshal)
  }

  /** The error an event that is not accepted yields: one of its failing fields, or the marshal failure. */
  ghost predicate RejectionError(schema: Schema, marshal: Record -> Option<string>, event: Record, err: Option<Error>)
  {
    if EventValid(schema, event) then err == Some(MarshalFailed)
    else exists f :: f in event && CheckField(schema, f, event[f]) == err
  }

  // ---------------------------------------------------------------------------
  // What ingesting writes
  // ---------------------------------------------------------------------------

  /** The `raw_logs` rows for `events`, numbered after `start` existing rows. */
  ghost function LoggedRows(start: nat, family: string, events: seq<Record>, marshal: Record -> Option<string>): (r: seq<RawRow>)
    requires forall i :: 0 <= i < |events| ==> marshal(events[i]).Some?
    ensures |r| == |events|
  {
    if |events| == 0 then []
    else
      var n := |events| - 1;
      LoggedRows(start, family, events[..n], marshal) + [RawRow(start + n + 1, family, marshal(events[n]).value)]
  }

  /** The insert statements for `events`. */
  ghost function LoggedStmts(family: string, events: seq<Record>, marshal: Record -> Option<string>): (r: seq<Stmt>)
    requires forall i :: 0 <= i < |events| ==> marshal(events[i]).Some?
    ensures |r| == |events|
  {
    if |events| == 0 then []
    else
      var n := |events| - 1;
      LoggedStmts(family, events[..n], marshal) + [InsertRawLog(family, marshal(events[n]).value)]
  }

  /** The `i`-th written row and statement carry the `i`-th event, marshalled, under `family`. */
  lemma {:induction false} LoggedAt(start: nat, family: string, events: seq<Record>, marshal: Record -> Option<string>, i: nat)
    requires forall j :: 0 <= j < |events| ==> marshal(events[j]).Some?
    requires i < |events|
    ensures LoggedRows(start, family, events, marshal)[i] == RawRow(start + i + 1, family, marshal(events[i]).value)
    ensures LoggedStmts(family, events, marshal)[i] == InsertRawLog(family, marshal(events[i]).value)
  {
    var n := |events| - 1;
    if i < n {
      LoggedAt(start, family, events[..n], marshal, i);
    }
  }

  /** One more written event extends both logs by its row and its statement. */
  lemma LoggedStep(start: nat, family: string, events: seq<Record>, marshal: Record -> Option<string>, i: nat)
    requires i < |events|
    requires forall j :: 0 <= j <= i ==> marshal(events[j]).Some?
    ensures LoggedRows(start, family, events[..i + 1], marshal) ==
      LoggedRows(start, family, events[..i], marshal) + [RawRow(start + i + 1, family, marshal(events[i]).value)]
    ensures LoggedStmts(family, events[..i + 1], marshal) ==
      LoggedStmts(family, events[..i], marshal) + [InsertRawLog(family, marshal(events[i]).value)]
  {
    assert events[..i + 1][..i] == events[..i];
  }

  /** The error `Ingest` returns when the table lookup fails. */
  function LookupError(family: string, cause: Error): Error
  {
    Wrapped("finding or creating table '" + family + "'", cause)
  }

  predicate IsLookupError(family: string, err: Option<Error>)
  {
    err == Some(LookupError(family, CreatePrepareError)) || err == Some(LookupError(family, CreateExecError))
  }

  /** The errors `Table.Insert` returns. */
  predicate IsInsertError(err: Option<Error>)
  {
    err == Some(InsertPrepareError) || err == Some(InsertExecError) || err == Some(InsertIdError)
  }

  class Service {
    const client: Client

    /** `CreateService`: a service backed by `client`. */
    constructor CreateService(client: Client)
      ensures this.client == client
    {
      this.client := client;
    }

    /**
     * `Ingest`. The table lookup comes first and happens once. Then each event
     * is checked, marshalled and inserted before the next one is looked at, so
     * a failure at event `stopped` leaves the events before it written; when
     * only the last insert id is missing, that event's row is written too.
     */
    method Ingest(family: string, schema: Schema, events: seq<Record>, marshal: Record -> Option<string>)
      returns (err: Option<Error>, ghost stopped: nat, ghost written: nat)
      requires client.Valid() && client.db.Valid()
      modifies client, client.db
      ensures client.Valid() && client.db.Valid()
      ensures stopped <= written <= FirstRejected(schema, events, marshal)
      ensures written == stopped || (written == stopped + 1 && err == Some(InsertIdError))
      ensures err == Some(InsertIdError) ==> written == stopped + 1
      ensures family in old(client.tables) ==> client.tables == old(client.tables)
      ensures family !in old(client.tables) && !IsLookupError(family, err) ==>
        family in client.tables && client.tables == old(client.tables)[family := client.tables[family]] &&
        client.tables[family].schema == schema
      ensures client.db.rows == old(client.db.rows) + LoggedRows(|old(client.db.rows)|, family, events[..written], marshal)
      ensures IsLookupError(family, err) ==>
        written == 0 && client.tables == old(client.tables) && client.db.executed == old(client.db.executed)
      ensures !IsLookupError(family, err) ==>
        family in client.tables && client.tables[family].family == family &&
        client.db.executed == old(client.db.executed) +
          (if family in old(client.tables) then [] else [CreateRawLogs]) +
          LoggedStmts(family, events[..written], marshal)
      ensures err.None? <==> !IsLookupError(family, err) && stopped == |events|
      ensures err.Some? && !IsLookupError(family, err) ==>
        stopped < |events| &&
        (!Accepted(schema, marshal, events[stopped]) ==> RejectionError(schema, marshal, events[stopped], err)) &&
        (Accepted(schema, marshal, events[stopped]) ==> IsInsertError(err))
    {
      var table, lookupErr := client.FindOrCreateTable(family, schema);
      if lookupErr.Some? {
        return Some(LookupError(family, lookupErr.value)), 0, 0;
      }
      assert table.db == client.db && table.family == family;
      ghost var tables := client.tables;
      err, stopped, written := IngestEvents(table, schema, events, marshal);
      assert client.tables == tables;
    }
  }

  /** The loop of `Ingest` over the events (lines 49-80), once the table is known. */
  method IngestEvents(table: Table, schema: Schema, events: seq<Record>, marshal: Record -> Option<string>)
    returns (err: Option<Error>, ghost stopped: nat, ghost written: nat)
    requires table.db.Valid()
    modifies table.db
    ensures table.db.Valid()
    ensures stopped <= written <= FirstRejected(schema, events, marshal)
    ensures written == stopped || (written == stopped + 1 && err == Some(InsertIdError))
    ensures err == Some(InsertIdError) ==> written == stopped + 1
    ensures table.db.rows == old(table.db.rows) + LoggedRows(|old(table.db.rows)|, table.family, events[..written], marshal)
    ensures table.db.executed == old(table.db.executed) + LoggedStmts(table.family, events[..written], marshal)
    ensures err.None? <==> stopped == |events|
    ensures err.Some? ==>
      stopped < |events| &&
      (!Accepted(schema, marshal, events[stopped]) ==> RejectionError(schema, marshal, events[stopped], err)) &&
      (Accepted(schema, marshal, events[stopped]) ==> IsInsertError(err))
  {
    var db := table.db;
    ghost var rows0, executed0 := db.rows, db.executed;
    var i := 0;
    while i < |events|
      invariant i <= FirstRejected(schema, events, marshal)
      invariant db.Valid()
      invariant db.rows == rows0 + LoggedRows(|rows0|, table.family, events[..i], marshal)
      invariant db.executed == executed0 + LoggedStmts(table.family, events[..i], marshal)
    {
      var e, wrote := IngestEvent(table, schema, events, i, marshal, rows0, executed0);
      if e.Some? {
        return e, i, if wrote then i + 1 else i;
      }
      i := i + 1;
    }
    assert events[..|events|] == events;
    return None, |events|, |events|;
  }

  /**
   * The body of that loop for the event `events[i]`: check every field,
   * marshal, insert. The events before it have been written on top of
   * `rows0` and `executed0`; on success, or when only the last insert id is
   * missing, so has this one.
   */
  method IngestEvent(table: Table, schema: Schema, events: seq<Record>, i: nat, marshal: Record -> Option<string>,
                     ghost rows0: seq<RawRow>, ghost executed0: seq<Stmt>)
    returns (err: Option<Error>, ghost wrote: bool)
    requires i < |events| && i <= FirstRejected(schema, events, marshal)
    requires table.db.Valid()
    requires table.db.rows == rows0 + LoggedRows(|rows0|, table.family, events[..i], marshal)
    requires table.db.executed == executed0 + LoggedStmts(table.family, events[..i], marshal)
    modifies table.db
    ensures table.db.Valid()
    ensures !Accepted(schema, marshal, events[i]) ==> err.Some? && RejectionError(schema, marshal, events[i], err)
    ensures Accepted(schema, marshal, events[i]) ==> err.None? || IsInsertError(err)
    ensures wrote <==> Accepted(schema, marshal, events[i]) && (err.None? || err == Some(InsertIdError))
    ensures err == Some(InsertIdError) ==> wrote
    ensures wrote || err.None? ==>
      i + 1 <= FirstRejected(schema, events, marshal) &&
      table.db.rows == rows0 + LoggedRows(|rows0|, table.family, events[..i + 1], marshal) &&
      table.db.executed == executed0 + LoggedStmts(table.family, events[..i + 1], marshal)
    ensures !wrote ==> table.db.rows == old(table.db.rows) && table.db.executed == old(table.db.executed)
  {
    var event := events[i];
    err := ValidateEvent(schema, event);
    if err.Some? {
      return err, false;
    }
    var logJSON := marshal(event);
    if logJSON.None? {
      return Some(MarshalFailed), false;
    }
    assert i < FirstRejected(schema, events, marshal);
    LoggedStep(|rows0|, table.family, events, marshal, i);
    err := table.Insert(logJSON.value);
    wrote := err.None? || err == Some(InsertIdError);
  }

  /**
   * A batch with an event that is not accepted makes `Ingest` fail: with the
   * lookup error, with an insert error for an earlier event, or with that
   * event's rejection. If it is the first event, no row is written.
   */
  method IngestRejected(service: Service, family: string, schema: Schema, events: seq<Record>,
                        marshal: Record -> Option<string>) returns (err: Option<Error>)
    requires service.client.Valid() && service.client.db.Valid()
    requires FirstRejected(schema, events, marshal) < |events|
    modifies service.client, service.client.db
    ensures err.Some?
    ensures IsLookupError(family, err) || IsInsertError(err) ||
      RejectionError(schema, marshal, events[FirstRejected(schema, events, marshal)], err)
    ensures FirstRejected(schema, events, marshal) == 0 ==> service.client.db.rows == old(service.client.db.rows)
  {
    ghost var stopped, written;
    err, stopped, written := service.Ingest(family, schema, events, marshal);
    assert events[..0] == [];
  }

  /**
   * A batch whose every event is accepted fails only if the table lookup or
   * an insert does; on success every event is written, in order.
   */
  method IngestAccepted(service: Service, family: string, schema: Schema, events: seq<Record>,
                        marshal: Record -> Option<string>) returns (err: Option<Error>)
    requires service.client.Valid() && service.client.db.Valid()
    requires FirstRejected(schema, events, marshal) == |events|
    modifies service.client, service.client.db
    ensures err.None? || IsLookupError(family, err) || IsInsertError(err)
    ensures err.None? ==>
      service.client.db.rows ==
        old(service.client.db.rows) + LoggedRows(|old(service.client.db.rows)|, family, events, marshal)
  {
    ghost var stopped, written;
    err, stopped, written := service.Ingest(family, schema, events, marshal);
    assert events[..|events|] == events;
  }
}
