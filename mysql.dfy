/**
 * The MySQL client of pkg/mysql/mysql.go: a `Table` that appends raw logs of
 * one family, and a `Client` that keeps a family-to-table cache in front of
 * the `raw_logs` DDL.
 */
module MySql {
  import opened Data
  import opened Sql

  const InsertPrepareError: Error := Wrapped("creating insert statement", PrepareFailed)
  const InsertExecError: Error := Wrapped("executing insert statement", ExecFailed)
  const InsertIdError: Error := Wrapped("inserting record", LastInsertIdFailed)
  const CreatePrepareError: Error := Wrapped("preparing create statement", PrepareFailed)
  const CreateExecError: Error := Wrapped("executing create statement", ExecFailed)

  /** The table of one log family; every family shares the `raw_logs` table of the database. */
  class Table {
    const db: Database
    const family: string
    const schema: Schema

    constructor(db: Database, family: string, schema: Schema)
      ensures this.db == db && this.family == family && this.schema == schema
    {
      this.db, this.family, this.schema := db, family, schema;
    }

    /**
     * `Table.Insert`: one `raw_logs` row `(family, log)`. A failed prepare or
     * exec changes nothing; a missing last insert id is reported although the
     * row is already written.
     */
    method Insert(log: string) returns (err: Option<Error>)
      requires db.Valid()
      modifies db
      ensures db.Valid()
      ensures err.None? || err == Some(InsertPrepareError) || err == Some(InsertExecError) || err == Some(InsertIdError)
      ensures err.None? || err == Some(InsertIdError) <==> RowAdded(old(db.rows), db.rows, family, log)
      ensures err.None? || err == Some(InsertIdError) ==> db.executed == old(db.executed) + [InsertRawLog(family, log)]
      ensures err == Some(InsertPrepareError) || err == Some(InsertExecError) ==>
        db.rows == old(db.rows) && db.executed == old(db.executed)
    {
      var s := InsertRawLog(family, log);
      var prepared := db.Prepare(s);
      if !prepared {
        return Some(InsertPrepareError);
      }
      var res := db.Exec(s);
      if res.ExecError? {
        return Some(InsertExecError);
      }
      if res.lastId.None? {
        return Some(InsertIdError);
      }
      return None;
    }
  }

  /** The connection and its cache of tables, keyed by family. */
  class Client {
    const db: Database
    var tables: map<string, Table>

    /** Every cached table is stored under its own family and writes to this client's database. */
    ghost predicate Valid()
      reads this
    {
      forall f :: f in tables ==> tables[f].family == f && tables[f].db == db
    }

    /** `Create`, with the cache made empty rather than left nil (see `CreateAsWritten`). */
    constructor(db: Database)
      ensures this.db == db && tables == map[]
      ensures Valid()
    {
      this.db := db;
      tables := map[];
    }

    /**
     * `FindOrCreateTable`: a cached table is returned as it is; otherwise the
     * `raw_logs` DDL runs and, if it succeeds, a new table for `family` and
     * `schema` is cached and returned.
     */
    method FindOrCreateTable(family: string, schema: Schema) returns (table: Table?, err: Option<Error>)
      requires Valid() && db.Valid()
      modifies this, db
      ensures Valid() && db.Valid()
      ensures err.None? <==> table != null
      ensures table != null ==> table.family == family && table.db == db && family in tables && tables[family] == table
      ensures family in old(tables) ==>
        table == old(tables)[family] && tables == old(tables) &&
        db.executed == old(db.executed) && db.rows == old(db.rows)
      ensures family !in old(tables) && err.Some? ==>
        (err == Some(CreatePrepareError) || err == Some(CreateExecError)) &&
        tables == old(tables) && db.executed == old(db.executed) && db.rows == old(db.rows)
      ensures family !in old(tables) && err.None? ==>
        fresh(table) && table.schema == schema && tables == old(tables)[family := table] &&
        db.executed == old(db.executed) + [CreateRawLogs] && db.rows == old(db.rows)
    {
      if family in tables {
        return tables[family], None;
      }
      var prepared := db.Prepare(CreateRawLogs);
      if !prepared {
        return null, Some(CreatePrepareError);
      }
      var res := db.Exec(CreateRawLogs);
      if res.ExecError? {
        return null, Some(CreateExecError);
      }
      table := new Table(db, family, schema);
      tables := tables[family := table];
      err := None;
    }
  }

  /** A later lookup of a cached family returns the first table, with the schema it was created with. */
  method LookupTwice(client: Client, family: string, first: Schema, second: Schema)
    returns (t1: Table?, t2: Table?)
    requires client.Valid() && client.db.Valid()
    modifies client, client.db
    ensures t1 != null ==> t2 == t1 && t2.schema == (if family in old(client.tables) then old(client.tables)[family].schema else first)
    ensures t1 != null ==> client.db.executed == old(client.db.executed) + (if family in old(client.tables) then [] else [CreateRawLogs])
  {
    var e1, e2;
    t1, e1 := client.FindOrCreateTable(family, first);
    t2, e2 := client.FindOrCreateTable(family, second);
  }

  // ---------------------------------------------------------------------------
  // The cache as the source writes it
  // ---------------------------------------------------------------------------

  /** A Go map value: `nil`, or made. Reading `nil` finds nothing; storing into it panics. */
  datatype GoMap<K, V> = NilMap | MadeMap(entries: map<K, V>)

  function GoLookup<K, V>(m: GoMap<K, V>, k: K): (r: Option<V>)
    ensures r.Some? <==> m.MadeMap? && k in m.entries
  {
    if m.MadeMap? && k in m.entries then Some(m.entries[k]) else None
  }

  /** `m[k] = v`; `None` stands for the run-time panic of an assignment into a nil map. */
  function GoStore<K, V>(m: GoMap<K, V>, k: K, v: V): (r: Option<GoMap<K, V>>)
    ensures r.Some? <==> m.MadeMap?
    ensures r.Some? ==> r.value == MadeMap(m.entries[k := v])
  {
    if m.NilMap? then None else Some(MadeMap(m.entries[k := v]))
  }

  /** After a store into a made map, the stored key reads back its value and every other key reads as before. */
  lemma GoStoreThenLookup<K, V>(m: GoMap<K, V>, k: K, v: V, j: K)
    requires m.MadeMap?
    ensures GoStore(m, k, v).Some?
    ensures GoLookup(GoStore(m, k, v).value, j) == (if j == k then Some(v) else GoLookup(m, j))
  {
  }

  /** A nil map holds no key. */
  lemma GoLookupNil<K, V>(j: K)
    ensures GoLookup<K, V>(NilMap, j).None?
  {
  }

  /** The cache `Create` leaves in a new client: the composite literal sets only `DB`, so `tables` is nil. */
  function CreateAsWritten<V>(): GoMap<string, V>
  {
    NilMap
  }

  /**
   * With the cache as written, the first lookup of any family misses and the
   * store that follows a successful DDL panics.
   */
  lemma FirstStorePanicsAsWritten<V>(family: string, table: V)
    ensures GoLookup(CreateAsWritten<V>(), family).None?
    ensures GoStore(CreateAsWritten<V>(), family, table).None?
  {
  }

  /** With the cache made empty, the first store succeeds and the family is found afterwards. */
  lemma FirstStoreCorrected<V>(family: string, table: V)
    ensures GoStore(MadeMap(map[]), family, table) == Some(MadeMap(map[family := table]))
    ensures GoLookup(MadeMap(map[family := table]), family) == Some(table)
  {
  }
}
