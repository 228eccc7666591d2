/**
 * The statement builder of pkg/mysql/statements.go: `CreateTableStatement`
 * and `InsertTableStatement`. Both walk a Go map, whose iteration order is
 * unspecified; the loops below pick the next key nondeterministically, and the
 * sort that follows makes the result depend on the map alone.
 */
module Statements {
  import opened Text
  import opened Escaping
  import opened Data

  // ---------------------------------------------------------------------------
  // CREATE TABLE
  // ---------------------------------------------------------------------------

  const TextTail: string := "` TEXT, "
  const IntTail: string := "` INT, "

  /** What follows the field name in the clause a tag produces; other tags produce no clause. */
  function ClauseTail(tag: string): Option<string>
  {
    if tag == "string" then Some(TextTail) else if tag == "int" then Some(IntTail) else None
  }

  /** One column clause, as appended to `tableFields`. */
  function Clause(field: string, tail: string): string
  {
    "`" + Escaped(field) + tail
  }

  /** The clauses the fields `keys` of `schema` produce. */
  ghost function ClauseSet(schema: Schema, keys: set<string>): set<string>
  {
    set k | k in keys && k in schema && ClauseTail(schema[k]).Some? :: Clause(k, ClauseTail(schema[k]).value)
  }

  /** The column clauses of the statement, in the order after `sort.Strings`. */
  ghost function Columns(schema: Schema): seq<string>
  {
    Sort(Enumerate(ClauseSet(schema, schema.Keys)))
  }

  const CreatePrefix: string := "CREATE TABLE IF NOT EXISTS `"
  const IdColumn: string := "`(`id` INT NOT NULL AUTO_INCREMENT, "
  const CreateSuffix: string := "PRIMARY KEY(`id`));"

  /** The statement `CreateTableStatement(name, schema)` returns. */
  ghost function CreateTableText(name: string, schema: Schema): string
  {
    CreatePrefix + Escaped(name) + IdColumn + Join(Columns(schema), "") + CreateSuffix
  }

  /**
   * The loop of `CreateTableStatement` (lines 13-24): one clause per field with a
   * supported tag, in the map's iteration order.
   */
  method TableFields(schema: Schema) returns (tableFields: seq<string>)
    ensures multiset(tableFields) == multiset(ClauseSet(schema, schema.Keys))
  {
    tableFields := [];
    var remaining := schema.Keys;
    ghost var done: set<string> := {};
    while remaining != {}
      invariant remaining !! done && remaining + done == schema.Keys
      invariant multiset(tableFields) == multiset(ClauseSet(schema, done))
      decreases |remaining|
    {
      var fieldName :| fieldName in remaining;
      var fieldType := schema[fieldName];
      if fieldType == "string" {
        var e := Escape(fieldName);
        var field := "`" + e + TextTail;
        ClauseStep(schema, done, fieldName, tableFields, field);
        tableFields := tableFields + [field];
      } else if fieldType == "int" {
        var e := Escape(fieldName);
        var field := "`" + e + IntTail;
        ClauseStep(schema, done, fieldName, tableFields, field);
        tableFields := tableFields + [field];
      } else {
        ClauseSetAdd(schema, done, fieldName);
      }
      MoveOne(remaining, done, schema.Keys, fieldName);
      remaining := remaining - {fieldName};
      done := done + {fieldName};
    }
    assert done == schema.Keys;
  }

  /** Go's `CreateTableStatement`: collect the clauses, sort them, join them into the frame. */
  method CreateTableStatement(name: string, schema: Schema) returns (stmt: string)
    ensures stmt == CreateTableText(name, schema)
  {
    var tableFields := TableFields(schema);
    SortForgetsOrder(tableFields, Enumerate(ClauseSet(schema, schema.Keys)));
    tableFields := Sort(tableFields);
    var safeTableFields := Join(tableFields, "");
    var escapedName := Escape(name);
    stmt := CreatePrefix + escapedName + IdColumn + safeTableFields + CreateSuffix;
  }

  /** Clauses of distinct fields, or of different types, are distinct strings. */
  lemma ClauseInjective(f1: string, t1: string, f2: string, t2: string)
    requires t1 == TextTail || t1 == IntTail
    requires t2 == TextTail || t2 == IntTail
    requires Clause(f1, t1) == Clause(f2, t2)
    ensures f1 == f2 && t1 == t2
  {
    var a1, a2 := "`" + Escaped(f1), "`" + Escaped(f2);
    var c := a1 + t1;
    assert c == a2 + t2;
    if t1 == t2 {
      assert a1 == c[..|a1|];
      assert a2 == c[..|a2|];
      assert Escaped(f1) == a1[1..] && Escaped(f2) == a2[1..];
      EscapedInjective(f1, f2);
    } else {
      // the fourth byte from the end is 'X' in one tail and 'N' in the other
      LastBytes(a1, t1);
      LastBytes(a2, t2);
      assert false;
    }
  }

  lemma LastBytes(a: string, t: string)
    ensures |a + t| >= 4 && |t| >= 4 ==> (a + t)[|a + t| - 4] == t[|t| - 4]
  {
  }

  /** Visiting one more field adds its clause, if its tag produces one. */
  lemma ClauseSetAdd(schema: Schema, done: set<string>, k: string)
    requires k in schema
    ensures ClauseTail(schema[k]).Some? ==>
      ClauseSet(schema, done + {k}) == ClauseSet(schema, done) + {Clause(k, ClauseTail(schema[k]).value)}
    ensures ClauseTail(schema[k]).None? ==> ClauseSet(schema, done + {k}) == ClauseSet(schema, done)
  {
  }

  /** One step of the loop of `CreateTableStatement` keeps its invariant. */
  lemma ClauseStep(schema: Schema, done: set<string>, k: string, fields: seq<string>, field: string)
    requires k in schema && k !in done && ClauseTail(schema[k]).Some?
    requires field == Clause(k, ClauseTail(schema[k]).value)
    requires multiset(fields) == multiset(ClauseSet(schema, done))
    ensures multiset(fields + [field]) == multiset(ClauseSet(schema, done + {k}))
  {
    ClauseFresh(schema, done, k);
    ClauseSetAdd(schema, done, k);
  }

  /** The clause of a field not yet visited is not among the clauses collected so far. */
  lemma ClauseFresh(schema: Schema, done: set<string>, k: string)
    requires k in schema && k !in done && ClauseTail(schema[k]).Some?
    ensures Clause(k, ClauseTail(schema[k]).value) !in ClauseSet(schema, done)
  {
    if Clause(k, ClauseTail(schema[k]).value) in ClauseSet(schema, done) {
      var j :| j in done && j in schema && ClauseTail(schema[j]).Some? &&
        Clause(j, ClauseTail(schema[j]).value) == Clause(k, ClauseTail(schema[k]).value);
      ClauseInjective(j, ClauseTail(schema[j]).value, k, ClauseTail(schema[k]).value);
    }
  }

  /** A clause for field `k` and type `t` is in the statement exactly when `k` is declared with a tag of type `t`. */
  lemma ClauseInColumns(schema: Schema, k: string, t: string)
    requires t == TextTail || t == IntTail
    ensures Clause(k, t) in Columns(schema) <==> k in schema && ClauseTail(schema[k]) == Some(t)
  {
    ColumnsMembers(schema, Clause(k, t));
    ClauseSetMember(schema, k, t);
  }

  lemma ClauseSetMember(schema: Schema, k: string, t: string)
    requires t == TextTail || t == IntTail
    ensures Clause(k, t) in ClauseSet(schema, schema.Keys) <==> k in schema && ClauseTail(schema[k]) == Some(t)
  {
    if Clause(k, t) in ClauseSet(schema, schema.Keys) {
      var j :| j in schema && ClauseTail(schema[j]).Some? && Clause(j, ClauseTail(schema[j]).value) == Clause(k, t);
      ClauseInjective(j, ClauseTail(schema[j]).value, k, t);
    }
  }

  /** Every column clause comes from a declared field with a supported tag. */
  lemma ColumnsFromSchema(schema: Schema, c: string)
    requires c in Columns(schema)
    ensures exists k :: k in schema && ClauseTail(schema[k]).Some? && c == Clause(k, ClauseTail(schema[k]).value)
  {
    ColumnsMembers(schema, c);
  }

  /** The column list holds exactly the clauses of the schema. */
  lemma ColumnsMembers(schema: Schema, c: string)
    ensures c in Columns(schema) <==> c in ClauseSet(schema, schema.Keys)
  {
    var cols, s := Columns(schema), ClauseSet(schema, schema.Keys);
    assert multiset(cols) == multiset(s);
    assert c in cols <==> c in multiset(cols);
    assert c in s <==> c in multiset(s);
  }

  /** An entry with an unsupported tag has no effect on the statement: it is silently dropped. */
  lemma UnsupportedTagDropped(name: string, schema: Schema, k: string, tag: string)
    requires ClauseTail(tag).None?
    ensures CreateTableText(name, schema[k := tag]) == CreateTableText(name, schema - {k})
  {
    var s1, s2 := schema[k := tag], schema - {k};
    forall c | c in ClauseSet(s1, s1.Keys) ensures c in ClauseSet(s2, s2.Keys) {
      var j :| j in s1 && ClauseTail(s1[j]).Some? && c == Clause(j, ClauseTail(s1[j]).value);
      assert j != k && j in s2 && s2[j] == s1[j];
    }
    forall c | c in ClauseSet(s2, s2.Keys) ensures c in ClauseSet(s1, s1.Keys) {
      var j :| j in s2 && ClauseTail(s2[j]).Some? && c == Clause(j, ClauseTail(s2[j]).value);
      assert j != k && j in s1 && s1[j] == s2[j];
    }
    assert ClauseSet(s1, s1.Keys) == ClauseSet(s2, s2.Keys);
  }

  /** An ordered sequence with the clauses of the schema is the column list of the statement. */
  lemma ColumnsAre(schema: Schema, cols: seq<string>)
    requires Sorted(cols)
    requires multiset(cols) == multiset(ClauseSet(schema, schema.Keys))
    ensures Columns(schema) == cols
  {
    SortForgetsOrder(Enumerate(ClauseSet(schema, schema.Keys)), cols);
    SortOfSorted(cols);
  }

  /** An empty schema yields the bare frame: only the `id` column and the primary key. */
  lemma CreateTableEmptySchema(name: string)
    ensures CreateTableText(name, map[]) == CreatePrefix + Escaped(name) + IdColumn + CreateSuffix
  {
    assert ClauseSet(map[], {}) == {};
    ColumnsAre(map[], []);
    assert Join([], "") == "";
  }

  /** The clause list the loop of `CreateTableStatement` builds when it visits the keys in the order `keys`. */
  ghost function ClausesOf(schema: Schema, keys: seq<string>): seq<string>
    requires forall i :: 0 <= i < |keys| ==> keys[i] in schema
  {
    if |keys| == 0 then []
    else
      var k := keys[|keys| - 1];
      ClausesOf(schema, keys[..|keys| - 1]) +
        (if ClauseTail(schema[k]).Some? then [Clause(k, ClauseTail(schema[k]).value)] else [])
  }

  lemma ClausesOfSnoc(schema: Schema, keys: seq<string>, k: string, t: Option<string>)
    requires forall i :: 0 <= i < |keys| ==> keys[i] in schema
    requires k in schema && ClauseTail(schema[k]) == t
    ensures t.Some? ==> ClausesOf(schema, keys + [k]) == ClausesOf(schema, keys) + [Clause(k, t.value)]
    ensures t.None? ==> ClausesOf(schema, keys + [k]) == ClausesOf(schema, keys)
  {
    assert (keys + [k])[..|keys|] == keys;
  }

  /** Whatever order the loop visits the keys in, it collects the clauses of those keys, each once. */
  lemma {:induction false} ClausesOfKeys(schema: Schema, keys: seq<string>)
    requires forall i :: 0 <= i < |keys| ==> keys[i] in schema
    requires forall i, j :: 0 <= i < j < |keys| ==> keys[i] != keys[j]
    ensures multiset(ClausesOf(schema, keys)) == multiset(ClauseSet(schema, set k | k in keys))
  {
    if |keys| > 0 {
      var init, k := keys[..|keys| - 1], keys[|keys| - 1];
      ClausesOfKeys(schema, init);
      assert keys == init + [k];
      ElementsSnoc(keys, init, k);
      ClauseSetAdd(schema, (set x | x in init), k);
      if ClauseTail(schema[k]).Some? {
        ClauseFresh(schema, (set x | x in init), k);
      }
    }
  }

  /** Two visiting orders of the same keys give the same statement. */
  lemma CreateTableAnyOrder(name: string, schema: Schema, order: seq<string>)
    requires forall i :: 0 <= i < |order| ==> order[i] in schema
    requires forall i, j :: 0 <= i < j < |order| ==> order[i] != order[j]
    requires forall k :: k in schema ==> k in order
    ensures CreatePrefix + Escaped(name) + IdColumn + Join(Sort(ClausesOf(schema, order)), "") + CreateSuffix ==
      CreateTableText(name, schema)
  {
    ClausesOfKeys(schema, order);
    assert (set k | k in order) == schema.Keys;
    SortForgetsOrder(ClausesOf(schema, order), Enumerate(ClauseSet(schema, schema.Keys)));
  }

  // ---------------------------------------------------------------------------
  // INSERT
  // ---------------------------------------------------------------------------

  /** The escaped names of the fields `keys`. */
  ghost function EscapedNames(keys: set<string>): set<string>
  {
    set k | k in keys :: Escaped(k)
  }

  /** The column list of the insert statement: every key of the schema, escaped, in sorted order. */
  ghost function InsertColumns(schema: Schema): seq<string>
  {
    Sort(Enumerate(EscapedNames(schema.Keys)))
  }

  /** One `(?, ..., ?)` group with `n` placeholders. */
  function Placeholders(n: nat): string
  {
    "(" + Join(Repeat("?", n), ", ") + ")"
  }

  /** The `VALUES` part: one group of `width` placeholders per record, separated by `", "`. */
  function ValuesText(width: nat, count: nat): string
  {
    Join(Repeat(Placeholders(width), count), ", ")
  }

  const InsertPrefix: string := "INSERT INTO `"

  /** The part of the insert statement up to and including `VALUES `. */
  ghost function InsertHead(name: string, schema: Schema): string
  {
    InsertPrefix + Escaped(name) + "`(" + ColumnList(InsertColumns(schema)) + ") VALUES "
  }

  /** The column names, each in backticks, separated by `", "`. */
  function ColumnList(cols: seq<string>): string
  {
    "`" + Join(cols, "`, `") + "`"
  }

  /** The statement `InsertTableStatement(name, schema, records)` returns for `count` records. */
  ghost function InsertTableText(name: string, schema: Schema, count: nat): string
  {
    InsertHead(name, schema) + ValuesText(|schema|, count) + ";"
  }

  /** Whether `record` supplies a non-nil value under the column name `c` (a missing key reads as nil in Go). */
  predicate Supplies(record: Record, c: string)
  {
    c in record && !record[c].Null?
  }

  /** The arguments one record contributes: its non-nil values under the columns `cols`, in order. */
  function RecordArgs(record: Record, cols: seq<string>): seq<Value>
  {
    if |cols| == 0 then []
    else
      var c := cols[|cols| - 1];
      RecordArgs(record, cols[..|cols| - 1]) + (if Supplies(record, c) then [record[c]] else [])
  }

  /** The argument list for `records`: record by record, column by column. */
  function Args(records: seq<Record>, cols: seq<string>): seq<Value>
  {
    if |records| == 0 then []
    else Args(records[..|records| - 1], cols) + RecordArgs(records[|records| - 1], cols)
  }

  /**
   * The first loop of `InsertTableStatement` (lines 51-56): one placeholder and
   * one escaped name per schema key, whatever its tag, in the map's iteration order.
   */
  method FieldNames(schema: Schema) returns (fieldNames: seq<string>, bindvars: seq<string>)
    ensures multiset(fieldNames) == multiset(EscapedNames(schema.Keys))
    ensures bindvars == Repeat("?", |schema|)
  {
    fieldNames, bindvars := [], [];
    var remaining := schema.Keys;
    ghost var done: set<string> := {};
    while remaining != {}
      invariant remaining !! done && remaining + done == schema.Keys
      invariant multiset(fieldNames) == multiset(EscapedNames(done))
      invariant bindvars == Repeat("?", |done|)
      decreases |remaining|
    {
      var fieldName :| fieldName in remaining;
      bindvars := bindvars + ["?"];
      var e := Escape(fieldName);
      FieldNameStep(done, fieldName, fieldNames);
      fieldNames := fieldNames + [e];
      MoveOne(remaining, done, schema.Keys, fieldName);
      remaining := remaining - {fieldName};
      done := done + {fieldName};
    }
    assert done == schema.Keys;
  }

  /** Go's `InsertTableStatement`: the statement text and its positional arguments. */
  method InsertTableStatement(name: string, schema: Schema, records: seq<Record>) returns (stmt: string, args: seq<Value>)
    ensures stmt == InsertTableText(name, schema, |records|)
    ensures args == Args(records, InsertColumns(schema))
  {
    var fieldNames, bindvars := FieldNames(schema);
    SortForgetsOrder(fieldNames, Enumerate(EscapedNames(schema.Keys)));
    fieldNames := Sort(fieldNames);
    var safeTableFields := "`" + Join(fieldNames, "`, `") + "`";
    var bindvarString := "(" + Join(bindvars, ", ") + ")";
    assert fieldNames == InsertColumns(schema) && bindvarString == Placeholders(|schema|);
    var valueBindvars, a := RecordsLoop(records, fieldNames, bindvarString);
    args := a;
    var valuePlaceholders := Join(valueBindvars, ", ");
    var escapedName := Escape(name);
    stmt := InsertPrefix + escapedName + "`(" + safeTableFields + ") VALUES " + valuePlaceholders + ";";
  }

  /** The loop over the records of `InsertTableStatement` (lines 70-81): one group and the values of each record. */
  method RecordsLoop(records: seq<Record>, fieldNames: seq<string>, bindvarString: string)
    returns (valueBindvars: seq<string>, args: seq<Value>)
    ensures valueBindvars == Repeat(bindvarString, |records|)
    ensures args == Args(records, fieldNames)
  {
    valueBindvars, args := [], [];
    for i := 0 to |records|
      invariant valueBindvars == Repeat(bindvarString, i)
      invariant args == Args(records[..i], fieldNames)
    {
      valueBindvars := valueBindvars + [bindvarString];
      args := AppendValues(args, records[i], fieldNames);
      assert records[..i + 1][..i] == records[..i];
    }
    assert records[..|records|] == records;
  }

  /** The inner loop of `InsertTableStatement` (lines 74-80): append the record's non-nil values. */
  method AppendValues(args0: seq<Value>, record: Record, fieldNames: seq<string>) returns (args: seq<Value>)
    ensures args == args0 + RecordArgs(record, fieldNames)
  {
    args := args0;
    for j := 0 to |fieldNames|
      invariant args == args0 + RecordArgs(record, fieldNames[..j])
    {
      var fieldName := fieldNames[j];
      assert fieldNames[..j + 1][..j] == fieldNames[..j];
      if fieldName in record && !record[fieldName].Null? {
        args := args + [record[fieldName]];
      }
    }
    assert fieldNames[..|fieldNames|] == fieldNames;
  }

  /** One step of the first loop of `InsertTableStatement` keeps its invariant. */
  lemma FieldNameStep(done: set<string>, k: string, names: seq<string>)
    requires k !in done
    requires multiset(names) == multiset(EscapedNames(done))
    ensures multiset(names + [Escaped(k)]) == multiset(EscapedNames(done + {k}))
    ensures |done + {k}| == |done| + 1
  {
    EscapedNameStep(done, k);
  }

  /** Escaping one more distinct field name adds a new name to the set. */
  lemma EscapedNameStep(done: set<string>, k: string)
    requires k !in done
    ensures EscapedNames(done + {k}) == EscapedNames(done) + {Escaped(k)}
    ensures Escaped(k) !in EscapedNames(done)
  {
    if Escaped(k) in EscapedNames(done) {
      var j :| j in done && Escaped(j) == Escaped(k);
      EscapedInjective(j, k);
    }
  }

  /** The escaped names of distinct fields are distinct, so there are as many as there are fields. */
  lemma {:induction false} EscapedNamesCount(keys: set<string>)
    ensures |EscapedNames(keys)| == |keys|
    decreases |keys|
  {
    if keys != {} {
      var k :| k in keys;
      var rest := keys - {k};
      EscapedNamesCount(rest);
      EscapedNameStep(rest, k);
      assert rest + {k} == keys;
    }
  }

  /** The insert column list holds exactly the escaped schema keys, one per key, in sorted order. */
  lemma InsertColumnsMembers(schema: Schema, c: string)
    ensures c in InsertColumns(schema) <==> exists k :: k in schema && c == Escaped(k)
    ensures |InsertColumns(schema)| == |schema|
    ensures Sorted(InsertColumns(schema))
  {
    var cols, s := InsertColumns(schema), EscapedNames(schema.Keys);
    assert multiset(cols) == multiset(s);
    assert c in cols <==> c in multiset(cols);
    assert c in s <==> c in multiset(s);
    EscapedNamesCount(schema.Keys);
    assert |cols| == |multiset(cols)| == |multiset(s)| == |s|;
  }

  /** Without records the statement ends in `VALUES ;` and there are no arguments. */
  lemma InsertNoRecords(name: string, schema: Schema)
    ensures InsertTableText(name, schema, 0) == InsertHead(name, schema) + ";"
    ensures InsertTableText(name, schema, 0)[|InsertTableText(name, schema, 0)| - 9..] == " VALUES ;"
    ensures Args([], InsertColumns(schema)) == []
  {
    var h := InsertHead(name, schema);
    assert ValuesText(|schema|, 0) == "";
    assert h + "" + ";" == h + ";";
    assert h[|h| - 8..] == " VALUES ";
    assert (h + ";")[|h| - 8..] == h[|h| - 8..] + ";";
  }

  /** A record contributes at most one value per column, and one per column exactly when it supplies them all. */
  lemma {:induction false} RecordArgsLength(record: Record, cols: seq<string>)
    ensures |RecordArgs(record, cols)| <= |cols|
    ensures |RecordArgs(record, cols)| == |cols| <==> forall j :: 0 <= j < |cols| ==> Supplies(record, cols[j])
  {
    if |cols| > 0 {
      var init := cols[..|cols| - 1];
      RecordArgsLength(record, init);
      if |RecordArgs(record, cols)| == |cols| {
        forall j | 0 <= j < |cols| ensures Supplies(record, cols[j]) {
          if j < |init| { assert cols[j] == init[j]; }
        }
      }
      if forall j :: 0 <= j < |cols| ==> Supplies(record, cols[j]) {
        assert forall j :: 0 <= j < |init| ==> Supplies(record, init[j]) by {
          forall j | 0 <= j < |init| ensures Supplies(record, init[j]) { assert init[j] == cols[j]; }
        }
      }
    }
  }

  /**
   * The arguments never outnumber the placeholders: at most one per record and
   * column, and exactly that many when every record supplies every column.
   */
  lemma ArgsLength(records: seq<Record>, cols: seq<string>)
    ensures |Args(records, cols)| <= |records| * |cols|
    ensures |Args(records, cols)| == |records| * |cols| <==>
      forall i, j :: 0 <= i < |records| && 0 <= j < |cols| ==> Supplies(records[i], cols[j])
  {
    ArgsBound(records, cols);
    if |Args(records, cols)| == |records| * |cols| {
      FullArgsSupplied(records, cols);
    }
    if forall i, j :: 0 <= i < |records| && 0 <= j < |cols| ==> Supplies(records[i], cols[j]) {
      SuppliedArgsFull(records, cols);
    }
  }

  /** One record more: its arguments follow, and its columns add to the bound. */
  lemma ArgsSnoc(records: seq<Record>, cols: seq<string>)
    requires |records| > 0
    ensures |Args(records, cols)| ==
      |Args(records[..|records| - 1], cols)| + |RecordArgs(records[|records| - 1], cols)|
    ensures |records| * |cols| == (|records| - 1) * |cols| + |cols|
  {
  }

  lemma {:induction false} ArgsBound(records: seq<Record>, cols: seq<string>)
    ensures |Args(records, cols)| <= |records| * |cols|
  {
    if |records| > 0 {
      ArgsBound(records[..|records| - 1], cols);
      RecordArgsLength(records[|records| - 1], cols);
      ArgsSnoc(records, cols);
    }
  }

  lemma {:induction false} FullArgsSupplied(records: seq<Record>, cols: seq<string>)
    requires |Args(records, cols)| == |records| * |cols|
    ensures forall i, j :: 0 <= i < |records| && 0 <= j < |cols| ==> Supplies(records[i], cols[j])
  {
    if |records| > 0 {
      var init, last := records[..|records| - 1], records[|records| - 1];
      ArgsBound(init, cols);
      RecordArgsLength(last, cols);
      ArgsSnoc(records, cols);
      FullArgsSupplied(init, cols);
      forall i, j | 0 <= i < |records| && 0 <= j < |cols| ensures Supplies(records[i], cols[j]) {
        if i < |init| { assert records[i] == init[i]; }
      }
    }
  }

  lemma {:induction false} SuppliedArgsFull(records: seq<Record>, cols: seq<string>)
    requires forall i, j :: 0 <= i < |records| && 0 <= j < |cols| ==> Supplies(records[i], cols[j])
    ensures |Args(records, cols)| == |records| * |cols|
  {
    if |records| > 0 {
      var init, last := records[..|records| - 1], records[|records| - 1];
      forall i, j | 0 <= i < |init| && 0 <= j < |cols| ensures Supplies(init[i], cols[j]) {
        assert init[i] == records[i];
      }
      SuppliedArgsFull(init, cols);
      assert forall j :: 0 <= j < |cols| ==> Supplies(last, cols[j]);
      RecordArgsLength(last, cols);
      ArgsSnoc(records, cols);
    }
  }

  /** A group of `w` placeholders holds `w` question marks. */
  lemma PlaceholdersCount(w: nat)
    ensures Count(Placeholders(w), '?') == w
  {
    assert Count(", ", '?') == 0;
    assert Count("?", '?') == 1;
    JoinRepeatCount("?", w, ", ", '?');
    var inner := Join(Repeat("?", w), ", ");
    CountConcat("(", inner, '?');
    CountConcat("(" + inner, ")", '?');
  }

  /** The `VALUES` part for `n` records holds `n * w` placeholders. */
  lemma ValuesCount(w: nat, n: nat)
    ensures Count(ValuesText(w, n), '?') == n * w
  {
    assert Count(", ", '?') == 0;
    PlaceholdersCount(w);
    JoinRepeatCount(Placeholders(w), n, ", ", '?');
  }

  /**
   * Arguments and placeholders line up exactly when every record supplies a
   * non-nil value under the escaped name of every schema key; a single nil or
   * missing value leaves fewer arguments than placeholders.
   */
  lemma ArgsMatchPlaceholders(schema: Schema, records: seq<Record>)
    ensures |Args(records, InsertColumns(schema))| <= Count(ValuesText(|schema|, |records|), '?')
    ensures |Args(records, InsertColumns(schema))| == Count(ValuesText(|schema|, |records|), '?') <==>
      forall i, k :: 0 <= i < |records| && k in schema ==> Supplies(records[i], Escaped(k))
  {
    var cols := InsertColumns(schema);
    InsertColumnsMembers(schema, "");
    ValuesCount(|schema|, |records|);
    ArgsLength(records, cols);
    assert |records| * |schema| == |records| * |cols|;
    if forall i, k :: 0 <= i < |records| && k in schema ==> Supplies(records[i], Escaped(k)) {
      forall i, j | 0 <= i < |records| && 0 <= j < |cols| ensures Supplies(records[i], cols[j]) {
        InsertColumnsMembers(schema, cols[j]);
      }
    }
    if forall i, j :: 0 <= i < |records| && 0 <= j < |cols| ==> Supplies(records[i], cols[j]) {
      forall i, k | 0 <= i < |records| && k in schema ensures Supplies(records[i], Escaped(k)) {
        InsertColumnsMembers(schema, Escaped(k));
        var j :| 0 <= j < |cols| && cols[j] == Escaped(k);
      }
    }
  }

  /** A one-key schema has its escaped key as its only column. */
  lemma InsertColumnsSingle(k: string, tag: string)
    ensures InsertColumns(map[k := tag]) == [Escaped(k)]
  {
    var s: Schema := map[k := tag];
    assert s.Keys == {k};
    assert EscapedNames(s.Keys) == {Escaped(k)};
    EnumerateSingleton(Escaped(k));
    SortOfSorted([Escaped(k)]);
  }

  /**
   * Values are looked up under the escaped field name: a record that supplies
   * a field whose name escaping changes contributes nothing for it.
   */
  lemma EscapedNameLookup(k: string, tag: string, v: Value)
    requires Escaped(k) != k
    ensures Args([map[k := v]], InsertColumns(map[k := tag])) == []
  {
    InsertColumnsSingle(k, tag);
    var r: Record := map[k := v];
    assert [r][..0] == [];
    assert RecordArgs(r, [Escaped(k)]) == RecordArgs(r, []);
  }

  /** A non-nil value stored under the escaped name is the argument for that column. */
  lemma EscapedNameRead(k: string, tag: string, v: Value)
    requires !v.Null?
    ensures Args([map[Escaped(k) := v]], InsertColumns(map[k := tag])) == [v]
  {
    InsertColumnsSingle(k, tag);
    var r: Record := map[Escaped(k) := v];
    assert [r][..0] == [];
    assert [Escaped(k)][..0] == [];
    assert Supplies(r, Escaped(k));
    assert RecordArgs(r, [Escaped(k)]) == [v];
    assert Args([r], [Escaped(k)]) == Args([], [Escaped(k)]) + RecordArgs(r, [Escaped(k)]);
  }

}
