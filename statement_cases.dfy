/**
 * The cases of pkg/mysql/statements_test.go, stated as lemmas about the
 * specification functions that the statement builder's methods are proved
 * against. Literal arguments reach the lemmas through `requires` equalities,
 * which keeps the solver from unfolding every function on every literal.
 */
module StatementCases {
  import opened Text
  import opened Escaping
  import opened Data
  import opened Statements

  /** The clause of a field spelt with lower-case letters and underscores only. */
  lemma PlainClauseOf(f: string, t: string, c: string)
    requires forall i :: 0 <= i < |f| ==> 'a' <= f[i] <= 'z' || f[i] == '_'
    requires c == "`" + f + t
    ensures Clause(f, t) == c
  {
    PlainWord(f);
  }

  lemma {:induction false} PlainWord(s: string)
    requires forall i :: 0 <= i < |s| ==> 'a' <= s[i] <= 'z' || s[i] == '_'
    ensures Escaped(s) == s
  {
    if |s| > 0 {
      PlainWord(s[1..]);
      assert s == [s[0]] + s[1..];
    }
  }

  lemma DogClauseTexts(b: string, n: string, w: string)
    requires b == "breed" && n == "name" && w == "weight"
    ensures Clause(b, TextTail) == "`breed` TEXT, "
    ensures Clause(n, TextTail) == "`name` TEXT, "
    ensures Clause(w, IntTail) == "`weight` INT, "
  {
    PlainClauseOf(b, TextTail, "`breed` TEXT, ");
    PlainClauseOf(n, TextTail, "`name` TEXT, ");
    PlainClauseOf(w, IntTail, "`weight` INT, ");
  }

  /** The keys of a three-entry schema, listed. */
  lemma ThreeKeys(schema: Schema, b: string, n: string, w: string, tb: string, tn: string, tw: string)
    requires schema == map[n := tn, b := tb, w := tw]
    ensures (set k | k in [b, n, w]) == schema.Keys
  {
  }

  lemma DogFieldsPlain(b: string, n: string, w: string)
    requires b == "breed" && n == "name" && w == "weight"
    ensures Escaped(b) == b && Escaped(n) == n && Escaped(w) == w
  {
    PlainWord(b);
    PlainWord(n);
    PlainWord(w);
  }

  lemma DogClausesOf(schema: Schema, b: string, n: string, w: string, cols: seq<string>)
    requires b == "breed" && n == "name" && w == "weight"
    requires schema == map[n := "string", b := "string", w := "int"]
    requires cols == ["`breed` TEXT, ", "`name` TEXT, ", "`weight` INT, "]
    ensures ClausesOf(schema, [b, n, w]) == cols
  {
    DogClauseTexts(b, n, w);
    assert ClauseTail(schema[b]) == Some(TextTail);
    assert ClauseTail(schema[n]) == Some(TextTail);
    assert ClauseTail(schema[w]) == Some(IntTail);
    ClausesOfSnoc(schema, [], b, Some(TextTail));
    ClausesOfSnoc(schema, [b], n, Some(TextTail));
    ClausesOfSnoc(schema, [b, n], w, Some(IntTail));
    assert [] + [b] == [b] && [b] + [n] == [b, n] && [b, n] + [w] == [b, n, w];
  }

  lemma DogSorted(cols: seq<string>)
    requires cols == ["`breed` TEXT, ", "`name` TEXT, ", "`weight` INT, "]
    ensures Sorted(cols)
  {
    assert LessEq(cols[0], cols[1]) && LessEq(cols[0], cols[2]) && LessEq(cols[1], cols[2]);
  }

  lemma DogColumns(schema: Schema, b: string, n: string, w: string, cols: seq<string>)
    requires b == "breed" && n == "name" && w == "weight"
    requires schema == map[n := "string", b := "string", w := "int"]
    requires cols == ["`breed` TEXT, ", "`name` TEXT, ", "`weight` INT, "]
    ensures Columns(schema) == cols
  {
    DogClausesOf(schema, b, n, w, cols);
    ClausesOfKeys(schema, [b, n, w]);
    ThreeKeys(schema, b, n, w, "string", "string", "int");
    DogSorted(cols);
    ColumnsAre(schema, cols);
  }

  lemma DogJoin(cols: seq<string>)
    requires cols == ["`breed` TEXT, ", "`name` TEXT, ", "`weight` INT, "]
    ensures Join(cols, "") == "`breed` TEXT, `name` TEXT, `weight` INT, "
  {
    assert Join(cols[2..], "") == cols[2];
    assert cols[1..][1..] == cols[2..];
    assert Join(cols[1..], "") == cols[1] + "" + cols[2];
  }

  /** The first case of TestCreateTableStatement: the id column, then the three clauses in sorted order. */
  lemma CreateTableDogRegistry(name: string, schema: Schema)
    requires name == "dog_registry"
    requires schema == map["name" := "string", "breed" := "string", "weight" := "int"]
    ensures CreateTableText(name, schema) ==
      CreatePrefix + "dog_registry" + IdColumn + "`breed` TEXT, `name` TEXT, `weight` INT, " + CreateSuffix
  {
    PlainWord(name);
    DogCreateText(name, schema);
  }

  /** The dog registry statement for any table name that escaping leaves unchanged. */
  lemma DogCreateText(name: string, schema: Schema)
    requires Escaped(name) == name
    requires schema == map["name" := "string", "breed" := "string", "weight" := "int"]
    ensures CreateTableText(name, schema) ==
      CreatePrefix + name + IdColumn + "`breed` TEXT, `name` TEXT, `weight` INT, " + CreateSuffix
  {
    var cols := ["`breed` TEXT, ", "`name` TEXT, ", "`weight` INT, "];
    DogColumns(schema, "breed", "name", "weight", cols);
    DogJoin(cols);
    CreateTableTextOf(name, schema, cols, "`breed` TEXT, `name` TEXT, `weight` INT, ");
  }

  lemma CreateTableTextOf(name: string, schema: Schema, cols: seq<string>, clauses: string)
    requires Escaped(name) == name && Columns(schema) == cols && Join(cols, "") == clauses
    ensures CreateTableText(name, schema) == CreatePrefix + name + IdColumn + clauses + CreateSuffix
  {
  }

  lemma CriminalColumns(schema: Schema, n: string, d: string)
    requires n == "name" && d == "test; DROP TABLE users"
    requires schema == map[n := "string", d := d]
    ensures Columns(schema) == ["`name` TEXT, "]
  {
    PlainClauseOf(n, TextTail, "`name` TEXT, ");
    assert ClauseTail(schema[n]) == Some(TextTail);
    assert ClauseTail(schema[d]) == None;
    ClausesOfSnoc(schema, [], n, Some(TextTail));
    ClausesOfSnoc(schema, [n], d, None);
    assert [] + [n] == [n] && [n] + [d] == [n, d];
    ClausesOfKeys(schema, [n, d]);
    TwoKeys(schema, n, d, "string", d);
    ColumnsAre(schema, ["`name` TEXT, "]);
  }

  /** The keys of a two-entry schema, listed. */
  lemma TwoKeys(schema: Schema, n: string, d: string, tn: string, td: string)
    requires schema == map[n := tn, d := td]
    ensures (set k | k in [n, d]) == schema.Keys
  {
  }

  /** The third case of TestCreateTableStatement: the field with an unknown tag does not appear. */
  lemma CreateTableCriminalRegistry(name: string, schema: Schema)
    requires name == "criminal_registry"
    requires schema == map["name" := "string", "test; DROP TABLE users" := "test; DROP TABLE users"]
    ensures CreateTableText(name, schema) == CreatePrefix + "criminal_registry" + IdColumn + "`name` TEXT, " + CreateSuffix
  {
    PlainWord(name);
    CriminalText(name, schema);
  }

  /** The criminal registry statement for any table name that escaping leaves unchanged. */
  lemma CriminalText(name: string, schema: Schema)
    requires Escaped(name) == name
    requires schema == map["name" := "string", "test; DROP TABLE users" := "test; DROP TABLE users"]
    ensures CreateTableText(name, schema) == CreatePrefix + name + IdColumn + "`name` TEXT, " + CreateSuffix
  {
    CriminalColumns(schema, "name", "test; DROP TABLE users");
    assert Join(["`name` TEXT, "], "") == "`name` TEXT, ";
    CreateTableTextOf(name, schema, ["`name` TEXT, "], "`name` TEXT, ");
  }

  lemma DogEscapedNames(schema: Schema, b: string, n: string, w: string)
    requires b == "breed" && n == "name" && w == "weight"
    requires schema == map[n := "string", b := "string", w := "int"]
    ensures multiset(EscapedNames(schema.Keys)) == multiset([b, n, w])
  {
    DogFieldsPlain(b, n, w);
    assert (set k | k in [b, n, w]) == schema.Keys;
    EscapedNamesPlain(schema.Keys);
    DistinctMultiset([b, n, w]);
  }

  lemma EscapedNamesPlain(keys: set<string>)
    requires forall k :: k in keys ==> Escaped(k) == k
    ensures EscapedNames(keys) == keys
  {
  }

  lemma {:induction false} DistinctMultiset(s: seq<string>)
    requires forall i, j :: 0 <= i < j < |s| ==> s[i] != s[j]
    ensures multiset(set x | x in s) == multiset(s)
  {
    if |s| > 0 {
      var init := s[..|s| - 1];
      DistinctMultiset(init);
      assert s == init + [s[|s| - 1]];
      ElementsSnoc(s, init, s[|s| - 1]);
    }
  }

  lemma DogNamesSorted(b: string, n: string, w: string)
    requires b == "breed" && n == "name" && w == "weight"
    ensures Sorted([b, n, w])
  {
    assert LessEq(b, n) && LessEq(b, w) && LessEq(n, w);
  }

  lemma InsertDogColumns(schema: Schema, b: string, n: string, w: string)
    requires b == "breed" && n == "name" && w == "weight"
    requires schema == map[n := "string", b := "string", w := "int"]
    ensures InsertColumns(schema) == [b, n, w]
  {
    DogEscapedNames(schema, b, n, w);
    DogNamesSorted(b, n, w);
    SortForgetsOrder(Enumerate(EscapedNames(schema.Keys)), [b, n, w]);
    SortOfSorted([b, n, w]);
  }

  /** A record that supplies three columns contributes their values in column order. */
  lemma RecordArgsThree(r: Record, c1: string, c2: string, c3: string)
    requires Supplies(r, c1) && Supplies(r, c2) && Supplies(r, c3)
    ensures RecordArgs(r, [c1, c2, c3]) == [r[c1], r[c2], r[c3]]
  {
    assert [c1][..0] == [];
    assert RecordArgs(r, [c1]) == [r[c1]];
    assert [c1, c2][..1] == [c1];
    assert RecordArgs(r, [c1, c2]) == [r[c1]] + [r[c2]];
    assert [c1, c2, c3][..2] == [c1, c2];
    assert RecordArgs(r, [c1, c2, c3]) == [r[c1], r[c2]] + [r[c3]];
  }

  lemma ArgsThree(r1: Record, r2: Record, r3: Record, cols: seq<string>)
    ensures Args([r1, r2, r3], cols) == RecordArgs(r1, cols) + RecordArgs(r2, cols) + RecordArgs(r3, cols)
  {
    assert [r1][..0] == [];
    assert Args([r1], cols) == [] + RecordArgs(r1, cols);
    assert [r1, r2][..1] == [r1];
    assert Args([r1, r2], cols) == Args([r1], cols) + RecordArgs(r2, cols);
    assert [r1, r2, r3][..2] == [r1, r2];
    assert Args([r1, r2, r3], cols) == Args([r1, r2], cols) + RecordArgs(r3, cols);
  }

  lemma ThreePlaceholders()
    ensures Placeholders(3) == "(?, ?, ?)"
  {
    assert Repeat("?", 3) == ["?", "?", "?"];
  }

  lemma DogValues(p: string)
    requires p == "(?, ?, ?)"
    ensures ValuesText(3, 3) == p + ", " + p + ", " + p
  {
    ThreePlaceholders();
    var ps := Repeat(Placeholders(3), 3);
    assert ps == [p, p, p];
    assert ps[1..][1..] == ps[2..] == [p];
    assert Join(ps[1..], ", ") == p + ", " + p;
  }

  lemma DogColumnList(b: string, n: string, w: string)
    requires b == "breed" && n == "name" && w == "weight"
    ensures ColumnList([b, n, w]) == "`breed`, `name`, `weight`"
  {
    var cols, sep := [b, n, w], "`, `";
    assert Join(cols[2..], sep) == w;
    assert cols[1..][1..] == cols[2..];
    assert Join(cols[1..], sep) == n + sep + w;
    assert Join(cols, sep) == b + sep + (n + sep + w);
  }

  lemma InsertTableTextOf(name: string, schema: Schema, count: nat, columns: string, values: string)
    requires ColumnList(InsertColumns(schema)) == columns && ValuesText(|schema|, count) == values
    ensures InsertTableText(name, schema, count) == InsertPrefix + Escaped(name) + "`(" + columns + ") VALUES " + values + ";"
  {
  }

  /** The statement of the case of TestInsertTableStatement: sorted escaped columns and three groups. */
  lemma InsertTableDogRegistry(name: string, schema: Schema)
    requires name == "dog_registry"
    requires schema == map["name" := "string", "breed" := "string", "weight" := "int"]
    ensures InsertTableText(name, schema, 3) ==
      InsertPrefix + "dog_registry" + "`(" + "`breed`, `name`, `weight`" + ") VALUES " +
      ("(?, ?, ?)" + ", " + "(?, ?, ?)" + ", " + "(?, ?, ?)") + ";"
  {
    PlainWord(name);
    DogInsertText(name, schema);
  }

  /** The dog registry insert statement for any table name that escaping leaves unchanged. */
  lemma DogInsertText(name: string, schema: Schema)
    requires Escaped(name) == name
    requires schema == map["name" := "string", "breed" := "string", "weight" := "int"]
    ensures InsertTableText(name, schema, 3) ==
      InsertPrefix + name + "`(" + "`breed`, `name`, `weight`" + ") VALUES " +
      ("(?, ?, ?)" + ", " + "(?, ?, ?)" + ", " + "(?, ?, ?)") + ";"
  {
    var p := "(?, ?, ?)";
    DogInsertColumnList(schema);
    DogInsertValues(schema, p);
    InsertTableTextOf(name, schema, 3, "`breed`, `name`, `weight`", p + ", " + p + ", " + p);
  }

  lemma DogInsertColumnList(schema: Schema)
    requires schema == map["name" := "string", "breed" := "string", "weight" := "int"]
    ensures ColumnList(InsertColumns(schema)) == "`breed`, `name`, `weight`"
  {
    InsertDogColumns(schema, "breed", "name", "weight");
    DogColumnList("breed", "name", "weight");
  }

  lemma DogInsertValues(schema: Schema, p: string)
    requires schema == map["name" := "string", "breed" := "string", "weight" := "int"]
    requires p == "(?, ?, ?)"
    ensures ValuesText(|schema|, 3) == p + ", " + p + ", " + p
  {
    DogValues(p);
  }

  lemma DogRecordArgs(r: Record, x: string, y: string, z: real)
    requires r == map["name" := Str(y), "breed" := Str(x), "weight" := Number(z)]
    ensures RecordArgs(r, ["breed", "name", "weight"]) == [Str(x), Str(y), Number(z)]
  {
    RecordArgsThree(r, "breed", "name", "weight");
  }

  /** The arguments of the case of TestInsertTableStatement: record by record, in column order. */
  lemma InsertArgsDogRegistry(schema: Schema, records: seq<Record>)
    requires schema == map["name" := "string", "breed" := "string", "weight" := "int"]
    requires records == [
      map["name" := Str("max"), "breed" := Str("chihuahua"), "weight" := Number(3.0)],
      map["name" := Str("spot"), "breed" := Str("husky"), "weight" := Number(130.0)],
      map["name" := Str("spike"), "breed" := Str("bulldog"), "weight" := Number(80.0)]]
    ensures Args(records, InsertColumns(schema)) == [
      Str("chihuahua"), Str("max"), Number(3.0),
      Str("husky"), Str("spot"), Number(130.0),
      Str("bulldog"), Str("spike"), Number(80.0)]
  {
    InsertDogColumns(schema, "breed", "name", "weight");
    DogArgs(records[0], records[1], records[2]);
    assert records == [records[0], records[1], records[2]];
  }

  lemma DogArgs(r1: Record, r2: Record, r3: Record)
    requires r1 == map["name" := Str("max"), "breed" := Str("chihuahua"), "weight" := Number(3.0)]
    requires r2 == map["name" := Str("spot"), "breed" := Str("husky"), "weight" := Number(130.0)]
    requires r3 == map["name" := Str("spike"), "breed" := Str("bulldog"), "weight" := Number(80.0)]
    ensures Args([r1, r2, r3], ["breed", "name", "weight"]) == [
      Str("chihuahua"), Str("max"), Number(3.0),
      Str("husky"), Str("spot"), Number(130.0),
      Str("bulldog"), Str("spike"), Number(80.0)]
  {
    ArgsThree(r1, r2, r3, ["breed", "name", "weight"]);
    DogRecordArgs(r1, "chihuahua", "max", 3.0);
    DogRecordArgs(r2, "husky", "spot", 130.0);
    DogRecordArgs(r3, "bulldog", "spike", 80.0);
  }
}
