# databalancer, modelled in Dafny

databalancer takes batches of JSON log events over HTTP and stores them in MySQL. Each batch comes with a family name and a schema mapping field names to the type tags `"string"` and `"int"`. This project models the storage core of the Go repository:

- **Statement builder** (`pkg/mysql/statements.go`):
  - `Escape`, the MySQL-style byte escaper.
  - `CreateTableStatement`, which turns a table name and a schema into one `CREATE TABLE IF NOT EXISTS` statement. Column clauses get sorted; unsupported tags are dropped.
  - `InsertTableStatement`, which turns a name, a schema and records into a multi-row `INSERT ... VALUES (?, ...), ...` statement plus its positional arguments.
- **Table cache** (`pkg/mysql/mysql.go`):
  - `Client.FindOrCreateTable`, which keeps a family-to-table cache in front of the `raw_logs` DDL.
  - `Table.Insert`, which appends one `raw_logs` row.
- **Ingest service** (`pkg/logs/service.go`):
  - `CreateService`.
  - `Service.Ingest`, which looks the table up once, then checks each event against the schema and inserts it before looking at the next.
- **Single-table ingest path** (`main.go`):
  - `IngestLog`, the same per-event loop, writing through `NewRawLog`.
  - `NewRawLog`, which inserts a row and sets the `RawLog`'s id from the last insert id.

Modules, in dependency order:

| file | module | contents |
|---|---|---|
| `text.dfy` | `Text` | Byte-order comparison, a verified insertion sort and the uniqueness of sorted permutations, `strings.Join`, and counting. |
| `escaping.dfy` | `Escaping` | `Escape` as a loop proved equal to the reference `Escaped`. Properties of `Escaped`, including an inverse `Unescape`. |
| `data.dfy` | `Data` | Decoded JSON values, records, schemas and the error kinds. |
| `database.dfy` | `Sql` | The database handle, as a class. It records executed statements and `raw_logs` rows; each step may fail. |
| `statements.dfy` | `Statements` | The two statement builders as imperative methods, proved equal to ghost reference texts, plus the properties of those texts. |
| `statement_cases.dfy` | `StatementCases` | The cases of `statements_test.go`, stated about the reference texts. |
| `mysql.dfy` | `MySql` | `Table` and `Client` as classes. The nil-cache finding. |
| `logs.dfy` | `Logs` | Field and event checks, the prefix-of-events specification, `Service` and its ingest loop. |
| `rawlogs.dfy` | `RawLogs` | `RawLog`, `NewRawLog` and `IngestLog`. |
| `ingest_cases.dfy` | `IngestCases` | The cases of `service_test.go`, stated about the event checks. |

How Go's behaviour is represented:

- **Map iteration order.** Go does not specify it. The loops that range over a map pick the next key nondeterministically (`:|`), so every proof holds for every order. The statement texts depend on the map alone because of `Text.SortedUnique`: two sorted sequences with the same elements are equal.
- **Strings.** Go strings are bytes; here they are `seq<char>`. Every byte `Escape` rewrites is ASCII, and UTF-8 never places an ASCII byte inside a multi-byte sequence. Code-point order also agrees with UTF-8 byte order. So per-character escaping and sorting agree with Go's per-byte versions on valid UTF-8.
- **The database.** `Sql.Database` is the part of `*sql.DB` the core uses:
  - Prepare, exec and last-insert-id may each fail, and the model chooses freely which.
  - On success, the executed statement is recorded and an insert adds the next numbered row.
- **The ingest loops.** Their result is tied to `Logs.FirstRejected`, the index of the first event that fails its checks or cannot be marshalled. Exactly the events before the loop stopped are written: as `raw_logs` rows, in order, each carrying its marshalled form. Exactly one more row is written when only the last insert id failed.

## Model

| member | source | states |
|---|---|---|
| Text.LessEqTotal | pkg/mysql/statements.go:26 | Any two strings are ordered one way or the other under the byte order `sort.Strings` uses. |
| Text.LessEqAntisymmetric | pkg/mysql/statements.go:26 | Two strings ordered both ways are equal. |
| Text.LessEqTransitive | pkg/mysql/statements.go:26 | The byte order is transitive. |
| Text.InsertSorted | pkg/mysql/statements.go:26 | Inserting into a sorted sequence keeps it sorted and adds exactly that one element. |
| Text.Sort | pkg/mysql/statements.go:26 | The result is sorted and is a permutation of the input. |
| Text.SortedUnique | pkg/mysql/statements.go:26 | Two sorted sequences with the same multiset of elements are equal, so the sorted output does not depend on input order. |
| Text.SortForgetsOrder | pkg/mysql/statements.go:14-26 | Permutations of the same elements sort to the same sequence. |
| Text.SortOfSorted | pkg/mysql/statements.go:26 | Sorting an already sorted sequence changes nothing. |
| Text.JoinRepeatCount | pkg/mysql/statements.go:83 | Joining n copies of a piece with a separator free of c contains n times the piece's count of c. |
| Escaping.Escape | pkg/mysql/statements.go:100-139 | The byte loop returns exactly the reference escaping `Escaped` of its input. |
| Escaping.Escaped | pkg/mysql/statements.go:101 | The output is at least as long as the input and at most twice as long. |
| Escaping.EscapeTable | pkg/mysql/statements.go:108-135 | NUL, newline, carriage return, backslash, single quote, double quote and Ctrl-Z become a backslash plus `0`, `n`, `r`, `\`, `'`, `"` or `Z`. Every other byte is copied; backtick and `;` are not special. |
| Escaping.EscapedConcat | pkg/mysql/statements.go:103-136 | Escaping works byte by byte: escaping a concatenation concatenates the escapings. |
| Escaping.EscapedLength | pkg/mysql/statements.go:101-138 | Output length equals input length plus the number of special bytes. |
| Escaping.PlainTextUnchanged | pkg/mysql/statements.go:133-135 | Text without special bytes is returned unchanged. |
| Escaping.QuotesFollowBackslash | pkg/mysql/statements.go:121-132 | Every `'` and `"` in the output is immediately preceded by a backslash. |
| Escaping.CountKept | pkg/mysql/statements.go:121-135 | The output has as many `'`, `"`, backticks and `;` as the input. |
| Escaping.UnescapeEscaped | pkg/mysql/statements.go:100-139 | Escaping is undone by `Unescape`, which reads a backslash plus letter back as the original byte. |
| Escaping.EscapedInjective | pkg/mysql/statements.go:100-139 | Different inputs escape to different outputs. |
| Statements.TableFields | pkg/mysql/statements.go:13-24 | In any map order, the loop collects exactly one clause per field whose tag is supported: `` `f` TEXT, `` for `"string"`, `` `f` INT, `` for `"int"`. |
| Statements.CreateTableStatement | pkg/mysql/statements.go:11-39 | The statement is the fixed frame around the escaped name and the sorted clauses, for every map iteration order. |
| Statements.ClauseInjective | pkg/mysql/statements.go:18-21 | Two clauses are equal only for the same field and the same column type. |
| Statements.ClauseInColumns | pkg/mysql/statements.go:16-26 | A clause appears in the statement's column list iff its field is in the schema with the tag producing that clause. |
| Statements.ClauseSetMember | pkg/mysql/statements.go:16-23 | The same membership characterisation for the set of clauses the loop produces. |
| Statements.ColumnsFromSchema | pkg/mysql/statements.go:16-26 | Every column clause comes from some schema field with a supported tag. |
| Statements.ColumnsMembers | pkg/mysql/statements.go:26 | Sorting keeps exactly the clauses the loop produced. |
| Statements.UnsupportedTagDropped | pkg/mysql/statements.go:16-23 | A field with an unsupported tag yields the same statement as leaving the field out. |
| Statements.ColumnsAre | pkg/mysql/statements.go:26 | Any sorted arrangement of the produced clauses is the statement's column list. |
| Statements.CreateTableEmptySchema | pkg/mysql/statements.go:31-36 | An empty schema yields exactly the frame with the escaped table name. |
| Statements.ClausesOfKeys | pkg/mysql/statements.go:14-24 | Visiting the keys in any duplicate-free order appends the same multiset of clauses. |
| Statements.CreateTableAnyOrder | pkg/mysql/statements.go:14-36 | Building the statement from the clauses in any visiting order and sorting gives the same statement. |
| Statements.FieldNames | pkg/mysql/statements.go:51-56 | In any map order, the loop collects the escaped name of every schema key, whatever its tag, and one `?` per key. |
| Statements.InsertTableStatement | pkg/mysql/statements.go:46-94 | The statement is the escaped name, the sorted escaped column list and one placeholder group per record. The arguments are the records' non-nil values, record by record and column by column. |
| Statements.RecordsLoop | pkg/mysql/statements.go:70-81 | The nested loop produces one placeholder group per record and exactly the argument list `Args`. |
| Statements.AppendValues | pkg/mysql/statements.go:74-80 | The inner loop appends the record's non-nil values under the column names, in column order. |
| Statements.EscapedNamesCount | pkg/mysql/statements.go:51-56 | Distinct keys have distinct escaped names, so there is one column per schema key. |
| Statements.InsertColumnsMembers | pkg/mysql/statements.go:51-61 | The column list holds exactly the escaped schema keys, one per key, in sorted order. |
| Statements.InsertNoRecords | pkg/mysql/statements.go:83-91 | With no records the statement ends in ` VALUES ;` and there are no arguments. |
| Statements.RecordArgsLength | pkg/mysql/statements.go:74-80 | A record contributes at most one argument per column, all of them iff it supplies a non-nil value for every column. |
| Statements.ArgsLength | pkg/mysql/statements.go:70-81 | There are at most records × columns arguments, with equality iff every record supplies every column. |
| Statements.PlaceholdersCount | pkg/mysql/statements.go:64 | A placeholder group for n fields holds n `?`. |
| Statements.ValuesCount | pkg/mysql/statements.go:83 | The `VALUES` part holds records × width `?`. |
| Statements.ArgsMatchPlaceholders | pkg/mysql/statements.go:64-81 | Arguments never outnumber placeholders. They match iff every record supplies a non-nil value under every escaped key; a nil value makes the counts misalign. |
| Statements.InsertColumnsSingle | pkg/mysql/statements.go:51-58 | A one-key schema has the one column named by the escaped key. |
| Statements.EscapedNameLookup | pkg/mysql/statements.go:76-77 | A record keyed by the raw name of a field that escaping changes contributes no argument, because the lookup uses the escaped name. |
| Statements.EscapedNameRead | pkg/mysql/statements.go:76-78 | A non-nil value stored under the escaped name is passed as the argument. |
| StatementCases.DogClauseTexts | pkg/mysql/statements_test.go:28-29 | The fields `breed`, `name` and `weight` give the clauses `` `breed` TEXT, ``, `` `name` TEXT, `` and `` `weight` INT, ``. |
| StatementCases.DogColumns | pkg/mysql/statements_test.go:28-29 | The dog schema's columns are those three clauses, in that order. |
| StatementCases.CreateTableDogRegistry | pkg/mysql/statements_test.go:25-30 | The dog registry CREATE statement is the expected text, with the columns ordered breed, name, weight. |
| StatementCases.CriminalColumns | pkg/mysql/statements_test.go:41-42 | A field whose tag is the injection text produces no column; only `` `name` TEXT, `` remains. |
| StatementCases.CreateTableCriminalRegistry | pkg/mysql/statements_test.go:38-43 | The criminal registry CREATE statement is the expected text, with only the `name` column. |
| StatementCases.InsertDogColumns | pkg/mysql/statements_test.go:68-74 | The dog schema's insert columns are `breed`, `name`, `weight`. |
| StatementCases.ThreePlaceholders | pkg/mysql/statements_test.go:74 | A group for three fields is `(?, ?, ?)`. |
| StatementCases.InsertTableDogRegistry | pkg/mysql/statements_test.go:65-74 | The dog registry INSERT statement for three records is the expected text. |
| StatementCases.InsertArgsDogRegistry | pkg/mysql/statements_test.go:65-79 | The arguments for the three dogs are breed, name and weight of each, in record order. |
| StatementCases.DogArgs | pkg/mysql/statements_test.go:70-79 | The same argument list, for the three dog records over the sorted columns. |
| StatementCases.RecordArgsThree | pkg/mysql/statements.go:74-80 | A record supplying all three columns contributes its three values in column order. |
| StatementCases.ArgsThree | pkg/mysql/statements.go:70-81 | Three records contribute their arguments one record after another. |
| MySql.Table.constructor | pkg/mysql/mysql.go:75 | A table holds the client's database, the family and the schema it was built with. |
| MySql.Table.Insert | pkg/mysql/mysql.go:84-101 | One `(family, log)` insert. It succeeds iff prepare, exec and last insert id all succeed. A failed prepare or exec changes nothing; a failed last insert id is reported after the row is written. |
| MySql.Client.constructor | pkg/mysql/mysql.go:47 | A new client starts with an empty, not nil, cache (see Findings). |
| MySql.Client.FindOrCreateTable | pkg/mysql/mysql.go:52-81 | A hit returns the cached table and touches nothing. A miss runs the `raw_logs` DDL: on failure it returns the wrapped error and leaves the cache unchanged; on success it caches a new table for family and schema under `family` and leaves the other entries unchanged. |
| MySql.LookupTwice | pkg/mysql/mysql.go:53-75 | A second lookup of a family returns the first table, with the schema of its first creation, whatever schema is passed. |
| MySql.GoStoreThenLookup | pkg/mysql/mysql.go:53-78 | After storing into a made map, the stored key reads back its value and every other key reads as before. |
| MySql.GoLookupNil | pkg/mysql/mysql.go:53 | A nil map finds no key, so every first lookup on it misses. |
| MySql.FirstStorePanicsAsWritten | pkg/mysql/mysql.go:47-78 | With the cache `Create` leaves, the first lookup misses and the store after a successful DDL panics. |
| MySql.FirstStoreCorrected | pkg/mysql/mysql.go:78 | With an empty made cache, the first store succeeds and the family is then found. |
| Logs.CheckField | pkg/logs/service.go:52-67 | A field passes iff it is declared `"string"` and holds a string, or declared `"int"` and holds a number. An undeclared field gives `Undeclared`. An unsupported tag gives `Unsupported` carrying that tag. A supported tag with a value of the wrong kind gives `KindMismatch` with that tag. |
| Logs.ValidateEvent | pkg/logs/service.go:51-68 | In any map order, the event passes iff every field passes. Otherwise the error is that of some failing field of the event, and always a field error. |
| Logs.ExtraSchemaEntryIgnored | pkg/logs/service.go:51-52 | A schema entry for a field the event does not have, with any tag, does not change whether the event passes. |
| Logs.FirstRejected | pkg/logs/service.go:49-79 | Every event before the returned index is accepted (valid and marshallable). The event at the index, if any, is not. |
| Logs.LoggedAt | pkg/logs/service.go:70-78 | The i-th logged row is numbered next after the earlier rows, carries the family and the i-th event's marshalled form. The i-th logged statement is the insert of that row. |
| Logs.LoggedStep | pkg/logs/service.go:76 | Logging one more event appends exactly its row and its insert. |
| Logs.Service.CreateService | pkg/logs/service.go:31-33 | The service is backed by the given client. |
| Logs.Service.Ingest | pkg/logs/service.go:38-82 | The table lookup comes first: if it fails, the wrapped error returns with no insert and the cache unchanged. Otherwise the events are handled in order and stop at the first error. Exactly the events before that point are written, one row each with its marshalled form. The function returns no error iff every event was handled (the loop reached the end), and otherwise the error is the failing event's check, marshal or insert error. A failed last insert id leaves exactly that event's row written. A cached family leaves the cache unchanged; a successful miss adds only the entry for `family`, with the given schema. |
| Logs.IngestEvents | pkg/logs/service.go:49-81 | The event loop writes exactly the event prefix up to the stop point, in order, with no error iff it reaches the end. If the stop is a failed last insert id, that event's row is written too. |
| Logs.IngestEvent | pkg/logs/service.go:50-78 | One event: a rejected event returns its rejection error and writes nothing. An accepted event is inserted as the next row; a failed prepare or exec writes nothing. |
| Logs.IngestRejected | pkg/logs/service.go:49-79 | If some event is not accepted, `Ingest` returns an error: the lookup error, an insert error for an earlier event, or that event's rejection. If it is the first event, no row is written. |
| Logs.IngestAccepted | pkg/logs/service.go:38-82 | If every event is accepted, `Ingest` fails only with a lookup or insert error, and on success every event is written in order. |
| RawLogs.RawLog.constructor | main.go:195-198 | A new `RawLog` holds the family and the log, with id 0. |
| RawLogs.NewRawLog | main.go:80-99 | On success the row `(family, log)` is added as the next row and the `RawLog`'s id is set to its number. A failed prepare or exec changes nothing and leaves the id alone; a failed last insert id leaves the row written and the id unset. |
| RawLogs.IngestLog | main.go:163-212 | Events are handled in order and stop at the first error. Exactly the events before that point become `raw_logs` rows with `body.family` and their marshalled form. The function returns no error iff all events were handled. Without a database handle, nothing is written, and the first event gives its rejection error or, if accepted, the missing-database error. A failed last insert id leaves exactly that event's row written. |
| RawLogs.IngestLogWithoutDatabase | main.go:169-203 | Without a handle, an empty batch succeeds. Otherwise the first event fails with its rejection error or, if accepted, with the missing-database error. |
| RawLogs.IngestLogInto | main.go:169-211 | With a handle, the loop writes exactly the event prefix up to the stop point and succeeds iff it reaches the end. If the stop is a failed last insert id, that event's row is written too. |
| RawLogs.IngestLogEvent | main.go:170-208 | One event: rejection as in `Ingest`; the handle is fetched only after the event passed; an accepted event is inserted as the next row. |
| IngestCases.DogEventValid | pkg/logs/service_test.go:56-61 | A dog with string name and breed and a numeric weight passes the dog schema. |
| IngestCases.AllAccepted | pkg/logs/service.go:49-79 | If every event is accepted, no event is rejected. |
| IngestCases.DogRegistryAccepted | pkg/logs/service_test.go:53-62 | All three dogs are accepted under the dog schema. |
| IngestCases.DogRegistryWithAgeAccepted | pkg/logs/service_test.go:63-72 | The unused `age` schema entry does not change that. |
| IngestCases.UnknownTagRejected | pkg/logs/service_test.go:82-91 | The `"float"` tag makes the `name` field fail as unsupported, so the first event is rejected. |
| IngestCases.MismatchedSchemaRejected | pkg/logs/service_test.go:92-101 | `weight` is undeclared, so the first event is rejected. |
| IngestCases.ExtraFieldRejected | pkg/logs/service_test.go:102-111 | The event's `age` field is undeclared, so the first event is rejected. |
| IngestCases.IngestDogRegistry | pkg/logs/service_test.go:53-62 | `Ingest` on the first success case fails only with a lookup or insert error. |
| IngestCases.IngestDogRegistryWithAge | pkg/logs/service_test.go:63-72 | The same for the schema with the unused `age` entry. |
| IngestCases.IngestUnknownTag | pkg/logs/service_test.go:82-91 | `Ingest` on the `"float"` schema returns an error and writes no row. |
| IngestCases.IngestMismatchedSchema | pkg/logs/service_test.go:92-101 | `Ingest` on the schema without `weight` returns an error and writes no row. |
| IngestCases.IngestExtraField | pkg/logs/service_test.go:102-111 | `Ingest` on the events with an undeclared `age` field returns an error and writes no row. |

## Left out

- Logging (`log.Printf`) is dropped. It has no effect on results.
- JSON:
  - Decoding the request body is left out; `IngestLogBody` is taken as already decoded.
  - `json.Marshal` is a function parameter that may fail. Marshalling output is not modelled.
- The type assertions `value.(string)` and `value.(float64)` (pkg/logs/service.go:62, 64; main.go:182, 184) panic in Go when the value has the wrong kind. Here they return a `KindMismatch` error.
- The truncation `int(value.(float64))` only feeds a log message and is not modelled.
- Invalid UTF-8 is not modelled. Strings are sequences of characters, and the byte-level agreement holds only for valid UTF-8.
- Error messages are reduced to error kinds plus the `errors.Wrap` context strings of pkg/mysql/mysql.go. The `errors.Wrapf` context of pkg/logs/service.go:41 is kept, with the family filled in.
- The database driver, network and MySQL server:
  - They are the environment class `Sql.Database`. Its prepare, exec and last-insert-id outcomes are chosen nondeterministically.
  - Concurrency between requests is not modelled, so neither is the duplicate DDL of two concurrent cache misses.
- `mysql.Create`'s `sql.Open` and `Ping` are I/O and are left out. The constructor models only the value it returns.
- The DDL strings (pkg/mysql/mysql.go:57-64, main.go:38-57) are the constant `CreateRawLogs`. Their SQL text is not modelled.
- `RawLog.Create`, `RawLog.Drop` and `RawLog.Name`, the HTTP `handler`, `ServeHTTP`, `IngestLogHandler` and `main` (main.go) are process wiring and HTTP.
- pkg/server/http.go and cmd/databalancer/main.go are routing and flags.
- pkg/mysql/client.go is a plain DB wrapper that redeclares `Client`.
- pkg/mysql/json.go is row scanning with float parsing.
- pkg/db/table.go is an interface only.
- Query restriction and schema description (`Query`, `QueryJSON`, `DescribeDatabase`) have no implementation in the source shown and rest on an external SQL parser.
- The `DBClient` interface of pkg/logs/service.go:12-14 is replaced by the concrete `MySql.Client` it is implemented by. The test file's mock is not modelled.
- RawLogs.IngestLog: an empty batch touching nothing is not stated as a separate clause. It follows from the stated ones: with no events, no event is written and the stop index is 0, so the rows and executed statements are unchanged.
- IngestCases.IngestDogRegistry and IngestCases.IngestDogRegistryWithAge do not promise success. The test's mock database never fails, but `Sql.Database` may, so only lookup and insert errors are ruled in. They also require that marshalling succeeds, as `json.Marshal` does for maps of strings and numbers.
- Behaviour kept as the code has it:
  - `FindOrCreateTable` runs the fixed `raw_logs` DDL, not `CreateTableStatement`.
  - `Ingest` looks the table up before any validation.
  - Validation is per event, not all-or-nothing: a failure at event k leaves events 0..k-1 written.
  - Each event is one `raw_logs` insert, not one multi-row insert.

## Findings

| source | as written | input that shows it | evidently intended | confidence | as-written member | corrected member |
|---|---|---|---|---|---|---|
| pkg/mysql/mysql.go:47 | `Create` returns `&Client{DB: db}`, leaving the `tables` map nil. The store `c.tables[family] = table` at line 78 then assigns into a nil map. | A first `FindOrCreateTable` call on a new client whose DDL succeeds: the lookup misses, and the store panics. | The cache starts as an empty made map, so the first table is stored and found on the next call. | not executed | MySql.FirstStorePanicsAsWritten | MySql.FirstStoreCorrected |
