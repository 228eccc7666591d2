/**
 * The values the ingest paths work on: decoded JSON values, one event (a
 * record), a schema, and the errors the core returns.
 */
module Data {

  datatype Option<+T> = None | Some(value: T)

  /**
   * A value as Go's JSON decoder leaves it in an `interface{}`: nil, a bool,
   * a float64 (kept here as a real; nothing computes with it), a string, an
   * array or an object.
   */
  datatype Value =
    | Null
    | Bool(b: bool)
    | Number(n: real)
    | Str(s: string)
    | Array(items: seq<Value>)
    | Object(fields: map<string, Value>)

  /** One event (`logs.Raw`, a record of the statement builder): field name to value. */
  type Record = map<string, Value>

  /** Field name to declared type tag (`logs.Schema`). */
  type Schema = map<string, string>

  /** The two type tags the core recognises. */
  predicate SupportedTag(tag: string)
  {
    tag == "string" || tag == "int"
  }

  /** The errors the core returns; `Wrapped` is `errors.Wrap` with its context text. */
  datatype Error =
    | PrepareFailed                               // the driver refused to prepare a statement
    | ExecFailed                                  // the driver failed to execute a statement
    | LastInsertIdFailed                          // the result had no last insert id
    | Wrapped(context: string, cause: Error)
    | Undeclared(field: string)                   // an event field missing from the schema
    | Unsupported(field: string, tag: string)     // an event field with a tag other than string/int
    | KindMismatch(field: string, tag: string)    // the Go type assertion on the value would panic
    | MarshalFailed                               // json.Marshal returned an error
    | NoDatabase                                  // no database handle in the request context
  {
    /** The three outcomes of checking one event field. */
    predicate IsFieldError()
    {
      Undeclared? || Unsupported? || KindMismatch?
    }
  }
}
