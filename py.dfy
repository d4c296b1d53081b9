/**
 * The handful of Python values and conventions the trade service relies on:
 * optional arguments, failure results, the dynamically typed values that come
 * out of a database row or a record dictionary, and Python truthiness, which
 * decides whether an optional query argument takes part in a query.
 */
module Py {

  /** `None` or a value, as Python's `Optional[...]` arguments. */
  datatype Option<+T> = None | Some(value: T)

  /** The exception a computation raises instead of returning a value. */
  datatype Error =
    /** `.lower()` called on a value that is not a `str` (for instance on `None`) */
    | NoLowerMethod(key: string)

  datatype Result<+T> = Ok(value: T) | Err(error: Error)

  /**
   * A dynamically typed value as it comes out of a database row or sits in a
   * record dictionary.  Decimals and date-times are kept as opaque text: the
   * service forwards them and never computes with them.
   */
  datatype Value =
    | Null                               // SQL NULL, Python None
    | Str(s: string)                     // VARCHAR, Python str
    | Int(i: int)                        // INT, Python int
    | Decimal(text: string)              // DECIMAL/FLOAT column, forwarded unread
    | DateTime(text: string)             // DATETIME column, forwarded unread
    | Dict(fields: map<string, Value>)   // a nested record dictionary

  /**
   * What is handed to the database driver's `execute`: a query text whose `%s`
   * placeholders the driver binds, in order, to the parameters.
   */
  datatype Query = Query(sql: string, params: seq<string>)

  /**
   * Python truthiness of an optional text argument: `None` and `""` are false,
   * every other string is true.
   */
  predicate Truthy(o: Option<string>) {
    o.Some? && o.value != ""
  }

  /**
   * `o or default` for an optional text argument: the argument itself when it
   * is truthy, otherwise the default; so it is never empty when the default
   * is not.
   */
  function OrElse(o: Option<string>, default: string): (r: string)
    ensures Truthy(o) ==> r == o.value
    ensures !Truthy(o) ==> r == default
    ensures default != "" ==> r != ""
  {
    if Truthy(o) then o.value else default
  }
}
