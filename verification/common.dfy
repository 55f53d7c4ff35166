/**
 * Shared value types of the credit-score pipeline model: an optional value,
 * a success-or-error result usable with `:-`, and the parsed JSON values the
 * ledger normaliser reads.
 */
module Common {

  /** A value that may be absent (Python `None`, pandas `NaN`). */
  datatype Option<+T> = None | Some(value: T)

  /** The outcome of an operation that can raise. */
  datatype Result<+T, +E> = Ok(value: T) | Err(error: E) {

    predicate IsFailure() {
      Err?
    }

    function PropagateFailure<U>(): Result<U, E>
      requires Err?
    {
      Err(error)
    }

    function Extract(): T
      requires Ok?
    {
      value
    }
  }

  /** A parsed JSON value. A key missing from an object reads as `JNull`. */
  datatype Json =
    | JNull
    | JBool(b: bool)
    | JNum(n: real)
    | JStr(s: string)
    | JArr(items: seq<Json>)
    | JObj(fields: map<string, Json>)

  /** The value stored under `key`, or `JNull` when the object has no such key. */
  function Field(fields: map<string, Json>, key: string): Json
  {
    if key in fields then fields[key] else JNull
  }
}
