/**
 * Small value types shared by every module of the model: optional values,
 * results of operations that can throw, and the untyped JSON values that a
 * request body or a schema parser receives.
 */
module Base {

  /** A value that may be absent (JavaScript `undefined`). */
  datatype Option<+T> = None | Some(value: T) {
    function GetOr(default: T): T {
      match this
      case Some(v) => v
      case None => default
    }
  }

  /** The outcome of a call that either returns a value or throws `error`. */
  datatype Result<+T, +E> = Ok(value: T) | Err(error: E)

  /** The outcome of a call that returns nothing or throws `error`. */
  datatype Outcome<+E> = Pass | Fail(error: E)

  /**
   * An untyped JSON value, as far as the validators in this model look at it:
   * they only ever ask "is it a string?" and "is it a boolean?".
   * `JOther` stands for numbers, `null`, arrays and nested objects.
   */
  datatype Json = JString(s: string) | JBool(b: bool) | JOther

  /** An untyped request payload: a JSON object, or any value that is not one. */
  datatype Payload = Object(fields: map<string, Json>) | NotAnObject
}
