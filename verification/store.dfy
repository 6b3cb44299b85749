/**
 * What a database call hands back to the code that awaits it. The database
 * itself is not modelled: each call's answer is a parameter of the operation
 * that makes the call.
 */
module Store {
  import opened Envelope

  /**
   * A rejected call: the thrown value and, for a document validation failure,
   * the `message` of each entry of its `errors` record, in order.
   */
  datatype Failure = Failure(thrown: Thrown, fieldMessages: seq<string>)
  {
    /** `error.name === 'ValidationError'`, read off an `Error`. */
    predicate IsValidationFailure() {
      thrown.IsError() && thrown.Name() == "ValidationError"
    }
  }

  /** A call that looks one record up: it is there, it is not, or the call failed. */
  datatype Lookup<T> = Found(value: T) | Missing | Failed(failure: Failure)

  /** A call that always answers with a value unless it fails. */
  datatype Query<T> = Answered(value: T) | QueryFailed(failure: Failure)
}
