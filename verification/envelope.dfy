/**
 * What the framework hands to an `onError` hook — the thrown value, the
 * framework's error code and the request — and the response the hook builds.
 * Shared by the three error normalisers of the repository.
 */
module Envelope {
  import opened Base
  import opened Errors

  /**
   * A thrown value: an instance of one of the application error classes, any
   * other `Error` (described by its `name` and `message`), or a value that is
   * not an `Error` at all, known by its `String(value)` text. `stack` is the
   * captured trace, kept opaque.
   */
  datatype Thrown =
    | App(err: AppError, stack: Option<string>)
    | Native(name: string, message: string, stack: Option<string>)
    | NonError(text: string)
  {
    /** `error instanceof Error`. */
    predicate IsError() {
      !NonError?
    }

    /** `error.message`, for an `Error`. */
    function Message(): string
      requires IsError()
    {
      match this
      case App(e, _) => e.message
      case Native(_, m, _) => m
    }

    /** `error.name`, for an `Error`. */
    function Name(): string
      requires IsError()
    {
      match this
      case App(e, _) => e.Name()
      case Native(n, _, _) => n
    }

    /** `error instanceof Error ? error.message : String(error)`. */
    function Description(): string {
      match this
      case App(e, _) => e.message
      case Native(_, m, _) => m
      case NonError(t) => t
    }

    /** `error.stack`, for an `Error`. */
    function Stack(): Option<string>
      requires IsError()
    {
      match this
      case App(_, s) => s
      case Native(_, _, s) => s
    }
  }

  /** The request fields a handler reports: its path name and method. */
  datatype Request = Request(path: string, httpMethod: string)

  /** A `details` value in a response: a plain string or an error's details record. */
  datatype Detail = Text(text: string) | Record(record: Details)

  /**
   * A JSON error body. Keys a handler does not write are `None`; `timestamp`
   * is the response time, already formatted, passed in by the caller.
   */
  datatype Body = Body(
    success: Option<bool>,
    error: string,
    message: string,
    details: Option<Detail>,
    timestamp: string,
    path: Option<string>,
    httpMethod: Option<string>,
    suggestion: Option<string>,
    stack: Option<string>)

  /** The status a handler sets (`None` when it assigns `undefined`) and the body. */
  datatype Response = Response(status: Option<int>, body: Body)
}
