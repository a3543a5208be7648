/**
 * The error discipline of the service package: a `retry.RetriableError`
 * tells the retry loop to try again, every other error is final.
 */
module Errors {

  datatype Error = Retriable(msg: string) | Fatal(msg: string)
  {
    /** The text of the error, whatever its kind. */
    function Message(): string
    {
      match this
      case Retriable(m) => m
      case Fatal(m) => m
    }
  }

  /**
   * `errors.Wrap(cause, prefix)`: a new error whose text is "prefix: cause".
   * The wrapper is not a `RetriableError` itself, so the result is final.
   */
  function Wrap(cause: Error, prefix: string): Error
  {
    Fatal(prefix + ": " + cause.Message())
  }
}
