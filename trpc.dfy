/**
 * The parts of tRPC and of JavaScript's exceptions the backend procedures
 * rely on: error codes, the values a `catch` can receive, and a
 * procedure's outcome.
 */
module Trpc {

  datatype ErrorCode = BadRequest | Unauthorized | Forbidden | InternalServerError

  /** A `TRPCError`: a code and a message. */
  datatype TrpcError = TrpcError(code: ErrorCode, message: string)

  /**
   * What a `catch` clause receives: a `TRPCError` (which is also an
   * `Error`), any other `Error` with its message, or a value that is not an
   * `Error` at all.
   */
  datatype Thrown = ThrownTrpc(err: TrpcError) | ThrownError(message: string) | ThrownValue

  predicate IsError(t: Thrown) {
    !t.ThrownValue?
  }

  /** `t.message` for a thrown `Error`. */
  function ErrorMessage(t: Thrown): string
    requires IsError(t)
  {
    if t.ThrownTrpc? then t.err.message else t.message
  }

  /** A mutation either resolves with its reply or rejects with a `TRPCError`. */
  datatype Outcome<+R> = Resolved(reply: R) | Rejected(err: TrpcError)
}
