/**
 * Identifiers, request parameters and the outcomes a controller handler can
 * end with.
 */
module Common {

  /** An ObjectId of a stored document (users, videos, comments, tweets, likes,
      subscriptions). ObjectIds are opaque and totally ordered. */
  type Id = nat

  /** An id exactly as it arrives in a request: either a string that the
      driver can turn into an ObjectId, or one it cannot. */
  datatype RawId = Parsed(id: Id) | Unparsable(text: string)

  /** `isValidObjectId`: the format rule itself (hexadecimal length) is kept
      abstract; a raw id is valid exactly when it denotes an ObjectId. */
  predicate IsValidObjectId(r: RawId) {
    r.Parsed?
  }

  /** A query-string value such as `userId`: absent, or present.  JavaScript
      treats a missing value and the empty string as falsy. */
  predicate IdGiven(r: Option<RawId>) {
    r.Some? && r.value != Unparsable("")
  }

  datatype Option<+T> = None | Some(value: T)

  /** `!content` for a request body field: missing or the empty string. */
  predicate Falsy(s: Option<string>) {
    s.None? || s.value == ""
  }

  /** HTTP status an `ApiError` carries. `new ApiError("Invalid videoId")`
      passes a string where the status code belongs: that is `NonNumeric`. */
  datatype Status = Code(n: nat) | NonNumeric(text: string)

  /** A handler either throws an `ApiError(status, message)` or fails with a
      JavaScript or driver exception (`Crash`) that the async wrapper forwards. */
  datatype Failure = ApiError(status: Status, message: string) | Crash(cause: string)

  datatype Result<+T> = Ok(value: T) | Fail(failure: Failure)

  /** A successful response: its status code and its human-readable text. */
  datatype Reply = Reply(code: nat, text: string)

  function BadRequest<T>(message: string): Result<T> {
    Fail(ApiError(Code(400), message))
  }

  function NotFound<T>(message: string): Result<T> {
    Fail(ApiError(Code(404), message))
  }

  /** The status code a failed result carries, if it is a numeric `ApiError`. */
  predicate FailsWith<T>(r: Result<T>, code: nat) {
    r.Fail? && r.failure.ApiError? && r.failure.status == Code(code)
  }
}
