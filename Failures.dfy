/** What a `catch (err)` block of the front end sees: an axios error that
    carries the server's response, or a plain `Error` that only has a message. */
module Failures {
  import opened Wrappers

  /** `err.response`: the HTTP status and the `message` field of the JSON body
      (None when the body has no such field). */
  datatype ErrorResponse = ErrorResponse(status: int, message: Option<string>)

  /** A caught error: `response` is None for errors thrown by the front end
      itself and for network failures; `message` is `err.message`. */
  datatype Failure = Failure(response: Option<ErrorResponse>, message: string)

  /** JavaScript truthiness of an optional string: present and non-empty. */
  predicate Truthy(s: Option<string>) {
    s.Some? && s.value != ""
  }

  /** `new Error(message)` thrown by the front end's own code. */
  function Thrown(message: string): Failure {
    Failure(None, message)
  }

  /** The URIError that `decodeURIComponent` throws on a malformed escape. */
  const UriMalformed: Failure := Thrown("URI malformed")

  /** How a submit handler ended: refused by its guard before any request,
      completed, or failed with the error its catch block received. */
  datatype SubmitOutcome = Refused | Succeeded | Failed(failure: Failure)
}
