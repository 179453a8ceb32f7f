/** Values shared by every part of the model: optional values and JavaScript
    truthiness of optional strings. */
module Common {

  /** An optional value: a JavaScript `undefined`/`null` or a present value. */
  datatype Option<+T> = None | Some(value: T) {

    /** The present value, or `default` when absent. */
    function GetOr(default: T): T {
      match this
      case Some(v) => v
      case None => default
    }
  }

  /** JavaScript truthiness of a possibly absent string: present and non-empty. */
  predicate Truthy(s: Option<string>) {
    s.Some? && s.value != ""
  }

  /** The JavaScript expression `s || fallback` for a possibly absent string. */
  function OrElse(s: Option<string>, fallback: string): (r: string)
    ensures Truthy(s) ==> r == s.value
    ensures !Truthy(s) ==> r == fallback
  {
    if Truthy(s) then s.value else fallback
  }

  /** The outcome of a storage operation that can be refused. */
  datatype Result<+T> = Success(value: T) | Failure(error: string)

  /** How an awaited call ends in the client: it resolves with a value or
      throws an error carrying a message. */
  datatype Outcome<+T> = Returned(value: T) | Threw(message: string)

  /** `error.message || fallback` for a thrown error. */
  function MessageOr(message: string, fallback: string): (r: string)
    ensures message != "" ==> r == message
    ensures message == "" ==> r == fallback
  {
    if message != "" then message else fallback
  }
}
