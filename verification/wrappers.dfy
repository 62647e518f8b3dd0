/** Failure-carrying datatypes shared by every handler of the model. */
module Wrappers {

  /** A value that may be absent: a missing request field, a null document field. */
  datatype Option<+T> = None | Some(value: T) {
    function GetOr(default: T): T {
      match this
      case Some(v) => v
      case None => default
    }
  }

  /** The outcome of an operation that can throw: `Err` carries the thrown message. */
  datatype Result<+T> = Ok(value: T) | Err(msg: string)

  /** An HTTP reply: a success status with its body, or an error status with its message. */
  datatype Reply<+T> = Success(status: nat, body: T) | Failure(status: nat, error: string)

  /** JavaScript truthiness of an optional string field: present and non-empty. */
  predicate Truthy(s: Option<string>) {
    s.Some? && s.value != ""
  }

  /** `s || fallback` on an optional string field. */
  function OrElse(s: Option<string>, fallback: string): (r: string)
    ensures Truthy(s) ==> r == s.value
    ensures !Truthy(s) ==> r == fallback
  {
    if Truthy(s) then s.value else fallback
  }
}
