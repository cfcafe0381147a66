/** Option and Result, the two failure-carrying values the model needs. */
module Wrappers {

  /** A value that may be absent (JavaScript `null` or `undefined`). */
  datatype Option<+T> = None | Some(value: T)

  /** The outcome of a call that may throw or be rejected. */
  datatype Result<+R, +E> = Success(value: R) | Failure(error: E)

  /** JavaScript truthiness of an optional string: present and not empty. */
  predicate Truthy(s: Option<string>) {
    s.Some? && s.value != ""
  }

  /** `s || ''` for an optional string. */
  function OrEmpty(s: Option<string>): (r: string)
    ensures Truthy(s) ==> r == s.value
    ensures !Truthy(s) ==> r == ""
  {
    if s.Some? then s.value else ""
  }
}
