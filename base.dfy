/** Shared vocabulary: optional values, JavaScript truthiness of request fields,
    and what a request handler ends with. */
module Base {

  /** Record identifiers (MongoDB ObjectIds), drawn from a counter by the store. */
  type Id = nat

  datatype Option<+T> = None | Some(value: T)

  /** `!field` in the handlers: an absent (undefined or null) or empty string is falsy. */
  predicate Present(field: Option<string>) {
    field.Some? && field.value != ""
  }

  /** JavaScript's `a || b` on optional strings: truthy exactly when one of the operands
      is, and then the first truthy operand. */
  function Or(a: Option<string>, b: Option<string>): (r: Option<string>)
    ensures Present(r) <==> Present(a) || Present(b)
    ensures Present(r) ==> r == if Present(a) then a else b
  {
    if Present(a) then a else b
  }

  /** How a request ends: a response with an HTTP status, an exception that escapes the
      async handler with no catch of its own (`Unhandled`; what the framework then does
      is outside the model), or no response at all because every error was swallowed. */
  datatype Outcome = Respond(status: nat) | Unhandled | NoResponse
}
