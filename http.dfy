/** What the route handlers return, and the JavaScript truthiness test they
    apply to the string fields of a request body. */
module Http {
  import opened Wrappers

  /** A handler's response: 200 with a JSON body, or an error status
      (400, 401 or 500 in this application) with its message. */
  datatype Reply<+T> = Ok(body: T) | Fail(status: nat, error: string)

  /** `!field` is false exactly when the field is present and not the empty string. */
  predicate Present(field: Option<string>)
  {
    field.Some? && field.value != ""
  }
}
