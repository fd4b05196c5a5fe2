/** Values as they cross the boundary between the web client, its server
    actions and the REST backend: optional JavaScript values, the outcome of
    an awaited call that may throw, and the scalar JSON values the backend
    stores under a record's input names. */
module JsValues {

  /** `undefined`/`null` versus a present value. */
  datatype Option<+T> = None | Some(value: T)

  /** The outcome of an awaited call: a value, or a thrown `Error` with its message. */
  datatype Result<+T> = Success(value: T) | Failure(message: string)

  /** A scalar JSON value stored under an input name: a JavaScript number
      (kept as an exact real: rounding and NaN are not modelled) or a string. */
  datatype Value = Num(n: real) | Text(s: string)

  /** JavaScript truthiness of an optional string: `undefined` and `""` are falsy. */
  predicate Truthy(s: Option<string>)
  {
    s.Some? && s.value != ""
  }
}
