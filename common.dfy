/** Small shared vocabulary: optional values, results, and the JavaScript
    notions (truthiness of an optional string, thrown values) that several
    parts of the application rely on. */
module Common {

  datatype Option<+T> = None | Some(value: T)

  datatype Result<+T, +E> = Ok(value: T) | Err(error: E)

  /** `s.startsWith(prefix)` */
  predicate StartsWith(s: string, prefix: string)
  {
    |prefix| <= |s| && s[..|prefix|] == prefix
  }

  /** JavaScript truthiness of a `string | null` value: null and "" are falsy. */
  predicate Truthy(o: Option<string>)
  {
    o.Some? && o.value != ""
  }

  /** `x || y` on optional strings: the first operand when it is truthy. */
  function OrElse(o: Option<string>, default: string): (r: string)
    ensures Truthy(o) ==> r == o.value
    ensures !Truthy(o) ==> r == default
  {
    if Truthy(o) then o.value else default
  }

  /** A value caught by a `catch` clause: an `Error` object with its `name`
      and `message`, or any other thrown value with its `String(value)`. */
  datatype Thrown = Error(name: string, message: string) | NonError(text: string)

  /** `new Error(message)`: the standard constructor names the error "Error". */
  function NewError(message: string): Thrown
  {
    Error("Error", message)
  }

  /** `error instanceof Error ? error.message : String(error)` */
  function MessageOf(e: Thrown): (m: string)
    ensures e.Error? ==> m == e.message
    ensures e.NonError? ==> m == e.text
  {
    match e
    case Error(_, message) => message
    case NonError(text) => text
  }
}
