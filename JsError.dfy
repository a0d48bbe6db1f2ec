/** What a JavaScript handler can throw, and the message its `catch` block reads from it. */
module JsError {

  /** The built-in error classes that matter to the handlers. */
  datatype ErrorKind = SyntaxError | TypeError | OtherError

  /** A thrown value: an `Error` instance of some class, or any other value given by its `String(...)` text. */
  datatype Thrown = ErrorObject(kind: ErrorKind, message: string) | NonError(text: string)

  /** `error instanceof Error ? error.message : String(error)`. */
  function MessageOf(e: Thrown): string {
    match e
    case ErrorObject(_, message) => message
    case NonError(text) => text
  }
}
