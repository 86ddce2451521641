/** Option and Result values, and the kinds of exception the modelled code throws. */
module Wrappers {

  datatype Option<+T> = None | Some(value: T)

  /** The JVM exceptions raised by the modelled code, as values. */
  datatype Failure =
    | IllegalArgument                  // IllegalArgumentException
    | IndexOutOfBounds                 // IndexOutOfBoundsException and its array/string forms
    | NullPointer                      // `!!` applied to a missing map entry
    | NoSuchElement                    // removeFirst/pollFirst-style access to an empty deque
    | ClassCast                        // a failing `as` cast
    | IllegalState(msg: string)        // Kotlin's `error(msg)`
    | Runtime                          // a bare RuntimeException
    | ParseFailure(line: int, column: int, msg: string)  // ParseError(loc, msg)
    // ParseError(loc, msg) raised by the parser for an unexpected token, holding the
    // names of the expected tokens and of the one found; its message is rendered by
    // ParserSpec.Message
    | Unexpected(line: int, column: int, expected: seq<string>, got: string)

  /** The outcome of an operation that returns nothing but may throw. */
  datatype Outcome = Pass | Fail(error: Failure)

  datatype Result<+T> = Ok(value: T) | Err(error: Failure)
}
