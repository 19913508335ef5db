/** The failures that abort a whole line, and the wrappers that carry them. */
module Outcomes {
  import opened Tokens

  /** Every exception the core raises, one constructor per distinct condition. */
  datatype Failure =
    | EmptyText                              // the lexer indexes text[0] of an empty line
    | IdentifierTooLong                      // a non-keyword letter run longer than 4
    | Expected(expected: Kind, got: Kind)    // `eat` saw the wrong token kind
    | ExpectedSeparator(got: Kind)           // a `while` body statement not followed by ';' or '}'
    | TrailingInput(got: Kind)               // tokens left after the statement list
    | TooManyStatements                      // a 101st statement on one line
    | Overflow                               // an arithmetic result outside +-(2^31-1)
    | NegateNone                             // unary minus applied to None (a TypeError)
    | TooManyVariables                       // a 51st distinct variable
    | OutOfFuel                              // a `while` loop ran past the iteration budget

  datatype Result<+T> = Ok(value: T) | Err(error: Failure)

  /** The result of an operation that only succeeds or fails. */
  datatype Outcome = Pass | Fail(error: Failure)

  datatype Option<+T> = None | Some(value: T)
}
