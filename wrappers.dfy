/** Optional values, results and the kinds of exception the mapper raises or lets escape. */
module Wrappers {

  datatype Option<+T> = None | Some(value: T) {
    /** The contained value, or `default` when there is none (C#'s `??`). */
    function GetOr(default: T): T {
      if Some? then value else default
    }
  }

  /** The exceptions of the core, by kind. */
  datatype Failure =
    | InvalidOperation   // a collection used as a parameter whose first element is missing or not primitive-like
    | NullReference      // GetType() or a member access on a null reference
    | DuplicateKey       // a second entry with an existing key added to a dictionary
    | InvalidCast        // a cast or Convert.ChangeType that does not succeed
    | ArgumentOutOfRange // Substring with a start or length outside the string
    | IndexOutOfRange    // a column ordinal the data reader does not have
    | Argument           // compiling an expression tree that is ill-typed for its target type
    | Format             // Convert.ChangeType of a string that does not parse as the target type
    | Overflow           // Convert.ChangeType of a number outside the target type's range

  datatype Result<+T> = Ok(value: T) | Err(error: Failure)

  datatype Outcome = Pass | Fail(error: Failure)
}
