/** The exceptions the HAR node layer raises, and the wrappers that carry
    them back to the caller instead of unwinding the stack. */
module Errors {

  datatype Option<+T> = None | Some(value: T)

  /** The message of a ValidationError, kept as structure rather than text. */
  datatype Reason =
    | WrongType(inClass: string, field: string)       // a type assertion failed
    | NoSuchField(field: string)                      // a KeyError caught by the type check
    | MustNotBeEmpty(inClass: string, field: string)  // the field's value is falsy
    | BadIPAddress(address: string)                   // neither an IPv6 nor an IPv4 literal
    | BadDate(text: string)                           // the date parser refused the text

  /** Which `assert` of the source failed. */
  datatype Assertion =
    | AbstractClass   // a meta class was instantiated directly
    | NotADict        // a node was built from something that is not a dict
    | BadInputType    // init_from is neither text, a file nor a dict

  datatype Error =
    | MissingValue(field: string, inClass: string)
    | ValidationError(reason: Reason)
    | AssertionError(failed: Assertion)
    | KeyError(key: string)
    | NameError(name: string)
    | TypeError            // the JSON encoder met a value it cannot serialise
    | JsonDecodeError      // the JSON decoder refused the text

  /** The result of a step that either completes or raises. */
  datatype Outcome = Pass | Fail(error: Error)

  /** The result of a step that returns a value or raises. */
  datatype Result<+T> = Ok(value: T) | Err(error: Error)
}
