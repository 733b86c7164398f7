// The error vocabulary of the vCard reader (vcard/src/errors.rs) and the
// Option/Result wrappers the rest of the model is written with.
module Errors {

  datatype Option<T> = None | Some(value: T)
  {
    function GetOr(default: T): T
    {
      if this.Some? then value else default
    }
  }

  /** What the byte source reports: running out of bytes in the middle of a
      `read_exact`, or any other I/O failure. */
  datatype IoErrorKind = UnexpectedEof | Failed

  /** Why `u8::from_str` refuses its input. */
  datatype IntErrorKind = Empty | InvalidDigit | PosOverflow

  /** One constructor per variant of `VCardError`. The messages of the
      variants that carry a fixed text are kept as the text itself. */
  datatype VCardError =
    | Io(io: IoErrorKind)
    | ParseIntError(kind: IntErrorKind)
    | FromUtf8Error
    | Utf8Error
    | InvalidLine(reason: string, rawLine: string)
    | InvalidName(actualName: string, rawLine: string)
    | InvalidValue(expectedValues: string, actualValue: string, rawLine: string)
    | UnknownType(givenType: string)
    | InvalidPid(provided: string)
    | InvalidVersion(version: string)
    | InvalidGenderError(gender: string)
    | UnknownParameter(parameter: string)
    | MaxLineLengthExceeded(limit: nat)
    | InvalidBeginProperty
    | InvalidVersionProperty
    | InvalidEndProperty
    | InvalidCardinality(expected: nat, property: string)
    | InvalidAltId(expectedAltId: string, actualAltId: string)
    | InvalidSyntax(message: string, property: string)

  datatype Result<T> = Ok(value: T) | Err(error: VCardError)
}
