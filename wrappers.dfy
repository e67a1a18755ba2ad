/** Option and Result, and the exceptions the modelled C# code can raise. */
module Wrappers {

  datatype Option<+T> = None | Some(value: T) {
    function GetOr(default: T): T {
      match this
      case Some(v) => v
      case None => default
    }
  }

  datatype Result<+R, +E> = Success(value: R) | Failure(error: E)

  /** The exceptions of the modelled code, one constructor per kind that can escape. */
  datatype Error =
    | ControlNotAllowedInFullWidthSection  // ClientException(ErrorType.Unsupported, ...)
    | InvalidOperation                      // JSON value of the wrong kind, First() of an empty sequence
    | NullReference                         // member access on a null reference
    | KeyNotFound                           // JsonElement.GetProperty of a missing member
    | ArgumentNull                          // a null argument to a checking API
    | Format                                // a string that is not a GUID
    | JsonParse                             // text that is not JSON

  /** A C# string reference: None is null. */
  type NString = Option<string>

  /** What string interpolation and StringBuilder.Append make of a possibly null string. */
  function Str(s: NString): string {
    s.GetOr("")
  }

  /** string.IsNullOrEmpty */
  predicate IsNullOrEmpty(s: NString) {
    s == None || s == Some("")
  }
}
