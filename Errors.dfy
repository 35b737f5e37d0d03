/** The error taxonomy of include/webview/errors.h: the `error_t` codes, the
    `ErrorInfo` value and the `Exception` type that the engine throws. All of
    them are immutable values after construction. */
module Errors {
  import opened Wrappers

  /** `error_t`, one constructor per enumerator. */
  datatype ErrorCode =
    | MissingDependency
    | Canceled
    | InvalidState
    | InvalidArgument
    | Unspecified
    | Ok
    | Duplicate
    | NotFound
    | Reject

  /** The integer value of each enumerator. */
  function Value(c: ErrorCode): (v: int)
    ensures -5 <= v <= 3
    ensures c == Ok <==> v == 0
    ensures v < 0 <==> c in {MissingDependency, Canceled, InvalidState, InvalidArgument, Unspecified}
  {
    match c
    case MissingDependency => -5
    case Canceled => -4
    case InvalidState => -3
    case InvalidArgument => -2
    case Unspecified => -1
    case Ok => 0
    case Duplicate => 1
    case NotFound => 2
    case Reject => 3
  }

  /** The enumerator carrying a given integer value, if any. */
  function FromValue(v: int): (r: Option<ErrorCode>)
    ensures r.Some? <==> -5 <= v <= 3
  {
    if v == -5 then Some(MissingDependency)
    else if v == -4 then Some(Canceled)
    else if v == -3 then Some(InvalidState)
    else if v == -2 then Some(InvalidArgument)
    else if v == -1 then Some(Unspecified)
    else if v == 0 then Some(Ok)
    else if v == 1 then Some(Duplicate)
    else if v == 2 then Some(NotFound)
    else if v == 3 then Some(Reject)
    else None
  }

  /** Decoding the value of a code gives back the code. */
  lemma FromValueOfValue(c: ErrorCode)
    ensures FromValue(Value(c)) == Some(c)
  {
  }

  /** The nine values are pairwise distinct. */
  lemma ValuesDistinct(c: ErrorCode, d: ErrorCode)
    ensures Value(c) == Value(d) ==> c == d
  {
    FromValueOfValue(c);
    FromValueOfValue(d);
  }

  /** `ErrorInfo`: a code and a message. */
  datatype ErrorInfo = ErrorInfo(code: ErrorCode, message: string)

  /** `ErrorInfo(code, message = {})`. */
  function NewErrorInfo(code: ErrorCode, message: string := ""): (e: ErrorInfo)
    ensures Code(e) == code && Message(e) == message
  {
    ErrorInfo(code, message)
  }

  /** `ErrorInfo()`: the default member initialisers. */
  function DefaultErrorInfo(): (e: ErrorInfo)
    ensures Code(e) == Unspecified && Message(e) == ""
  {
    ErrorInfo(Unspecified, "")
  }

  /** `ErrorInfo::Code()`. */
  function Code(e: ErrorInfo): ErrorCode { e.code }

  /** `ErrorInfo::Message()`. */
  function Message(e: ErrorInfo): string { e.message }

  /** Stand-in for a `std::exception_ptr` that is not null. */
  datatype Cause = Cause(token: nat)

  /** `Exception`: an `ErrorInfo` and an optional cause (`None` is a null
      `exception_ptr`). */
  datatype Exception = Exception(error: ErrorInfo, cause: Option<Cause>)

  /** `Exception(ErrorInfo error, std::exception_ptr cause)`. */
  function FromInfoWithCause(error: ErrorInfo, cause: Option<Cause>): (x: Exception)
    ensures x.error == error && x.cause == cause
  {
    Exception(error, cause)
  }

  /** `explicit Exception(ErrorInfo error)`: no cause. */
  function FromInfo(error: ErrorInfo): (x: Exception)
    ensures x.error == error && x.cause == None
  {
    Exception(error, None)
  }

  /** `Exception(code, message, cause)`, delegating to the info constructor. */
  function WithCause(code: ErrorCode, message: string, cause: Option<Cause>): (x: Exception)
    ensures x == FromInfoWithCause(NewErrorInfo(code, message), cause)
    ensures What(x) == message && x.error.code == code && x.cause == cause
  {
    FromInfoWithCause(NewErrorInfo(code, message), cause)
  }

  /** `Exception(code, message)`, delegating to the explicit info constructor. */
  function NewException(code: ErrorCode, message: string := ""): (x: Exception)
    ensures x == FromInfo(NewErrorInfo(code, message))
    ensures x == WithCause(code, message, None)
    ensures What(x) == message && x.error.code == code
  {
    FromInfo(NewErrorInfo(code, message))
  }

  /** `Exception()`: default initialisers, code UNSPECIFIED. */
  function DefaultException(): (x: Exception)
    ensures x.error == DefaultErrorInfo() && x.cause == None
    ensures What(x) == ""
  {
    Exception(ErrorInfo(Unspecified, ""), None)
  }

  /** `Exception::what()` is the message of its `ErrorInfo`. */
  function What(x: Exception): string { x.error.message }
}
