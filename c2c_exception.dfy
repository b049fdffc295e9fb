/**
 * The domain exception: an error code, the optional message parameters and
 * an optional cause. The Java message (getMessage) is the error code itself.
 */
module C2CException {
  import opened Wrappers

  /** The concrete class that was instantiated; the handlers look at its simple name. */
  datatype ExceptionClass = Base | RoomClass | MessageClass | UserClass

  /** A message parameter: a possibly null string or a Java int. */
  datatype Param = Text(text: Option<string>) | Number(n: int)

  /** A wrapped Throwable, known here only by its description. */
  datatype Cause = Cause(description: string)

  datatype C2CError = C2CError(
    cls: ExceptionClass,
    errorCode: string,
    parameters: Option<seq<Param>>,
    cause: Option<Cause>)
  {
    /** Every constructor passes the code to RuntimeException as the message. */
    function GetMessage(): string { errorCode }
  }

  /** Class.getSimpleName() of each exception class. */
  function SimpleName(cls: ExceptionClass): string
  {
    match cls
    case Base => "C2CException"
    case RoomClass => "RoomException"
    case MessageClass => "MessageException"
    case UserClass => "UserException"
  }

  /** `new C2CException(code)`: no parameters (null) and no cause. */
  function OfCode(cls: ExceptionClass, code: string): (e: C2CError)
    ensures e.errorCode == code && e.GetMessage() == code && e.cls == cls
    ensures e.parameters.None? && e.cause.None?
  {
    C2CError(cls, code, None, None)
  }

  /** `new C2CException(code, Object... parameters)`: the given parameters, no cause. */
  function OfParameters(cls: ExceptionClass, code: string, parameters: seq<Param>): (e: C2CError)
    ensures e.errorCode == code && e.GetMessage() == code && e.cls == cls
    ensures e.parameters == Some(parameters) && e.cause.None?
  {
    C2CError(cls, code, Some(parameters), None)
  }

  /** `new C2CException(code, cause)`: the cause is kept, parameters stay null. */
  function OfCause(cls: ExceptionClass, code: string, cause: Cause): (e: C2CError)
    ensures e.errorCode == code && e.GetMessage() == code && e.cls == cls
    ensures e.parameters.None? && e.cause == Some(cause)
  {
    C2CError(cls, code, None, Some(cause))
  }

  /** `new C2CException(code, cause, Object... parameters)`: both are kept. */
  function OfCauseAndParameters(cls: ExceptionClass, code: string, cause: Cause, parameters: seq<Param>): (e: C2CError)
    ensures e.errorCode == code && e.GetMessage() == code && e.cls == cls
    ensures e.parameters == Some(parameters) && e.cause == Some(cause)
  {
    C2CError(cls, code, Some(parameters), Some(cause))
  }
}
