/**
 * The REST exception handlers: which HTTP status and which body each kind
 * of exception produces.
 */
module GlobalExceptionHandler {
  import opened Wrappers
  import opened Strings
  import opened C2CException
  import opened ApiResponse

  /** What a handler returns: ResponseEntity's status and body. */
  datatype Reply = Reply(status: int, body: ApiResponse<()>)

  /** The switch over the exception's simple class name. */
  function MapDomainExceptionToHttpStatus(exceptionName: string): (s: HttpStatus)
    ensures s == NOT_FOUND <==> exceptionName in {"RoomNotFoundException", "UserNotFoundException"}
    ensures s == CONFLICT <==> exceptionName in {"RoomFullException", "DuplicateUserException"}
    ensures s == BAD_REQUEST <==> exceptionName in {"InvalidRoomIdException", "InvalidUserIdException", "InvalidMessageException"}
    ensures s == UNAUTHORIZED <==> exceptionName == "UnauthorizedException"
    ensures s == FORBIDDEN <==> exceptionName == "ForbiddenException"
    ensures s in {NOT_FOUND, CONFLICT, BAD_REQUEST, UNAUTHORIZED, FORBIDDEN, INTERNAL_SERVER_ERROR}
  {
    match exceptionName
    case "RoomNotFoundException" => NOT_FOUND
    case "UserNotFoundException" => NOT_FOUND
    case "RoomFullException" => CONFLICT
    case "DuplicateUserException" => CONFLICT
    case "InvalidRoomIdException" => BAD_REQUEST
    case "InvalidUserIdException" => BAD_REQUEST
    case "InvalidMessageException" => BAD_REQUEST
    case "UnauthorizedException" => UNAUTHORIZED
    case "ForbiddenException" => FORBIDDEN
    case _ => INTERNAL_SERVER_ERROR
  }

  /** The error field: the simple class name with every "Exception" removed. */
  function ErrorName(e: C2CError): string
  {
    ReplaceAll(SimpleName(e.cls), "Exception", "")
  }

  function HandleC2CException(e: C2CError): (r: Reply)
    ensures r.status == r.body.status == MapDomainExceptionToHttpStatus(SimpleName(e.cls)).Value()
    ensures r.body.error == Some(ErrorName(e)) && r.body.message == Some(e.errorCode)
    ensures !r.body.success && r.body.data.None?
  {
    var status := MapDomainExceptionToHttpStatus(SimpleName(e.cls));
    Reply(status.Value(), ErrorWithMessage(ErrorName(e), e.GetMessage(), status))
  }

  function HandleValidationException(): (r: Reply)
    ensures r.status == r.body.status == 400 && WellFormed(r.body)
  {
    Reply(BAD_REQUEST.Value(), BadRequest("입력값이 유효하지 않습니다"))
  }

  function HandleTypeMismatchException(parameterName: string): (r: Reply)
    ensures r.status == r.body.status == 400 && WellFormed(r.body)
  {
    Reply(BAD_REQUEST.Value(), BadRequest("파라미터 '" + parameterName + "'의 값이 올바르지 않습니다"))
  }

  function HandleNoResourceFound(): (r: Reply)
    ensures r.status == r.body.status == 404 && WellFormed(r.body)
  {
    Reply(NOT_FOUND.Value(), NotFound("요청한 리소스를 찾을 수 없습니다"))
  }

  function HandleGenericException(): (r: Reply)
    ensures r.status == r.body.status == 500 && WellFormed(r.body)
  {
    Reply(INTERNAL_SERVER_ERROR.Value(), InternalError("서버 내부 오류가 발생했습니다"))
  }

  /** The error name of each exception class is its name without the "Exception" suffix. */
  lemma ErrorNames(e: C2CError)
    ensures ErrorName(e) == match e.cls
      case Base => "C2C"
      case RoomClass => "Room"
      case MessageClass => "Message"
      case UserClass => "User"
  {
    var suffix := "Exception";
    var front := match e.cls
      case Base => "C2C"
      case RoomClass => "Room"
      case MessageClass => "Message"
      case UserClass => "User";
    assert SimpleName(e.cls) == front + suffix;
    assert !Contains(front, suffix) by {
      forall i | 0 <= i <= |front| ensures !OccursAt(front, suffix, i) {}
    }
    ReplaceAllDropsSuffix(front, suffix);
  }

  /**
   * None of the classes the core actually throws appears in the switch, so
   * every domain exception, ROOM_NOT_FOUND and USER_NOT_FOUND included, is
   * answered with 500 and error "C2C", "Room", "Message" or "User".
   */
  lemma EveryDomainExceptionIsInternalError(e: C2CError)
    ensures HandleC2CException(e).status == 500
    ensures HandleC2CException(e).body.error.value in {"C2C", "Room", "Message", "User"}
    ensures WellFormed(HandleC2CException(e).body)
  {
    ErrorNames(e);
  }
}
