/** The static factories of UserException; each carries its one argument as the only parameter. */
module UserException {
  import opened Wrappers
  import opened C2CException

  function UserNotFound(userId: Option<string>): (e: C2CError)
    ensures e.cls == UserClass && e.errorCode == "USER_NOT_FOUND"
    ensures e.parameters == Some([Text(userId)]) && e.cause.None?
  {
    OfParameters(UserClass, "USER_NOT_FOUND", [Text(userId)])
  }

  function InvalidUserId(userId: Option<string>): (e: C2CError)
    ensures e.cls == UserClass && e.errorCode == "INVALID_USER_ID"
    ensures e.parameters == Some([Text(userId)]) && e.cause.None?
  {
    OfParameters(UserClass, "INVALID_USER_ID", [Text(userId)])
  }

  function UserOffline(userId: Option<string>): (e: C2CError)
    ensures e.cls == UserClass && e.errorCode == "USER_OFFLINE"
    ensures e.parameters == Some([Text(userId)]) && e.cause.None?
  {
    OfParameters(UserClass, "USER_OFFLINE", [Text(userId)])
  }

  function HeartbeatTimeout(userId: Option<string>): (e: C2CError)
    ensures e.cls == UserClass && e.errorCode == "HEARTBEAT_TIMEOUT"
    ensures e.parameters == Some([Text(userId)]) && e.cause.None?
  {
    OfParameters(UserClass, "HEARTBEAT_TIMEOUT", [Text(userId)])
  }

  function InvalidNickname(nickname: Option<string>): (e: C2CError)
    ensures e.cls == UserClass && e.errorCode == "INVALID_NICKNAME"
    ensures e.parameters == Some([Text(nickname)]) && e.cause.None?
  {
    OfParameters(UserClass, "INVALID_NICKNAME", [Text(nickname)])
  }

  function DuplicateSession(userId: Option<string>): (e: C2CError)
    ensures e.cls == UserClass && e.errorCode == "DUPLICATE_SESSION"
    ensures e.parameters == Some([Text(userId)]) && e.cause.None?
  {
    OfParameters(UserClass, "DUPLICATE_SESSION", [Text(userId)])
  }

  function SessionExpired(userId: Option<string>): (e: C2CError)
    ensures e.cls == UserClass && e.errorCode == "SESSION_EXPIRED"
    ensures e.parameters == Some([Text(userId)]) && e.cause.None?
  {
    OfParameters(UserClass, "SESSION_EXPIRED", [Text(userId)])
  }
}
