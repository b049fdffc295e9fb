/** The join request and response records, and the request's own validation. */
module JoinRoomUseCase {
  import opened Wrappers
  import opened Strings
  import opened Faults

  /** The token is carried for later use; nothing reads it. */
  datatype JoinRoomRequest = JoinRoomRequest(
    roomId: Option<string>, userId: Option<string>,
    nickname: Option<string>, emoji: Option<string>, token: Option<string>)
  {
    /** validate: room id first, then user id; each must be non-null and non-blank. */
    function Validate(): (err: Option<Fault>)
      ensures err.None? <==> !NullOrBlank(roomId) && !NullOrBlank(userId)
      ensures NullOrBlank(roomId) ==> err == Some(IllegalArgument("Room ID is required"))
      ensures !NullOrBlank(roomId) && NullOrBlank(userId) ==> err == Some(IllegalArgument("User ID is required"))
    {
      if NullOrBlank(roomId) then Some(IllegalArgument("Room ID is required"))
      else if NullOrBlank(userId) then Some(IllegalArgument("User ID is required"))
      else None
    }
  }

  /** wasEmpty tells whether the join revived an empty room; joinedAt is the server's clock. */
  datatype JoinRoomResponse = JoinRoomResponse(
    roomId: string, userId: string, displayName: string,
    members: set<string>, memberCount: int, wasEmpty: bool, joinedAt: int)
}
