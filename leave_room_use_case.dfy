/** The leave request and response records, and the request's own validation. */
module LeaveRoomUseCase {
  import opened Wrappers
  import opened Strings
  import opened Faults

  /** reason is one of "disconnect", "explicit", "timeout", or null; it is echoed back unchecked. */
  datatype LeaveRoomRequest = LeaveRoomRequest(roomId: Option<string>, userId: Option<string>, reason: Option<string>)
  {
    function Validate(): (err: Option<Fault>)
      ensures err.None? <==> !NullOrBlank(roomId) && !NullOrBlank(userId)
      ensures NullOrBlank(roomId) ==> err == Some(IllegalArgument("Room ID is required"))
      ensures !NullOrBlank(roomId) && NullOrBlank(userId) ==> err == Some(IllegalArgument("User ID is required"))
    {
      if NullOrBlank(roomId) then Some(IllegalArgument("Room ID is required"))
      else if NullOrBlank(userId) then Some(IllegalArgument("User ID is required"))
      else None
    }
  }

  datatype LeaveRoomResponse = LeaveRoomResponse(
    roomId: string, userId: string, remainingMembers: set<string>, remainingMemberCount: int,
    roomEmpty: bool, roomScheduledForDeletion: bool, leftAt: int, reason: Option<string>)
}
