/** The static factories of RoomException; each uses the varargs constructor. */
module RoomException {
  import opened Wrappers
  import opened C2CException

  function RoomNotFound(roomId: Option<string>): (e: C2CError)
    ensures e.cls == RoomClass && e.errorCode == "ROOM_NOT_FOUND"
    ensures e.parameters == Some([Text(roomId)]) && e.cause.None?
  {
    OfParameters(RoomClass, "ROOM_NOT_FOUND", [Text(roomId)])
  }

  function InvalidRoomId(roomId: Option<string>): (e: C2CError)
    ensures e.cls == RoomClass && e.errorCode == "INVALID_ROOM_ID"
    ensures e.parameters == Some([Text(roomId)]) && e.cause.None?
  {
    OfParameters(RoomClass, "INVALID_ROOM_ID", [Text(roomId)])
  }

  function RoomScheduledForDeletion(roomId: Option<string>): (e: C2CError)
    ensures e.cls == RoomClass && e.errorCode == "ROOM_SCHEDULED_FOR_DELETION"
    ensures e.parameters == Some([Text(roomId)]) && e.cause.None?
  {
    OfParameters(RoomClass, "ROOM_SCHEDULED_FOR_DELETION", [Text(roomId)])
  }

  function RoomCreationFailed(roomId: Option<string>): (e: C2CError)
    ensures e.cls == RoomClass && e.errorCode == "ROOM_CREATION_FAILED"
    ensures e.parameters == Some([Text(roomId)]) && e.cause.None?
  {
    OfParameters(RoomClass, "ROOM_CREATION_FAILED", [Text(roomId)])
  }

  function RoomCapacityExceeded(roomId: Option<string>, currentCount: int, maxCount: int): (e: C2CError)
    ensures e.cls == RoomClass && e.errorCode == "ROOM_CAPACITY_EXCEEDED"
    ensures e.parameters == Some([Text(roomId), Number(currentCount), Number(maxCount)]) && e.cause.None?
  {
    OfParameters(RoomClass, "ROOM_CAPACITY_EXCEEDED", [Text(roomId), Number(currentCount), Number(maxCount)])
  }

  function InvalidCreatorName(creatorName: Option<string>): (e: C2CError)
    ensures e.cls == RoomClass && e.errorCode == "INVALID_CREATOR_NAME"
    ensures e.parameters == Some([Text(creatorName)]) && e.cause.None?
  {
    OfParameters(RoomClass, "INVALID_CREATOR_NAME", [Text(creatorName)])
  }
}
