/**
 * leaveRoom: validate, look the room up, remove the user from the rebuilt
 * Room, then delete the user's records. As with join, the room store's
 * save writes nothing: the response is built from the in-memory Room.
 */
module LeaveRoomService {
  import opened Wrappers
  import opened Strings
  import opened Faults
  import opened Room
  import opened RoomRedisRepository
  import opened UserRedisRepository
  import opened LeaveRoomUseCase

  class LeaveRoomService {
    const roomRepository: RoomRedisRepository
    const userRedisRepository: UserRedisRepository

    constructor (roomRepository: RoomRedisRepository, userRedisRepository: UserRedisRepository)
      ensures this.roomRepository == roomRepository && this.userRedisRepository == userRedisRepository
    {
      this.roomRepository := roomRepository;
      this.userRedisRepository := userRedisRepository;
    }

    method LeaveRoom(request: LeaveRoomRequest, now: int) returns (r: Result<LeaveRoomResponse, Fault>)
      requires userRedisRepository.Valid()
      modifies userRedisRepository
      ensures userRedisRepository.Valid()
      ensures request.Validate().Some? ==> r == Failure(request.Validate().value)
      ensures request.Validate().None? && !roomRepository.Exists(request.roomId.value) ==>
        r == Failure(Runtime(RoomNotFoundText(request.roomId.value)))
      ensures request.Validate().None? && roomRepository.Exists(request.roomId.value) && !roomRepository.Rebuildable(request.roomId.value) ==>
        r.Failure? && r.error.Message() == "INVALID_USER_ID"
      ensures r.Success? <==> request.Validate().None? && roomRepository.Rebuildable(request.roomId.value)
      ensures r.Failure? ==> unchanged(userRedisRepository)
      ensures r.Success? ==>
        var roomId := request.roomId.value;
        var u := request.userId.value;
        var remaining := roomRepository.GetMembers(roomId) - {u};
        && r.value == LeaveRoomResponse(roomId, u, remaining, |remaining|, remaining == {}, remaining == {}, now, request.reason)
        && userRedisRepository.sessions == old(userRedisRepository.sessions) - {GetSessionKey(u)}
        && userRedisRepository.presence == old(userRedisRepository.presence) - {GetPresenceKey(u)}
      ensures roomRepository.data == old(roomRepository.data)
    {
      var invalid := request.Validate();
      if invalid.Some? {
        return Failure(invalid.value);
      }
      var roomId := request.roomId.value;
      var userId := request.userId.value;
      var found := roomRepository.FindById(roomId);
      match found
      case Failure(e) =>
        return Failure(Domain(e));
      case Success(None) =>
        return Failure(Runtime(RoomNotFoundText(roomId)));
      case Success(Some(room)) =>
        room.RemoveMember(userId, now);
        var _ := roomRepository.Save(room);
        var remainingMembers := room.GetMembers();
        userRedisRepository.Delete(userId);
        return Success(LeaveRoomResponse(roomId, userId, remainingMembers, |remainingMembers|,
          room.IsEmpty(), room.isScheduledForDeletion, now, request.reason));
    }
  }
}
