/**
 * joinRoom: validate, register the user, look the room up and add the user
 * to it. The room store's save writes nothing, so the membership change
 * stays in the in-memory Room that the response is built from.
 */
module JoinRoomService {
  import opened Wrappers
  import opened Strings
  import opened Faults
  import opened User
  import opened Room
  import opened RoomRedisRepository
  import opened UserRedisRepository
  import opened JoinRoomUseCase

  class JoinRoomService {
    const roomRepository: RoomRedisRepository
    const userRepository: UserRedisRepository

    constructor (roomRepository: RoomRedisRepository, userRepository: UserRedisRepository)
      ensures this.roomRepository == roomRepository && this.userRepository == userRepository
    {
      this.roomRepository := roomRepository;
      this.userRepository := userRepository;
    }

    /**
     * joinRoom as written: the user is built with the profile constructor,
     * which leaves joinedAt null, so save throws a NullPointerException
     * after writing the first three hash fields, and the join never gets
     * to the room lookup.
     */
    method JoinRoomAsWritten(request: JoinRoomRequest, now: int) returns (r: Result<JoinRoomResponse, Fault>)
      requires userRepository.Valid()
      modifies userRepository
      ensures userRepository.Valid()
      ensures request.Validate().Some? ==> r == Failure(request.Validate().value) && unchanged(userRepository)
      ensures request.Validate().None? ==> r == Failure(NullPointer(JOINED_AT_NPE_TEXT))
      ensures request.Validate().None? ==>
        var u := request.userId.value;
        var key := GetSessionKey(u);
        var expiry := if old(userRepository.Exists(u, now)) then old(userRepository.sessions)[key].expiresAt else None;
        && userRepository.sessions == old(userRepository.sessions)[key :=
             SessionEntry(SessionHash(Some(u), None, None, old(userRepository.SessionAt(u, now)).joinedAt), expiry)]
        && userRepository.presence == old(userRepository.presence)
      ensures r.Failure?
    {
      var invalid := request.Validate();
      if invalid.Some? {
        return Failure(invalid.value);
      }
      var user := new User(request.userId.value, now);
      user.nickname := request.nickname;
      user.emoji := request.emoji;
      var saveError := userRepository.Save(user, now);
      return Failure(saveError.value);
    }

    /**
     * joinRoom with the user's joinedAt set to the join time before save,
     * so that the user record is written in full and the join proceeds.
     */
    method JoinRoom(request: JoinRoomRequest, now: int) returns (r: Result<JoinRoomResponse, Fault>)
      requires userRepository.Valid()
      modifies userRepository
      ensures userRepository.Valid()
      ensures request.Validate().Some? ==> r == Failure(request.Validate().value) && unchanged(userRepository)
      ensures request.Validate().None? ==>
        var u := request.userId.value;
        && userRepository.sessions == old(userRepository.sessions)[GetSessionKey(u) :=
             SessionEntry(SessionHash(Some(u), None, None, Some(now)), Some(now + SESSION_TTL_MILLIS))]
        && userRepository.presence == old(userRepository.presence)[GetPresenceKey(u) := now + PRESENCE_TTL_MILLIS]
      ensures request.Validate().None? && !roomRepository.Exists(request.roomId.value) ==>
        r == Failure(Runtime(RoomNotFoundText(request.roomId.value)))
      ensures request.Validate().None? && roomRepository.Exists(request.roomId.value) && !roomRepository.Rebuildable(request.roomId.value) ==>
        r.Failure? && r.error.Message() == "INVALID_USER_ID"
      ensures r.Success? <==> request.Validate().None? && roomRepository.Rebuildable(request.roomId.value)
      ensures r.Success? ==>
        var roomId := request.roomId.value;
        var u := request.userId.value;
        var before := roomRepository.GetMembers(roomId);
        r.value == JoinRoomResponse(roomId, u, DisplayName(request.nickname, request.emoji, u),
          before + {u}, |before + {u}|, before == {}, now)
      ensures roomRepository.data == old(roomRepository.data)
    {
      var invalid := request.Validate();
      if invalid.Some? {
        return Failure(invalid.value);
      }
      var roomId := request.roomId.value;
      var userId := request.userId.value;
      var user := new User(userId, now);
      user.nickname := request.nickname;
      user.emoji := request.emoji;
      user.joinedAt := Some(now);
      var _ := userRepository.Save(user, now);
      r := EnterRoom(roomId, userId, user.GetDisplayName(), now);
    }

    /** The room half of joinRoom: load the room, add the member, answer with the new roster. */
    method EnterRoom(roomId: string, userId: string, displayName: string, now: int) returns (r: Result<JoinRoomResponse, Fault>)
      requires !IsBlank(roomId) && !IsBlank(userId)
      ensures !roomRepository.Exists(roomId) ==> r == Failure(Runtime(RoomNotFoundText(roomId)))
      ensures roomRepository.Exists(roomId) && !roomRepository.Rebuildable(roomId) ==>
        r.Failure? && r.error.Message() == "INVALID_USER_ID"
      ensures r.Success? <==> roomRepository.Rebuildable(roomId)
      ensures r.Success? ==>
        var before := roomRepository.GetMembers(roomId);
        r.value == JoinRoomResponse(roomId, userId, displayName, before + {userId}, |before + {userId}|, before == {}, now)
    {
      var found := roomRepository.FindById(roomId);
      match found
      case Failure(e) =>
        return Failure(Domain(e));
      case Success(None) =>
        return Failure(Runtime(RoomNotFoundText(roomId)));
      case Success(Some(room)) =>
        var wasEmpty := room.IsEmpty();
        var _ := room.AddMember(Some(userId));
        var _ := roomRepository.Save(room);
        return Success(JoinRoomResponse(roomId, userId, displayName,
          room.GetMembers(), room.GetMemberCount(), wasEmpty, now));
    }
  }
}
