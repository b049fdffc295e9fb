/**
 * The room domain service: it keeps the in-memory Room and the Redis set
 * in step on join and leave, and runs the empty-room cleanup.
 */
module RoomService {
  import opened Wrappers
  import opened Strings
  import opened C2CException
  import opened Room
  import opened RoomRedisRepository
  import RoomException

  const SERVICE_ROOM_TTL_SECONDS: int := 300

  class RoomService {
    const roomRepository: RoomRedisRepository

    constructor (roomRepository: RoomRedisRepository)
      ensures this.roomRepository == roomRepository
    {
      this.roomRepository := roomRepository;
    }

    /**
     * getOrCreateRoom: a blank id throws INVALID_ROOM_ID; a stored room is
     * rebuilt from the store, otherwise a new empty room is returned
     * without touching the store.
     */
    method GetOrCreateRoom(roomId: Option<string>) returns (r: Result<Room, C2CError>)
      ensures NullOrBlank(roomId) ==> r == Failure(RoomException.InvalidRoomId(roomId))
      ensures !NullOrBlank(roomId) ==>
        (r.Success? <==> !roomRepository.Exists(roomId.value) || roomRepository.Rebuildable(roomId.value))
      ensures r.Success? ==>
        && fresh(r.value) && r.value.Valid() && r.value.roomId == roomId.value
        && r.value.members == roomRepository.GetMembers(roomId.value)
        && !r.value.isScheduledForDeletion
    {
      if NullOrBlank(roomId) {
        return Failure(RoomException.InvalidRoomId(roomId));
      }
      var found := roomRepository.FindById(roomId.value);
      if found.Failure? {
        return Failure(found.error);
      }
      if found.value.Some? {
        return Success(found.value.value);
      }
      var created := new Room(roomId.value);
      var saved := roomRepository.Save(created);
      return Success(saved);
    }

    /**
     * joinRoom: the user joins both the Room and the stored set, whose TTL
     * is cleared. A blank room id, an unreadable stored room or a blank user
     * id fails before the store is written. The PERSIST for a room scheduled
     * for deletion is left out: getOrCreateRoom never returns such a room.
     */
    method JoinRoom(roomId: Option<string>, userId: Option<string>) returns (r: Result<Room, C2CError>)
      modifies roomRepository
      ensures r.Success? <==>
        && !NullOrBlank(roomId) && !NullOrBlank(userId)
        && (!old(roomRepository.Exists(roomId.value)) || old(roomRepository.Rebuildable(roomId.value)))
      ensures NullOrBlank(roomId) ==> r == Failure(RoomException.InvalidRoomId(roomId))
      ensures r.Failure? ==> roomRepository.data == old(roomRepository.data)
      ensures r.Success? ==>
        && roomRepository.data == old(roomRepository.data)[RoomMembersKey(roomId.value) :=
             SetKey(old(roomRepository.GetMembers(roomId.value)) + {userId.value}, None)]
        && fresh(r.value) && r.value.Valid()
        && r.value.members == old(roomRepository.GetMembers(roomId.value)) + {userId.value}
        && !r.value.isScheduledForDeletion
      ensures old(roomRepository.TtlOnlyOnEmpty()) ==> roomRepository.TtlOnlyOnEmpty()
    {
      var got := GetOrCreateRoom(roomId);
      if got.Failure? {
        return Failure(got.error);
      }
      var room := got.value;
      var err := room.AddMember(userId);
      if err.Some? {
        return Failure(err.value);
      }
      roomRepository.AddMember(roomId.value, userId.value);
      var saved := roomRepository.Save(room);
      return Success(saved);
    }

    /**
     * leaveRoom: a missing room throws ROOM_NOT_FOUND and writes nothing.
     * Otherwise the user leaves the Room and the stored set, and the stored
     * TTL is 300 s exactly when the set is left empty.
     */
    method LeaveRoom(roomId: string, userId: string, now: int) returns (r: Result<Room, C2CError>)
      modifies roomRepository
      ensures !old(roomRepository.Exists(roomId)) ==> r == Failure(RoomException.RoomNotFound(Some(roomId)))
      ensures r.Success? <==> old(roomRepository.Rebuildable(roomId))
      ensures r.Failure? ==> roomRepository.data == old(roomRepository.data)
      ensures r.Success? ==>
        var left := old(roomRepository.GetMembers(roomId)) - {userId};
        && roomRepository.data == old(roomRepository.data)[RoomMembersKey(roomId) :=
             SetKey(left, if left == {} then Some(SERVICE_ROOM_TTL_SECONDS)
                          else old(roomRepository.data)[RoomMembersKey(roomId)].ttl)]
        && fresh(r.value) && r.value.Valid() && r.value.members == left
        && r.value.isScheduledForDeletion == (left == {})
        && (left == {} ==> r.value.lastEmptyTime == Some(now))
      ensures old(roomRepository.TtlOnlyOnEmpty()) ==> roomRepository.TtlOnlyOnEmpty()
    {
      var found := roomRepository.FindById(roomId);
      if found.Failure? {
        return Failure(found.error);
      }
      if found.value.None? {
        return Failure(RoomException.RoomNotFound(Some(roomId)));
      }
      var room := found.value.value;
      room.RemoveMember(userId, now);
      StoreLeave(roomId, userId, room.IsEmpty());
      var saved := roomRepository.Save(room);
      return Success(saved);
    }

    /**
     * The stored half of leaveRoom: SREM the user, then set the 300 s TTL
     * when the room object says it is now empty.
     */
    method StoreLeave(roomId: string, userId: string, emptied: bool)
      requires roomRepository.Exists(roomId)
      requires emptied == (roomRepository.GetMembers(roomId) - {userId} == {})
      modifies roomRepository
      ensures
        var left := old(roomRepository.GetMembers(roomId)) - {userId};
        roomRepository.data == old(roomRepository.data)[RoomMembersKey(roomId) :=
          SetKey(left, if left == {} then Some(SERVICE_ROOM_TTL_SECONDS)
                       else old(roomRepository.data)[RoomMembersKey(roomId)].ttl)]
      ensures old(roomRepository.TtlOnlyOnEmpty()) ==> roomRepository.TtlOnlyOnEmpty()
    {
      ghost var key, was := RoomMembersKey(roomId), roomRepository.data[RoomMembersKey(roomId)];
      var _ := roomRepository.RemoveMember(roomId, userId);
      if userId !in was.members {
        assert was.members - {userId} == was.members;
        assert SetKey(was.members - {userId}, was.ttl) == was;
      }
      assert roomRepository.data == old(roomRepository.data)[key := SetKey(was.members - {userId},
        if userId in was.members && was.members == {userId} then Some(EMPTY_ROOM_TTL_SECONDS) else was.ttl)];
      if emptied {
        roomRepository.SetTtl(roomId, SERVICE_ROOM_TTL_SECONDS);
      }
    }

    /** getRoomMembers: ROOM_NOT_FOUND for a missing room, otherwise the stored set. */
    function GetRoomMembers(roomId: string): (r: Result<set<string>, C2CError>)
      reads roomRepository
      ensures r.Failure? <==> !roomRepository.Exists(roomId)
      ensures r.Failure? ==> r.error == RoomException.RoomNotFound(Some(roomId))
      ensures r.Success? ==> r.value == roomRepository.data[RoomMembersKey(roomId)].members
    {
      if !roomRepository.Exists(roomId) then Failure(RoomException.RoomNotFound(Some(roomId)))
      else Success(roomRepository.GetMembers(roomId))
    }

    predicate RoomExists(roomId: string)
      reads roomRepository
    {
      roomRepository.Exists(roomId)
    }

    /** getRoomInfo: the rebuilt room, or ROOM_NOT_FOUND. */
    method GetRoomInfo(roomId: string) returns (r: Result<Room, C2CError>)
      ensures !roomRepository.Exists(roomId) ==> r == Failure(RoomException.RoomNotFound(Some(roomId)))
      ensures r.Success? <==> roomRepository.Rebuildable(roomId)
      ensures r.Success? ==> r.value.members == roomRepository.GetMembers(roomId) && !r.value.isScheduledForDeletion
    {
      var found := roomRepository.FindById(roomId);
      if found.Failure? {
        return Failure(found.error);
      }
      if found.value.None? {
        return Failure(RoomException.RoomNotFound(Some(roomId)));
      }
      return Success(found.value.value);
    }

    /** The lambda handed to ifPresent: delete the room when it is due. */
    method DeleteIfDue(roomId: string, room: Room, now: int)
      modifies roomRepository
      ensures room.ShouldBeDeleted(now) ==> roomRepository.data == old(roomRepository.data) - {RoomMembersKey(roomId)}
      ensures !room.ShouldBeDeleted(now) ==> roomRepository.data == old(roomRepository.data)
    {
      if room.ShouldBeDeleted(now) {
        roomRepository.Delete(roomId);
      }
    }

    /**
     * cleanupExpiredRooms: each room of findEmptyRooms is looked up and
     * deleted when due. A rebuilt room is never scheduled, so no room is
     * ever due and the store is left as it was; an unreadable room ends the
     * run with its exception.
     */
    method CleanupExpiredRooms(now: int) returns (err: Option<C2CError>)
      modifies roomRepository
      ensures roomRepository.data == old(roomRepository.data)
    {
      var emptyRooms := roomRepository.FindEmptyRooms();
      var remaining := emptyRooms;
      while remaining != {}
        invariant remaining <= emptyRooms
        invariant roomRepository.data == old(roomRepository.data)
        decreases remaining
      {
        var roomId :| roomId in remaining;
        var found := roomRepository.FindById(roomId);
        if found.Failure? {
          return Some(found.error);
        }
        if found.value.Some? {
          DeleteIfDue(roomId, found.value.value, now);
        }
        remaining := remaining - {roomId};
      }
      return None;
    }

    /** deleteRoom: ROOM_NOT_FOUND for a missing room, otherwise its key is deleted. */
    method DeleteRoom(roomId: string) returns (err: Option<C2CError>)
      modifies roomRepository
      ensures err.Some? <==> !old(roomRepository.Exists(roomId))
      ensures err.Some? ==> err.value == RoomException.RoomNotFound(Some(roomId)) && roomRepository.data == old(roomRepository.data)
      ensures err.None? ==> roomRepository.data == old(roomRepository.data) - {RoomMembersKey(roomId)}
    {
      if !roomRepository.Exists(roomId) {
        return Some(RoomException.RoomNotFound(Some(roomId)));
      }
      roomRepository.Delete(roomId);
      return None;
    }
  }
}
