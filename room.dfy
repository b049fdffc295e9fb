/**
 * The in-memory room entity: a member set plus the deletion schedule that
 * the last leave arms and the next join cancels. Clock values are
 * milliseconds.
 */
module Room {
  import opened Wrappers
  import opened Strings
  import opened C2CException
  import RoomException
  import UserException

  const EMPTY_ROOM_TTL_MINUTES: int := 5
  /** The same delay in milliseconds, the unit of every clock value here. */
  const EMPTY_ROOM_TTL_MILLIS: int := EMPTY_ROOM_TTL_MINUTES * 60 * 1000

  class Room {
    const roomId: string
    var members: set<string>
    var lastEmptyTime: Option<int>
    var isScheduledForDeletion: bool

    /** A scheduled room is empty, and the timestamp is set exactly while it is scheduled. */
    ghost predicate Valid()
      reads this
    {
      && !IsBlank(roomId)
      && (isScheduledForDeletion ==> members == {})
      && (isScheduledForDeletion <==> lastEmptyTime.Some?)
    }

    constructor (roomId: string)
      requires !IsBlank(roomId)
      ensures Valid() && this.roomId == roomId
      ensures members == {} && !isScheduledForDeletion && lastEmptyTime.None?
    {
      this.roomId := roomId;
      members := {};
      lastEmptyTime := None;
      isScheduledForDeletion := false;
    }

    /** `new Room(roomId)`: a null or blank id throws INVALID_ROOM_ID. */
    static method New(roomId: Option<string>) returns (r: Result<Room, C2CError>)
      ensures r.Failure? <==> NullOrBlank(roomId)
      ensures r.Failure? ==> r.error == RoomException.InvalidRoomId(roomId)
      ensures r.Success? ==> fresh(r.value) && r.value.Valid() && r.value.roomId == roomId.value
      ensures r.Success? ==> r.value.members == {} && !r.value.isScheduledForDeletion
    {
      if NullOrBlank(roomId) {
        return Failure(RoomException.InvalidRoomId(roomId));
      }
      var room := new Room(roomId.value);
      return Success(room);
    }

    /**
     * addMember: a null or blank id throws INVALID_USER_ID and changes
     * nothing; otherwise the user joins and any scheduled deletion is cancelled.
     */
    method AddMember(userId: Option<string>) returns (err: Option<C2CError>)
      requires Valid()
      modifies this
      ensures Valid()
      ensures err.Some? <==> NullOrBlank(userId)
      ensures err.Some? ==> err.value == UserException.InvalidUserId(userId) && unchanged(this)
      ensures err.None? ==> members == old(members) + {userId.value}
      ensures err.None? ==> !isScheduledForDeletion && lastEmptyTime.None?
      ensures err.None? ==> forall now :: !ShouldBeDeleted(now)
    {
      if NullOrBlank(userId) {
        return Some(UserException.InvalidUserId(userId));
      }
      members := members + {userId.value};
      if isScheduledForDeletion {
        CancelDeletion();
      }
      return None;
    }

    /**
     * removeMember: the user is gone afterwards; whenever the set is then
     * empty (even if the user was not a member) the deletion is scheduled
     * from now, restarting an earlier schedule.
     */
    method RemoveMember(userId: string, now: int)
      requires Valid()
      modifies this
      ensures Valid()
      ensures members == old(members) - {userId}
      ensures members == {} ==> isScheduledForDeletion && lastEmptyTime == Some(now)
      ensures members != {} ==> !isScheduledForDeletion && lastEmptyTime.None?
    {
      members := members - {userId};
      if members == {} {
        ScheduleForDeletion(now);
      }
    }

    method ScheduleForDeletion(now: int)
      requires !IsBlank(roomId) && members == {}
      modifies this
      ensures Valid() && members == old(members)
      ensures lastEmptyTime == Some(now) && isScheduledForDeletion
    {
      lastEmptyTime := Some(now);
      isScheduledForDeletion := true;
    }

    method CancelDeletion()
      requires !IsBlank(roomId)
      modifies this
      ensures Valid() && members == old(members)
      ensures lastEmptyTime.None? && !isScheduledForDeletion
    {
      lastEmptyTime := None;
      isScheduledForDeletion := false;
    }

    /** shouldBeDeleted: scheduled and now strictly after the last-empty time plus five minutes. */
    predicate ShouldBeDeleted(now: int)
      reads this
      ensures ShouldBeDeleted(now) ==> isScheduledForDeletion
      ensures Valid() && ShouldBeDeleted(now) ==> IsEmpty()
    {
      if !isScheduledForDeletion || lastEmptyTime.None? then false
      else now > lastEmptyTime.value + EMPTY_ROOM_TTL_MILLIS
    }

    function IsEmpty(): (b: bool)
      reads this
      ensures b <==> GetMemberCount() == 0
    {
      members == {}
    }

    /** getMembers returns a copy; a Dafny set is a value, so the copy equals the member set. */
    function GetMembers(): (ms: set<string>)
      reads this
      ensures |ms| == GetMemberCount()
      ensures ms == {} <==> IsEmpty()
    {
      members
    }

    /** getMemberCount: the size of the member set, zero exactly for no members. */
    function GetMemberCount(): (n: nat)
      reads this
      ensures n == 0 <==> members == {}
    {
      |members|
    }
  }

  /** Once a room is due for deletion it stays due as time goes on, and only an empty room is ever due. */
  lemma ShouldBeDeletedMonotone(room: Room, t: int, t': int)
    requires room.Valid() && room.ShouldBeDeleted(t) && t <= t'
    ensures room.ShouldBeDeleted(t') && room.IsEmpty()
  {
  }

  /** A room is due at now exactly when it was scheduled more than five minutes before now. */
  lemma ShouldBeDeletedWindow(room: Room, now: int)
    requires room.Valid()
    ensures room.ShouldBeDeleted(now) <==>
      (room.lastEmptyTime.Some? && room.lastEmptyTime.value < now - 300000)
  {
  }
}
