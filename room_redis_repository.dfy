/**
 * The Redis room store. Each room is one set key "room:{id}:members"
 * holding the member ids; an optional TTL (seconds) is armed when the last
 * member leaves. Expiry itself needs a clock and is not part of this model,
 * and neither is Redis's own removal of a key whose set became empty.
 */
module RoomRedisRepository {
  import opened Wrappers
  import opened Strings
  import opened C2CException
  import opened Room
  import RoomException

  const ROOM_MEMBERS_KEY_PREFIX: string := "room:"
  const ROOM_MEMBERS_KEY_SUFFIX: string := ":members"
  const EMPTY_ROOM_TTL_SECONDS: int := 300

  /** The value behind one key: the set and its TTL (None = persistent). */
  datatype SetKey = SetKey(members: set<string>, ttl: Option<int>)

  function RoomMembersKey(roomId: string): (key: string)
    ensures IsRoomMembersKey(key)
  {
    ROOM_MEMBERS_KEY_PREFIX + roomId + ROOM_MEMBERS_KEY_SUFFIX
  }

  /** The keys the pattern "room:*:members" matches. */
  predicate IsRoomMembersKey(key: string)
  {
    && |key| >= |ROOM_MEMBERS_KEY_PREFIX| + |ROOM_MEMBERS_KEY_SUFFIX|
    && StartsWith(key, ROOM_MEMBERS_KEY_PREFIX)
    && EndsWith(key, ROOM_MEMBERS_KEY_SUFFIX)
  }

  /** The substring between prefix and suffix, as findEmptyRooms extracts it. */
  function RoomIdOfKey(key: string): string
    requires IsRoomMembersKey(key)
  {
    key[|ROOM_MEMBERS_KEY_PREFIX|..|key| - |ROOM_MEMBERS_KEY_SUFFIX|]
  }

  /** Extraction inverts key construction, for every room id. */
  lemma RoomIdOfKeyInverts(roomId: string)
    ensures RoomIdOfKey(RoomMembersKey(roomId)) == roomId
  {
    var key := RoomMembersKey(roomId);
    assert key[5..|key| - 8] == roomId;
  }

  /** And construction inverts extraction on every key the pattern matches. */
  lemma RoomMembersKeyInverts(key: string)
    requires IsRoomMembersKey(key)
    ensures RoomMembersKey(RoomIdOfKey(key)) == key
  {
    assert key == key[..5] + key[5..|key| - 8] + key[|key| - 8..];
  }

  /** The condition of findEmptyRooms: no members and a positive TTL. */
  predicate EmptyWithTtl(v: SetKey)
  {
    v.members == {} && v.ttl.Some? && v.ttl.value > 0
  }

  class RoomRedisRepository {
    /** The Redis key space as far as rooms are concerned. */
    var data: map<string, SetKey>

    constructor ()
      ensures data == map[]
    {
      data := map[];
    }

    /** SMEMBERS: a missing key reads as the empty set. */
    function GetMembers(roomId: string): (members: set<string>)
      reads this
      ensures RoomMembersKey(roomId) in data ==> members == data[RoomMembersKey(roomId)].members
      ensures RoomMembersKey(roomId) !in data ==> members == {}
    {
      var key := RoomMembersKey(roomId);
      if key in data then data[key].members else {}
    }

    /** EXISTS on the room's key. */
    predicate Exists(roomId: string)
      reads this
    {
      RoomMembersKey(roomId) in data
    }

    /** The TTL invariant the room services keep: only an empty set ever carries a TTL. */
    ghost predicate TtlOnlyOnEmpty()
      reads this
    {
      forall k :: k in data && data[k].ttl.Some? ==> data[k].members == {}
    }

    /** save: nothing is written; the set key itself is the room. */
    method Save(room: Room) returns (saved: Room)
      ensures saved == room
    {
      return room;
    }

    /** DEL of the room's key. */
    method Delete(roomId: string)
      modifies this
      ensures data == old(data) - {RoomMembersKey(roomId)}
      ensures !Exists(roomId)
    {
      data := data - {RoomMembersKey(roomId)};
    }

    /** SADD then PERSIST: the user is a member and the key has no TTL. */
    method AddMember(roomId: string, userId: string)
      modifies this
      ensures data == old(data)[RoomMembersKey(roomId) := SetKey(old(GetMembers(roomId)) + {userId}, None)]
      ensures Exists(roomId) && userId in GetMembers(roomId)
      ensures old(TtlOnlyOnEmpty()) ==> TtlOnlyOnEmpty()
    {
      var key := RoomMembersKey(roomId);
      var members := if key in data then data[key].members else {};
      var ttl := if key in data then data[key].ttl else None;
      data := data[key := SetKey(members + {userId}, ttl)];
      Persist(key);
    }

    /** PERSIST on a key; a missing key is left missing. */
    method Persist(key: string)
      modifies this
      ensures key in old(data) ==> data == old(data)[key := SetKey(old(data)[key].members, None)]
      ensures key !in old(data) ==> data == old(data)
    {
      if key in data {
        data := data[key := SetKey(data[key].members, None)];
      }
    }

    /**
     * The atomic leave script: SREM, then SCARD, and EXPIRE ttl when the
     * removal emptied the set. The result list is {removed, memberCount, ttlSet}.
     */
    method RunLeaveScript(key: string, userId: string, ttl: int) returns (result: seq<int>)
      modifies this
      ensures |result| == 3
      ensures var was := if key in old(data) then old(data)[key].members else {};
        && result[0] == (if userId in was then 1 else 0)
        && result[1] == |was - {userId}|
        && result[2] == (if userId in was && was == {userId} then 1 else 0)
      ensures key !in old(data) || userId !in old(data)[key].members ==> data == old(data)
      ensures key in old(data) && userId in old(data)[key].members ==>
        data == old(data)[key := SetKey(old(data)[key].members - {userId},
          if old(data)[key].members == {userId} then Some(ttl) else old(data)[key].ttl)]
    {
      var removed := 0;
      if key in data && userId in data[key].members {
        data := data[key := SetKey(data[key].members - {userId}, data[key].ttl)];
        removed := 1;
      }
      var memberCount := if key in data then |data[key].members| else 0;
      if removed == 1 {
        if memberCount == 0 {
          data := data[key := SetKey(data[key].members, Some(ttl))];
          assert data[key].members == {};
          return [removed, memberCount, 1];
        } else {
          return [removed, memberCount, 0];
        }
      } else {
        return [removed, memberCount, 0];
      }
    }

    /**
     * removeMember: runs the script with the 300 s TTL. The last member's
     * removal arms the TTL; any other removal keeps it; a non-member changes nothing.
     */
    method RemoveMember(roomId: string, userId: string) returns (result: seq<int>)
      modifies this
      ensures var was := old(GetMembers(roomId));
        && result == [if userId in was then 1 else 0, |was - {userId}|, if was == {userId} then 1 else 0]
      ensures userId !in old(GetMembers(roomId)) ==> data == old(data)
      ensures userId in old(GetMembers(roomId)) ==>
        data == old(data)[RoomMembersKey(roomId) := SetKey(old(GetMembers(roomId)) - {userId},
          if old(GetMembers(roomId)) == {userId} then Some(EMPTY_ROOM_TTL_SECONDS)
          else old(data)[RoomMembersKey(roomId)].ttl)]
      ensures old(TtlOnlyOnEmpty()) ==> TtlOnlyOnEmpty()
    {
      result := RunLeaveScript(RoomMembersKey(roomId), userId, EMPTY_ROOM_TTL_SECONDS);
    }

    /** EXPIRE on the room's key; a missing key stays missing. */
    method SetTtl(roomId: string, seconds: int)
      modifies this
      ensures Exists(roomId) == old(Exists(roomId)) && GetMembers(roomId) == old(GetMembers(roomId))
      ensures old(Exists(roomId)) ==>
        data == old(data)[RoomMembersKey(roomId) := SetKey(old(GetMembers(roomId)), Some(seconds))]
      ensures !old(Exists(roomId)) ==> data == old(data)
      ensures old(TtlOnlyOnEmpty()) && GetMembers(roomId) == {} ==> TtlOnlyOnEmpty()
    {
      var key := RoomMembersKey(roomId);
      if key in data {
        data := data[key := SetKey(data[key].members, Some(seconds))];
      }
    }

    /** PERSIST on the room's key. */
    method RemoveTtl(roomId: string)
      modifies this
      ensures old(Exists(roomId)) ==>
        data == old(data)[RoomMembersKey(roomId) := SetKey(old(GetMembers(roomId)), None)]
      ensures !old(Exists(roomId)) ==> data == old(data)
      ensures old(TtlOnlyOnEmpty()) ==> TtlOnlyOnEmpty()
    {
      Persist(RoomMembersKey(roomId));
    }

    /** The outcome findById promises for a stored room: it can be rebuilt when no id involved is blank. */
    predicate Rebuildable(roomId: string)
      reads this
    {
      Exists(roomId) && !IsBlank(roomId) && forall m :: m in GetMembers(roomId) ==> !IsBlank(m)
    }

    /**
     * findById: a missing key gives an empty Optional; otherwise a new Room
     * is built and every member is added to it, which throws on a blank id.
     * The TTL is read but never turned into a deletion schedule.
     */
    method FindById(roomId: string) returns (r: Result<Option<Room>, C2CError>)
      ensures !Exists(roomId) ==> r == Success(None)
      ensures Exists(roomId) && IsBlank(roomId) ==> r == Failure(RoomException.InvalidRoomId(Some(roomId)))
      ensures Exists(roomId) && !IsBlank(roomId) && !Rebuildable(roomId) ==>
        r.Failure? && r.error.errorCode == "INVALID_USER_ID" &&
        exists m :: m in GetMembers(roomId) && IsBlank(m) && r.error.parameters == Some([Param.Text(Some(m))])
      ensures Rebuildable(roomId) <==> r.Success? && r.value.Some?
      ensures r.Success? && r.value.Some? ==>
        var room := r.value.value;
        && fresh(room) && room.Valid() && room.roomId == roomId
        && room.members == GetMembers(roomId)
        && !room.isScheduledForDeletion && room.lastEmptyTime.None?
    {
      if !Exists(roomId) {
        return Success(None);
      }
      var created := Room.New(Some(roomId));
      if created.Failure? {
        return Failure(created.error);
      }
      var room := created.value;
      var members := GetMembers(roomId);
      var remaining := members;
      while remaining != {}
        invariant remaining <= members
        invariant fresh(room) && room.Valid() && room.roomId == roomId
        invariant room.members == members - remaining
        invariant !room.isScheduledForDeletion && room.lastEmptyTime.None?
        invariant forall m :: m in members - remaining ==> !IsBlank(m)
        decreases remaining
      {
        var m :| m in remaining;
        var err := room.AddMember(Some(m));
        if err.Some? {
          return Failure(err.value);
        }
        remaining := remaining - {m};
      }
      return Success(Some(room));
    }

    /**
     * findEmptyRooms: over every key matching "room:*:members", the rooms
     * with no members and a positive TTL, by their extracted id.
     */
    method FindEmptyRooms() returns (emptyRooms: set<string>)
      ensures forall r :: r in emptyRooms <==> Exists(r) && EmptyWithTtl(data[RoomMembersKey(r)])
    {
      var keys := set k | k in data && IsRoomMembersKey(k);
      var remaining := keys;
      emptyRooms := {};
      while remaining != {}
        invariant remaining <= keys
        invariant forall r :: r in emptyRooms <==>
          RoomMembersKey(r) in keys - remaining && EmptyWithTtl(data[RoomMembersKey(r)])
        decreases remaining
      {
        var key :| key in remaining;
        var memberCount := |data[key].members|;
        var ttl := data[key].ttl;
        if memberCount == 0 && ttl.Some? && ttl.value > 0 {
          var roomId := RoomIdOfKey(key);
          RoomMembersKeyInverts(key);
          emptyRooms := emptyRooms + {roomId};
        }
        remaining := remaining - {key};
        forall r | RoomMembersKey(r) == key ensures r == RoomIdOfKey(key) {
          RoomIdOfKeyInverts(r);
        }
      }
    }
  }
}
