/**
 * The user entity: an id fixed at construction, optional session, room and
 * profile fields, and an online flag kept together with the time of the
 * last heartbeat. Clock values are milliseconds.
 */
module User {
  import opened Wrappers
  import opened Strings
  import opened C2CException
  import UserException

  const PRESENCE_TIMEOUT_SECONDS: int := 30
  const PRESENCE_TIMEOUT_MILLIS: int := PRESENCE_TIMEOUT_SECONDS * 1000

  class User {
    const userId: string
    var sessionId: Option<string>
    var roomId: Option<string>
    var nickname: Option<string>
    var emoji: Option<string>
    var lastSeenAt: int
    var joinedAt: Option<int>
    var online: bool

    ghost predicate Valid()
      reads this
    {
      !IsBlank(userId)
    }

    /** new User(userId): online, last seen now, every optional field null. */
    constructor (userId: string, now: int)
      requires !IsBlank(userId)
      ensures Valid() && this.userId == userId
      ensures online && lastSeenAt == now
      ensures sessionId.None? && roomId.None? && nickname.None? && emoji.None? && joinedAt.None?
    {
      this.userId := userId;
      sessionId := None;
      roomId := None;
      nickname := None;
      emoji := None;
      lastSeenAt := now;
      joinedAt := None;
      online := true;
    }

    /** The one-argument constructor: a null or blank id throws INVALID_USER_ID. */
    static method New(userId: Option<string>, now: int) returns (r: Result<User, C2CError>)
      ensures r.Failure? <==> NullOrBlank(userId)
      ensures r.Failure? ==> r.error == UserException.InvalidUserId(userId)
      ensures r.Success? ==> fresh(r.value) && r.value.Valid() && r.value.userId == userId.value
      ensures r.Success? ==> r.value.online && r.value.lastSeenAt == now
      ensures r.Success? ==> r.value.sessionId.None? && r.value.roomId.None? && r.value.joinedAt.None?
      ensures r.Success? ==> r.value.nickname.None? && r.value.emoji.None?
    {
      if NullOrBlank(userId) {
        return Failure(UserException.InvalidUserId(userId));
      }
      var user := new User(userId.value, now);
      return Success(user);
    }

    /** new User(userId, sessionId, roomId, joinedAt). */
    static method NewWithSession(userId: Option<string>, sessionId: Option<string>, roomId: Option<string>,
                                 joinedAt: Option<int>, now: int) returns (r: Result<User, C2CError>)
      ensures r.Failure? <==> NullOrBlank(userId)
      ensures r.Failure? ==> r.error == UserException.InvalidUserId(userId)
      ensures r.Success? ==> fresh(r.value) && r.value.Valid() && r.value.userId == userId.value
      ensures r.Success? ==> r.value.online && r.value.lastSeenAt == now
      ensures r.Success? ==> r.value.sessionId == sessionId && r.value.roomId == roomId && r.value.joinedAt == joinedAt
      ensures r.Success? ==> r.value.nickname.None? && r.value.emoji.None?
    {
      r := New(userId, now);
      if r.Success? {
        r.value.sessionId := sessionId;
        r.value.roomId := roomId;
        r.value.joinedAt := joinedAt;
      }
    }

    /** new User(userId, nickname, emoji): session, room and joinedAt stay null. */
    static method NewWithProfile(userId: Option<string>, nickname: Option<string>, emoji: Option<string>,
                                 now: int) returns (r: Result<User, C2CError>)
      ensures r.Failure? <==> NullOrBlank(userId)
      ensures r.Failure? ==> r.error == UserException.InvalidUserId(userId)
      ensures r.Success? ==> fresh(r.value) && r.value.Valid() && r.value.userId == userId.value
      ensures r.Success? ==> r.value.online && r.value.lastSeenAt == now
      ensures r.Success? ==> r.value.nickname == nickname && r.value.emoji == emoji
      ensures r.Success? ==> r.value.sessionId.None? && r.value.roomId.None? && r.value.joinedAt.None?
    {
      r := New(userId, now);
      if r.Success? {
        r.value.nickname := nickname;
        r.value.emoji := emoji;
      }
    }

    /** updateHeartbeat: seen now and online again. */
    method UpdateHeartbeat(now: int)
      modifies this
      ensures lastSeenAt == now && online
      ensures sessionId == old(sessionId) && roomId == old(roomId) && joinedAt == old(joinedAt)
      ensures nickname == old(nickname) && emoji == old(emoji)
      ensures forall t :: OnlineAt(t) <==> t <= now + PRESENCE_TIMEOUT_MILLIS
    {
      lastSeenAt := now;
      online := true;
    }

    method MarkOffline()
      modifies this
      ensures !online && lastSeenAt == old(lastSeenAt)
      ensures sessionId == old(sessionId) && roomId == old(roomId) && joinedAt == old(joinedAt)
      ensures nickname == old(nickname) && emoji == old(emoji)
      ensures forall t :: !OnlineAt(t)
    {
      online := false;
    }

    /** The answer isOnline gives at `now`: the flag is set and the last heartbeat is at most 30 s old. */
    predicate OnlineAt(now: int)
      reads this
    {
      online && !(lastSeenAt < now - PRESENCE_TIMEOUT_MILLIS)
    }

    /** isOnline: a timed-out user is marked offline on the way, so the flag then equals the answer. */
    method IsOnline(now: int) returns (b: bool)
      modifies this
      ensures b == old(OnlineAt(now))
      ensures online == b && lastSeenAt == old(lastSeenAt)
      // a false answer sticks at every clock reading until the next heartbeat,
      // and a true one also holds for every earlier reading
      ensures !b ==> forall t :: !OnlineAt(t)
      ensures b ==> forall t :: t <= now ==> OnlineAt(t)
      ensures sessionId == old(sessionId) && roomId == old(roomId) && joinedAt == old(joinedAt)
      ensures nickname == old(nickname) && emoji == old(emoji)
    {
      if !online {
        return false;
      }
      var timeoutThreshold := now - PRESENCE_TIMEOUT_MILLIS;
      if lastSeenAt < timeoutThreshold {
        MarkOffline();
        return false;
      }
      return true;
    }

    /** getDisplayName, over this user's profile and id. */
    function GetDisplayName(): (name: string)
      reads this
      ensures name == userId || nickname == Some(name) || emoji == Some(name)
      ensures Valid() ==> !IsBlank(name)
    {
      var name := DisplayName(nickname, emoji, userId);
      assert !IsBlank(userId) ==> !IsBlank(name) by {
        if !IsBlank(userId) { DisplayNameNeverBlank(nickname, emoji, userId); }
      }
      name
    }

    /** getId and getUserId both read the id, which is never blank. */
    function GetId(): (id: string)
      reads this
      ensures Valid() ==> !IsBlank(id)
    {
      userId
    }

    function GetUserId(): (id: string)
      reads this
      ensures id == GetId()
    {
      userId
    }
  }

  /** The display-name rule: a non-blank nickname, else a non-blank emoji, else the id. */
  function DisplayName(nickname: Option<string>, emoji: Option<string>, userId: string): (name: string)
    ensures !NullOrBlank(nickname) ==> name == nickname.value
    ensures NullOrBlank(nickname) && !NullOrBlank(emoji) ==> name == emoji.value
    ensures NullOrBlank(nickname) && NullOrBlank(emoji) ==> name == userId
  {
    if !NullOrBlank(nickname) then nickname.value
    else if !NullOrBlank(emoji) then emoji.value
    else userId
  }

  /** A user with a non-blank id always has a non-blank display name, drawn from its own profile or id. */
  lemma DisplayNameNeverBlank(nickname: Option<string>, emoji: Option<string>, userId: string)
    requires !IsBlank(userId)
    ensures !IsBlank(DisplayName(nickname, emoji, userId))
    ensures var name := DisplayName(nickname, emoji, userId);
      name == userId || (nickname.Some? && name == nickname.value) || (emoji.Some? && name == emoji.value)
  {
  }
}
