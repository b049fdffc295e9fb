/**
 * Presence rules over the user store: a 10 s heartbeat interval and a
 * 30 s presence timeout, both enforced through the presence key's TTL.
 */
module UserService {
  import opened Wrappers
  import opened Strings
  import opened C2CException
  import opened User
  import opened UserRedisRepository
  import UserException

  const HEARTBEAT_INTERVAL_SECONDS: int := 10
  const SERVICE_PRESENCE_TIMEOUT_SECONDS: int := 30

  /**
   * After a heartbeat at t (updateHeartbeat on the entity, updatePresence in
   * the store) the entity's isOnline and the store's presence key agree for
   * the service's whole 30 s timeout and after it, except at the very
   * millisecond t + 30 s, where the entity still answers online and the key
   * has expired.
   */
  lemma PresenceAgreesWithEntity(repo: UserRedisRepository, u: User, t: int)
    requires GetPresenceKey(u.userId) in repo.presence && repo.presence[GetPresenceKey(u.userId)] == t + PRESENCE_TTL_MILLIS
    requires u.online && u.lastSeenAt == t
    ensures forall t' :: t <= t' < t + SERVICE_PRESENCE_TIMEOUT_SECONDS * 1000 ==>
      repo.IsOnline(u.userId, t') && u.OnlineAt(t')
    ensures forall t' :: t' > t + SERVICE_PRESENCE_TIMEOUT_SECONDS * 1000 ==>
      !repo.IsOnline(u.userId, t') && !u.OnlineAt(t')
    ensures u.OnlineAt(t + SERVICE_PRESENCE_TIMEOUT_SECONDS * 1000)
    ensures !repo.IsOnline(u.userId, t + SERVICE_PRESENCE_TIMEOUT_SECONDS * 1000)
  {
  }

  class UserService {
    const userRepository: UserRedisRepository

    constructor (userRepository: UserRedisRepository)
      ensures this.userRepository == userRepository
    {
      this.userRepository := userRepository;
    }

    /** registerUser: the profile user is validated first, then presence is refreshed. */
    method RegisterUser(userId: Option<string>, nickname: Option<string>, emoji: Option<string>, now: int)
      returns (r: Result<User, C2CError>)
      requires userRepository.Valid()
      modifies userRepository
      ensures userRepository.Valid()
      ensures r.Failure? <==> NullOrBlank(userId)
      ensures r.Failure? ==> r.error == UserException.InvalidUserId(userId) && unchanged(userRepository)
      ensures r.Success? ==> fresh(r.value) && r.value.userId == userId.value
      ensures r.Success? ==> r.value.nickname == nickname && r.value.emoji == emoji && r.value.online
      ensures r.Success? ==>
        userRepository.presence == old(userRepository.presence)[GetPresenceKey(userId.value) := now + PRESENCE_TTL_MILLIS]
      ensures userRepository.sessions == old(userRepository.sessions)
    {
      r := User.NewWithProfile(userId, nickname, emoji, now);
      if r.Success? {
        userRepository.UpdatePresence(userId.value, now);
      }
    }

    /** processHeartbeat: an unknown user is USER_NOT_FOUND and nothing changes; otherwise presence is refreshed. */
    method ProcessHeartbeat(userId: string, now: int) returns (err: Option<C2CError>)
      requires userRepository.Valid()
      modifies userRepository
      ensures userRepository.Valid()
      ensures err.Some? <==> !old(userRepository.Exists(userId, now))
      ensures err.Some? ==> err.value == UserException.UserNotFound(Some(userId)) && unchanged(userRepository)
      ensures err.None? ==>
        userRepository.presence == old(userRepository.presence)[GetPresenceKey(userId) := now + PRESENCE_TTL_MILLIS]
      ensures err.None? ==> forall t :: now <= t ==> (userRepository.IsOnline(userId, t) <==> t < now + PRESENCE_TTL_MILLIS)
      ensures userRepository.sessions == old(userRepository.sessions)
    {
      if !userRepository.Exists(userId, now) {
        return Some(UserException.UserNotFound(Some(userId)));
      }
      userRepository.UpdatePresence(userId, now);
      return None;
    }

    predicate IsUserOnline(userId: string, now: int)
      reads this, userRepository
    {
      userRepository.IsOnline(userId, now)
    }

    method MarkUserOffline(userId: string)
      requires userRepository.Valid()
      modifies userRepository
      ensures userRepository.Valid()
      ensures userRepository.presence == old(userRepository.presence) - {GetPresenceKey(userId)}
      ensures userRepository.sessions == old(userRepository.sessions)
    {
      userRepository.MarkOffline(userId);
    }

    /** getUserInfo: USER_NOT_FOUND for an unknown user; the rebuilt user is offline exactly when presence is absent. */
    method GetUserInfo(userId: string, now: int) returns (r: Result<User, C2CError>)
      ensures !userRepository.Exists(userId, now) ==> r == Failure(UserException.UserNotFound(Some(userId)))
      ensures userRepository.Exists(userId, now) && IsBlank(userId) ==>
        r == Failure(UserException.InvalidUserId(Some(userId)))
      ensures r.Success? <==> userRepository.Exists(userId, now) && !IsBlank(userId)
      ensures r.Success? ==> fresh(r.value) && r.value.userId == userId
      ensures r.Success? ==> (r.value.online <==> userRepository.IsOnline(userId, now))
    {
      if !userRepository.Exists(userId, now) {
        return Failure(UserException.UserNotFound(Some(userId)));
      }
      var isOnline := userRepository.IsOnline(userId, now);
      r := User.New(Some(userId), now);
      if r.Success? && !isOnline {
        r.value.MarkOffline();
      }
    }

    function GetOnlineUsers(now: int): (users: set<string>)
      reads this, userRepository
      requires userRepository.Valid()
      ensures forall u :: IsUserOnline(u, now) && !Contains(u, PRESENCE_KEY_SUFFIX) ==> u in users
    {
      userRepository.FindOnlineUsers(now)
    }

    /** cleanupTimeoutUsers: every user findTimeoutUsers reports is marked offline. */
    method CleanupTimeoutUsers(now: int)
      requires userRepository.Valid()
      modifies userRepository
      ensures userRepository.Valid()
      ensures userRepository.sessions == old(userRepository.sessions)
      ensures userRepository.presence == old(userRepository.presence) - PresenceKeysOf(old(userRepository.FindTimeoutUsers(now)))
      ensures forall u :: u in old(userRepository.FindTimeoutUsers(now)) ==> forall t :: !userRepository.IsOnline(u, t)
    {
      var timedOut := userRepository.FindTimeoutUsers(now);
      var pending := timedOut;
      while pending != {}
        invariant pending <= timedOut
        invariant userRepository.Valid()
        invariant userRepository.sessions == old(userRepository.sessions)
        invariant userRepository.presence == old(userRepository.presence) - PresenceKeysOf(timedOut - pending)
        decreases pending
      {
        var userId :| userId in pending;
        ghost var done := timedOut - pending;
        userRepository.MarkOffline(userId);
        pending := pending - {userId};
        assert timedOut - pending == done + {userId};
        PresenceKeysStep(old(userRepository.presence), done, userId);
      }
      forall u, t | u in timedOut
        ensures !userRepository.IsOnline(u, t)
      {
        assert GetPresenceKey(u) in PresenceKeysOf(timedOut);
      }
    }

    /** disconnectUser: delete only a user that exists; otherwise a no-op. */
    method DisconnectUser(userId: string, now: int)
      requires userRepository.Valid()
      modifies userRepository
      ensures userRepository.Valid()
      ensures old(userRepository.Exists(userId, now)) ==>
        userRepository.sessions == old(userRepository.sessions) - {GetSessionKey(userId)} &&
        userRepository.presence == old(userRepository.presence) - {GetPresenceKey(userId)}
      ensures !old(userRepository.Exists(userId, now)) ==> unchanged(userRepository)
    {
      if userRepository.Exists(userId, now) {
        userRepository.Delete(userId);
      }
    }

    function GetHeartbeatInterval(): (seconds: int)
      ensures seconds * 3 == GetPresenceTimeout()
    {
      HEARTBEAT_INTERVAL_SECONDS
    }

    function GetPresenceTimeout(): (seconds: int)
      ensures seconds * 1000 == PRESENCE_TTL_MILLIS
    {
      SERVICE_PRESENCE_TIMEOUT_SECONDS
    }
  }

  /** The presence keys of a set of users. */
  function PresenceKeysOf(users: set<string>): set<string>
  {
    set u | u in users :: GetPresenceKey(u)
  }

  lemma PresenceKeysStep(presence: map<string, int>, done: set<string>, u: string)
    ensures (presence - PresenceKeysOf(done)) - {GetPresenceKey(u)} == presence - PresenceKeysOf(done + {u})
  {
    assert PresenceKeysOf(done + {u}) == PresenceKeysOf(done) + {GetPresenceKey(u)};
  }
}
