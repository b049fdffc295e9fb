/**
 * The Redis user store: a presence string "user:{id}:presence" with a
 * 30 s TTL and a session hash "user:{id}:session" with a 10-minute TTL.
 * A TTL is kept as the absolute expiry time in milliseconds; a key whose
 * expiry has passed reads as missing, which is what Redis's expiry does.
 */
module UserRedisRepository {
  import opened Wrappers
  import opened Strings
  import opened C2CException
  import opened Faults
  import opened User

  const USER_KEY_PREFIX: string := "user:"
  const PRESENCE_KEY_SUFFIX: string := ":presence"
  const SESSION_KEY_SUFFIX: string := ":session"
  const PRESENCE_TTL_MILLIS: int := 30 * 1000
  const SESSION_TTL_MILLIS: int := 10 * 60 * 1000

  /** The JDK's helpful NullPointerException message for `user.getJoinedAt().toString()`. */
  const JOINED_AT_NPE_TEXT: string :=
    "Cannot invoke \"java.time.LocalDateTime.toString()\" because the return value of \"com.c2c.c2c.domain.model.User.getJoinedAt()\" is null"

  /**
   * The four hash fields. A field written with a null value reads back as
   * null, so each is an Option.
   */
  datatype SessionHash = SessionHash(
    userId: Option<string>, sessionId: Option<string>, roomId: Option<string>, joinedAt: Option<int>)

  /** A hash and its expiry; None is a key without TTL. */
  datatype SessionEntry = SessionEntry(hash: SessionHash, expiresAt: Option<int>)

  predicate LiveAt(expiresAt: Option<int>, now: int)
  {
    expiresAt.None? || now < expiresAt.value
  }

  function GetPresenceKey(userId: string): (key: string)
    ensures MatchesKeyPattern(key, PRESENCE_KEY_SUFFIX)
  {
    USER_KEY_PREFIX + userId + PRESENCE_KEY_SUFFIX
  }

  function GetSessionKey(userId: string): (key: string)
    ensures MatchesKeyPattern(key, SESSION_KEY_SUFFIX)
  {
    USER_KEY_PREFIX + userId + SESSION_KEY_SUFFIX
  }

  /** The keys of the glob "user:*{suffix}". */
  predicate MatchesKeyPattern(key: string, suffix: string)
  {
    && |key| >= |USER_KEY_PREFIX| + |suffix|
    && StartsWith(key, USER_KEY_PREFIX)
    && EndsWith(key, suffix)
  }

  /** substring(5).replace(suffix, ""): every occurrence of the suffix is dropped, not only the last. */
  function ExtractUserId(key: string, suffix: string): string
    requires |key| >= |USER_KEY_PREFIX| && |suffix| > 0
  {
    ReplaceAll(key[|USER_KEY_PREFIX|..], suffix, "")
  }

  function ExtractUserIdFromPresenceKey(key: string): string
    requires |key| >= |USER_KEY_PREFIX|
  {
    ExtractUserId(key, PRESENCE_KEY_SUFFIX)
  }

  function ExtractUserIdFromSessionKey(key: string): string
    requires |key| >= |USER_KEY_PREFIX|
  {
    ExtractUserId(key, SESSION_KEY_SUFFIX)
  }

  /** Extraction inverts key construction for every id that does not itself contain the suffix. */
  lemma ExtractInvertsKey(userId: string, suffix: string)
    requires suffix == PRESENCE_KEY_SUFFIX || suffix == SESSION_KEY_SUFFIX
    requires !Contains(userId, suffix)
    ensures ExtractUserId(USER_KEY_PREFIX + userId + suffix, suffix) == userId
  {
    var key := USER_KEY_PREFIX + userId + suffix;
    assert key[|USER_KEY_PREFIX|..] == userId + suffix;
    ReplaceAllDropsSuffix(userId, suffix);
  }

  lemma PresenceKeyRoundTrip(userId: string)
    requires !Contains(userId, PRESENCE_KEY_SUFFIX)
    ensures ExtractUserIdFromPresenceKey(GetPresenceKey(userId)) == userId
  {
    ExtractInvertsKey(userId, PRESENCE_KEY_SUFFIX);
  }

  lemma SessionKeyRoundTrip(userId: string)
    requires !Contains(userId, SESSION_KEY_SUFFIX)
    ensures ExtractUserIdFromSessionKey(GetSessionKey(userId)) == userId
  {
    ExtractInvertsKey(userId, SESSION_KEY_SUFFIX);
  }

  /** An id that contains the suffix comes back shortened: "a:presence" is read back as "a". */
  lemma ExtractShortensSuffixedId()
    ensures ExtractUserIdFromPresenceKey(GetPresenceKey("a:presence")) == "a"
  {
    var t := PRESENCE_KEY_SUFFIX;
    var rest := "a:presence:presence";
    assert GetPresenceKey("a:presence")[5..] == rest;
    assert rest[..|t|] != t by { assert rest[0] == 'a' != t[0]; }
    assert rest[1..] == t + t;
    assert (t + t)[..|t|] == t && (t + t)[|t|..] == t;
    assert t[..|t|] == t && t[|t|..] == [];
    assert ReplaceAll(t, t, "") == [];
    assert ReplaceAll(t + t, t, "") == [];
    assert ReplaceAll(rest, t, "") == ['a'] + ReplaceAll(rest[1..], t, "");
  }

  /** The id a key matching the pattern was built from. */
  function KeyOwner(key: string, suffix: string): (userId: string)
    requires MatchesKeyPattern(key, suffix)
    ensures USER_KEY_PREFIX + userId + suffix == key
  {
    assert key == key[..5] + key[5..|key| - |suffix|] + key[|key| - |suffix|..];
    key[|USER_KEY_PREFIX|..|key| - |suffix|]
  }

  class UserRedisRepository {
    /** Session hashes by key. */
    var sessions: map<string, SessionEntry>
    /** Presence keys with their expiry time; the value is always "online". */
    var presence: map<string, int>

    constructor ()
      ensures sessions == map[] && presence == map[]
    {
      sessions := map[];
      presence := map[];
    }

    /** Every key was built by the key builders. */
    ghost predicate Valid()
      reads this
    {
      && (forall k :: k in sessions ==> MatchesKeyPattern(k, SESSION_KEY_SUFFIX))
      && (forall k :: k in presence ==> MatchesKeyPattern(k, PRESENCE_KEY_SUFFIX))
    }

    /** exists: hasKey on the session hash. */
    predicate Exists(userId: string, now: int)
      reads this
    {
      var key := GetSessionKey(userId);
      key in sessions && LiveAt(sessions[key].expiresAt, now)
    }

    /** isOnline: hasKey on the presence key. */
    predicate IsOnline(userId: string, now: int)
      reads this
    {
      var key := GetPresenceKey(userId);
      key in presence && now < presence[key]
    }

    /** The hash a live session key reads as; a missing or expired key reads as all null. */
    function SessionAt(userId: string, now: int): SessionHash
      reads this
    {
      if Exists(userId, now) then sessions[GetSessionKey(userId)].hash else SessionHash(None, None, None, None)
    }

    /** updatePresence: SETEX user:{id}:presence 30 online. */
    method UpdatePresence(userId: string, now: int)
      requires Valid()
      modifies this
      ensures Valid()
      ensures presence == old(presence)[GetPresenceKey(userId) := now + PRESENCE_TTL_MILLIS]
      ensures sessions == old(sessions)
      ensures forall t :: now <= t ==> (IsOnline(userId, t) <==> t < now + PRESENCE_TTL_MILLIS)
    {
      presence := presence[GetPresenceKey(userId) := now + PRESENCE_TTL_MILLIS];
    }

    /** markOffline: DEL of the presence key. */
    method MarkOffline(userId: string)
      requires Valid()
      modifies this
      ensures Valid()
      ensures presence == old(presence) - {GetPresenceKey(userId)}
      ensures sessions == old(sessions)
      ensures forall t :: !IsOnline(userId, t)
    {
      presence := presence - {GetPresenceKey(userId)};
    }

    /** delete: DEL of the session hash, then markOffline. */
    method Delete(userId: string)
      requires Valid()
      modifies this
      ensures Valid()
      ensures sessions == old(sessions) - {GetSessionKey(userId)}
      ensures presence == old(presence) - {GetPresenceKey(userId)}
      ensures forall t :: !Exists(userId, t) && !IsOnline(userId, t)
    {
      sessions := sessions - {GetSessionKey(userId)};
      MarkOffline(userId);
    }

    /**
     * save: four HSETs on the session hash, EXPIRE 10 minutes, then
     * updatePresence. A null joinedAt makes the fourth write throw a
     * NullPointerException after the first three have been stored.
     */
    method Save(user: User, now: int) returns (err: Option<Fault>)
      requires Valid()
      modifies this
      ensures Valid()
      ensures err.Some? <==> user.joinedAt.None?
      ensures err.Some? ==> err.value == NullPointer(JOINED_AT_NPE_TEXT)
      ensures var key := GetSessionKey(user.userId);
        var expiry := if old(Exists(user.userId, now)) then old(sessions)[key].expiresAt else None;
        var written := SessionHash(Some(user.userId), user.sessionId, user.roomId, old(SessionAt(user.userId, now)).joinedAt);
        err.Some? ==> sessions == old(sessions)[key := SessionEntry(written, expiry)] && presence == old(presence)
      ensures err.None? ==>
        && sessions == old(sessions)[GetSessionKey(user.userId) := SessionEntry(
             SessionHash(Some(user.userId), user.sessionId, user.roomId, user.joinedAt), Some(now + SESSION_TTL_MILLIS))]
        && presence == old(presence)[GetPresenceKey(user.userId) := now + PRESENCE_TTL_MILLIS]
      ensures err.None? ==> Exists(user.userId, now) && IsOnline(user.userId, now)
    {
      var key := GetSessionKey(user.userId);
      var entry := if Exists(user.userId, now) then sessions[key] else SessionEntry(SessionHash(None, None, None, None), None);
      entry := entry.(hash := entry.hash.(userId := Some(user.userId)));
      entry := entry.(hash := entry.hash.(sessionId := user.sessionId));
      entry := entry.(hash := entry.hash.(roomId := user.roomId));
      if user.joinedAt.None? {
        sessions := sessions[key := entry];
        return Some(NullPointer(JOINED_AT_NPE_TEXT));
      }
      entry := entry.(hash := entry.hash.(joinedAt := user.joinedAt));
      sessions := sessions[key := entry.(expiresAt := Some(now + SESSION_TTL_MILLIS))];
      UpdatePresence(user.userId, now);
      return None;
    }

    /**
     * findById: empty when the session hash or its sessionId is missing;
     * otherwise the user is rebuilt, which parses joinedAt (a null one
     * throws) and validates the id.
     */
    method FindById(userId: string, now: int) returns (r: Result<Option<User>, Fault>)
      ensures !Exists(userId, now) ==> r == Success(None)
      ensures Exists(userId, now) && SessionAt(userId, now).sessionId.None? ==> r == Success(None)
      ensures r.Success? && r.value.Some? ==>
        var h := SessionAt(userId, now);
        var u := r.value.value;
        && fresh(u) && u.Valid() && u.userId == userId
        && u.sessionId == h.sessionId && u.roomId == h.roomId && u.joinedAt == h.joinedAt
        && u.online && u.lastSeenAt == now
      ensures r.Success? && r.value.Some? <==>
        Exists(userId, now) && SessionAt(userId, now).sessionId.Some? &&
        SessionAt(userId, now).joinedAt.Some? && !IsBlank(userId)
      ensures r.Failure? && SessionAt(userId, now).joinedAt.None? ==> r.error.NullPointer?
      ensures r.Failure? && SessionAt(userId, now).joinedAt.Some? ==>
        r.error == Domain(UserException.InvalidUserId(Some(userId)))
    {
      if !Exists(userId, now) {
        return Success(None);
      }
      var h := sessions[GetSessionKey(userId)].hash;
      if h.sessionId.None? {
        return Success(None);
      }
      if h.joinedAt.None? {
        return Failure(NullPointer("text"));
      }
      var created := User.NewWithSession(Some(userId), h.sessionId, h.roomId, h.joinedAt, now);
      if created.Failure? {
        return Failure(Domain(created.error));
      }
      return Success(Some(created.value));
    }

    /** findOnlineUsers: the ids extracted from every live presence key. */
    function FindOnlineUsers(now: int): (users: set<string>)
      reads this
      requires Valid()
      ensures forall u :: IsOnline(u, now) && !Contains(u, PRESENCE_KEY_SUFFIX) ==> u in users
      ensures forall u :: u in users ==> exists x :: IsOnline(x, now) && ExtractUserIdFromPresenceKey(GetPresenceKey(x)) == u
    {
      var users := set k | k in presence && now < presence[k] :: ExtractUserIdFromPresenceKey(k);
      assert forall u :: IsOnline(u, now) && !Contains(u, PRESENCE_KEY_SUFFIX) ==> u in users by {
        forall u | IsOnline(u, now) && !Contains(u, PRESENCE_KEY_SUFFIX) ensures u in users {
          PresenceKeyRoundTrip(u);
        }
      }
      assert forall u :: u in users ==> exists x :: IsOnline(x, now) && ExtractUserIdFromPresenceKey(GetPresenceKey(x)) == u by {
        forall u | u in users
          ensures exists x :: IsOnline(x, now) && ExtractUserIdFromPresenceKey(GetPresenceKey(x)) == u
        {
          var k :| k in presence && now < presence[k] && ExtractUserIdFromPresenceKey(k) == u;
          var x := KeyOwner(k, PRESENCE_KEY_SUFFIX);
          assert GetPresenceKey(x) == k;
        }
      }
      users
    }

    /** findTimeoutUsers: the ids of live session keys whose presence key is missing. */
    function FindTimeoutUsers(now: int): (users: set<string>)
      reads this
      requires Valid()
      ensures forall u :: u in users ==> !IsOnline(u, now)
      ensures forall u :: Exists(u, now) && !IsOnline(u, now) && !Contains(u, SESSION_KEY_SUFFIX) ==> u in users
      ensures forall u :: u in users ==> exists x :: Exists(x, now) && ExtractUserIdFromSessionKey(GetSessionKey(x)) == u
    {
      var users := set k | k in sessions && LiveAt(sessions[k].expiresAt, now) && !IsOnline(ExtractUserIdFromSessionKey(k), now)
        :: ExtractUserIdFromSessionKey(k);
      assert forall u :: Exists(u, now) && !IsOnline(u, now) && !Contains(u, SESSION_KEY_SUFFIX) ==> u in users by {
        forall u | Exists(u, now) && !IsOnline(u, now) && !Contains(u, SESSION_KEY_SUFFIX) ensures u in users {
          SessionKeyRoundTrip(u);
        }
      }
      assert forall u :: u in users ==> exists x :: Exists(x, now) && ExtractUserIdFromSessionKey(GetSessionKey(x)) == u by {
        forall u | u in users
          ensures exists x :: Exists(x, now) && ExtractUserIdFromSessionKey(GetSessionKey(x)) == u
        {
          var k :| k in sessions && LiveAt(sessions[k].expiresAt, now) && !IsOnline(ExtractUserIdFromSessionKey(k), now)
            && ExtractUserIdFromSessionKey(k) == u;
          var x := KeyOwner(k, SESSION_KEY_SUFFIX);
          assert GetSessionKey(x) == k;
        }
      }
      users
    }
  }
}
