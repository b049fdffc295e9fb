/**
 * The registry of live WebSocket sessions: session id to user, user to
 * session, and user to room, with one session per user. A session is
 * represented by its id; whether it is still open is the set `open`,
 * which belongs to the transport and is passed in.
 */
module WebSocketSessionManager {
  import opened Wrappers
  import opened Sets

  datatype SessionStats = SessionStats(totalSessions: int, activeSessions: int)
  {
    function GetInactiveSessions(): int { totalSessions - activeSessions }
  }

  class WebSocketSessionManager {
    var sessionToUserId: map<string, string>
    var userToSession: map<string, string>
    var userToRoom: map<string, string>

    /**
     * Every bound session id points at a user whose current session it is,
     * and exactly the users with a session have a room. The converse (every
     * user's session maps back to that user) is not kept: a session that
     * registers a second user takes the session id over, and the first
     * user's entry then names a session bound to someone else.
     */
    ghost predicate Valid()
      reads this
    {
      && (forall s :: s in sessionToUserId ==>
            sessionToUserId[s] in userToSession && userToSession[sessionToUserId[s]] == s)
      && userToRoom.Keys == userToSession.Keys
    }

    constructor ()
      ensures Valid()
      ensures sessionToUserId == map[] && userToSession == map[] && userToRoom == map[]
    {
      sessionToUserId := map[];
      userToSession := map[];
      userToRoom := map[];
    }

    function GetSession(userId: string): (s: Option<string>)
      reads this
      ensures s.Some? <==> userId in userToSession
      ensures s.Some? ==> s.value == userToSession[userId]
    {
      if userId in userToSession then Some(userToSession[userId]) else None
    }

    function GetUserId(sessionId: string): (u: Option<string>)
      reads this
      ensures u.Some? <==> sessionId in sessionToUserId
      ensures u.Some? ==> u.value == sessionToUserId[sessionId]
    {
      if sessionId in sessionToUserId then Some(sessionToUserId[sessionId]) else None
    }

    function GetRoomId(userId: string): (r: Option<string>)
      reads this
      ensures r.Some? <==> userId in userToRoom
      ensures r.Some? ==> r.value == userToRoom[userId]
    {
      if userId in userToRoom then Some(userToRoom[userId]) else None
    }

    /** Under the invariant, the user a session id names has that session as its own. */
    lemma SessionOfItsUser(sessionId: string)
      requires Valid() && sessionId in sessionToUserId
      ensures GetSession(sessionToUserId[sessionId]) == Some(sessionId)
      ensures GetRoomId(sessionToUserId[sessionId]).Some?
    {
      assert sessionToUserId[sessionId] in userToRoom.Keys;
    }

    /**
     * registerSession: the user's earlier session is dropped first, then
     * all three entries are written.
     */
    method RegisterSession(sessionId: string, userId: string, roomId: string)
      requires Valid()
      modifies this
      ensures Valid()
      ensures GetUserId(sessionId) == Some(userId) && GetSession(userId) == Some(sessionId)
      ensures GetRoomId(userId) == Some(roomId)
      ensures userId in old(userToSession) && old(userToSession[userId]) != sessionId ==>
        old(userToSession[userId]) !in sessionToUserId
      ensures sessionToUserId == (old(sessionToUserId) - (if userId in old(userToSession) then {old(userToSession[userId])} else {}))[sessionId := userId]
      ensures userToSession == old(userToSession)[userId := sessionId]
      ensures userToRoom == old(userToRoom)[userId := roomId]
    {
      ghost var dropped := if userId in userToSession then {userToSession[userId]} else {};
      var _ := RemoveUserSession(userId);
      assert sessionToUserId == old(sessionToUserId) - dropped;
      assert userId !in userToSession;
      sessionToUserId := sessionToUserId[sessionId := userId];
      userToSession := userToSession[userId := sessionId];
      userToRoom := userToRoom[userId := roomId];
    }

    /** removeSession: unbinds the session and its user; an unknown id changes nothing. */
    method RemoveSession(sessionId: string) returns (userId: Option<string>)
      requires Valid()
      modifies this
      ensures Valid()
      ensures userId == old(GetUserId(sessionId))
      ensures userId.None? ==> sessionToUserId == old(sessionToUserId) && userToSession == old(userToSession) && userToRoom == old(userToRoom)
      ensures userId.Some? ==>
        && sessionToUserId == old(sessionToUserId) - {sessionId}
        && userToSession == old(userToSession) - {userId.value}
        && userToRoom == old(userToRoom) - {userId.value}
    {
      if sessionId in sessionToUserId {
        var u := sessionToUserId[sessionId];
        sessionToUserId := sessionToUserId - {sessionId};
        userToSession := userToSession - {u};
        userToRoom := userToRoom - {u};
        return Some(u);
      }
      return None;
    }

    /** removeUserSession: unbinds the user and its session; an unknown user changes nothing. */
    method RemoveUserSession(userId: string) returns (sessionId: Option<string>)
      requires Valid()
      modifies this
      ensures Valid()
      ensures sessionId == old(GetSession(userId))
      ensures sessionId.None? ==> sessionToUserId == old(sessionToUserId) && userToSession == old(userToSession) && userToRoom == old(userToRoom)
      ensures sessionId.Some? ==>
        && sessionToUserId == old(sessionToUserId) - {sessionId.value}
        && userToSession == old(userToSession) - {userId}
        && userToRoom == old(userToRoom) - {userId}
      ensures GetSession(userId).None? && GetRoomId(userId).None?
    {
      if userId in userToSession {
        var s := userToSession[userId];
        userToSession := userToSession - {userId};
        sessionToUserId := sessionToUserId - {s};
        userToRoom := userToRoom - {userId};
        return Some(s);
      }
      return None;
    }

    predicate IsUserOnline(userId: string, open: set<string>)
      reads this
    {
      userId in userToSession && userToSession[userId] in open
    }

    function GetUsersInRoom(roomId: string): (users: set<string>)
      reads this
      ensures users <= userToRoom.Keys
      ensures forall u :: u in users <==> GetRoomId(u) == Some(roomId)
    {
      set u | u in userToRoom && userToRoom[u] == roomId
    }

    /** The open sessions of the room's users; a user without a session contributes nothing. */
    function GetActiveSessionsInRoom(roomId: string, open: set<string>): (sessions: set<string>)
      reads this
      ensures sessions <= open
      ensures forall s :: s in sessions <==>
        exists u :: u in GetUsersInRoom(roomId) && GetSession(u) == Some(s) && s in open
    {
      set u, s | u in GetUsersInRoom(roomId) && u in userToSession && s == userToSession[u] && s in open :: s
    }

    function GetAllActiveUsers(open: set<string>): (users: set<string>)
      reads this
      ensures forall u :: u in users <==> IsUserOnline(u, open)
    {
      set u | u in userToSession && userToSession[u] in open
    }

    /** The users whose session is closed. */
    function InactiveUsers(open: set<string>): (users: set<string>)
      reads this
      ensures forall u :: u in users <==> u in userToSession && !IsUserOnline(u, open)
    {
      set u | u in userToSession && userToSession[u] !in open
    }

    /** getStats: every session counts once, the open ones also as active. */
    function GetStats(open: set<string>): (stats: SessionStats)
      reads this
      ensures stats.totalSessions == |userToSession|
      ensures 0 <= stats.activeSessions <= stats.totalSessions
      ensures stats.GetInactiveSessions() == stats.totalSessions - stats.activeSessions >= 0
      ensures stats.activeSessions == stats.totalSessions <==> forall u :: u in userToSession ==> IsUserOnline(u, open)
    {
      ActiveWithinTotal(open);
      SessionStats(|userToSession|, |GetAllActiveUsers(open)|)
    }

    /** The active users are among the registered ones, and strictly fewer unless all sessions are open. */
    lemma ActiveWithinTotal(open: set<string>)
      ensures |GetAllActiveUsers(open)| <= |userToSession|
      ensures |GetAllActiveUsers(open)| == |userToSession| <==> forall u :: u in userToSession ==> IsUserOnline(u, open)
    {
      var active := GetAllActiveUsers(open);
      SubsetCardinality(active, userToSession.Keys);
      if active != userToSession.Keys {
        assert !(userToSession.Keys <= active);
        var u :| u in userToSession.Keys && u !in active;
        SubsetCardinality(active, userToSession.Keys - {u});
      }
    }

    /**
     * cleanupInactiveSessions: every user whose session is closed is
     * removed, and the count of removals is returned. Afterwards every
     * registered session is open.
     */
    method CleanupInactiveSessions(open: set<string>) returns (cleanupCount: nat)
      requires Valid()
      modifies this
      ensures Valid()
      ensures cleanupCount == |old(InactiveUsers(open))|
      ensures userToSession == map u | u in old(userToSession) && old(userToSession)[u] in open :: old(userToSession)[u]
      ensures userToRoom == map u | u in old(userToRoom) && u in userToSession :: old(userToRoom)[u]
      ensures forall s :: s in sessionToUserId <==> s in old(sessionToUserId) && s in open
      ensures forall u :: u in userToSession ==> IsUserOnline(u, open)
    {
      var inactive := InactiveUsers(open);
      cleanupCount := RemoveUsers(inactive);
      forall s | s in old(sessionToUserId) && s !in open
        ensures s in SessionsOf(old(userToSession), inactive)
      {
        assert old(sessionToUserId)[s] in inactive;
      }
    }

    /** Unbinds every user of `users` in turn; the count is how many were removed. */
    method RemoveUsers(users: set<string>) returns (count: nat)
      requires Valid() && users <= userToSession.Keys
      modifies this
      ensures Valid()
      ensures count == |users|
      ensures userToSession == old(userToSession) - users
      ensures userToRoom == old(userToRoom) - users
      ensures forall s :: s in sessionToUserId <==> s in old(sessionToUserId) && s !in SessionsOf(old(userToSession), users)
    {
      var remaining := users;
      count := 0;
      while remaining != {}
        invariant Valid()
        invariant remaining <= users
        invariant count == |users| - |remaining|
        invariant userToSession == old(userToSession) - (users - remaining)
        invariant userToRoom == old(userToRoom) - (users - remaining)
        invariant forall s :: s in sessionToUserId <==>
          s in old(sessionToUserId) && s !in SessionsOf(old(userToSession), users - remaining)
        decreases |remaining|
      {
        var userId :| userId in remaining;
        ghost var before := users - remaining;
        var _ := RemoveUserSession(userId);
        remaining := remaining - {userId};
        assert users - remaining == before + {userId};
        MinusStep(old(userToSession), before, userId);
        MinusStep(old(userToRoom), before, userId);
        SessionsOfStep(old(userToSession), before, userId);
        count := count + 1;
      }
    }
  }

  /** The sessions the map binds to any of `users`. */
  function SessionsOf(m: map<string, string>, users: set<string>): set<string>
  {
    set u | u in users && u in m :: m[u]
  }

  lemma MinusStep<V>(m: map<string, V>, done: set<string>, u: string)
    ensures (m - done) - {u} == m - (done + {u})
  {
  }

  lemma SessionsOfStep(m: map<string, string>, users: set<string>, u: string)
    requires u in m
    ensures SessionsOf(m, users + {u}) == SessionsOf(m, users) + {m[u]}
  {
  }
}
