/**
 * Per-connection status tracking: each session id maps to a record of who
 * connected to which room, when its last heartbeat was, and its status.
 * The clock is the `now` parameter of each operation.
 */
module ConnectionStateManager {
  import opened Wrappers
  import opened Sets

  const USER_CONNECTED_TIMEOUT_MS: int := 30000
  const CLEANUP_TIMEOUT_MS: int := 60000
  const STATS_TIMEOUT_MS: int := 30000

  datatype ConnectionStatus = CONNECTING | CONNECTED | AUTHENTICATED | DISCONNECTING | DISCONNECTED

  datatype ConnectionInfo = ConnectionInfo(
    sessionId: string, userId: string, roomId: string, connectedAt: int,
    lastHeartbeat: int, authenticated: bool, status: ConnectionStatus)
  {
    /** isStale: more than timeoutMs since the last heartbeat. */
    predicate IsStale(now: int, timeoutMs: int)
    {
      now - lastHeartbeat > timeoutMs
    }
  }

  /** The ConnectionInfo constructor: connecting, unauthenticated, heartbeat at connection time. */
  function NewConnectionInfo(sessionId: string, userId: string, roomId: string, now: int): (info: ConnectionInfo)
    ensures info.status == CONNECTING && !info.authenticated
    ensures info.lastHeartbeat == info.connectedAt == now
    ensures info.sessionId == sessionId && info.userId == userId && info.roomId == roomId
    ensures !info.IsStale(now, 0)
  {
    ConnectionInfo(sessionId, userId, roomId, now, now, false, CONNECTING)
  }

  datatype ConnectionStats = ConnectionStats(total: int, connecting: int, connected: int, authenticated: int, stale: int)
  {
    /** getActive reports the authenticated count. */
    function GetActive(): int { authenticated }
  }

  predicate IsLive(info: ConnectionInfo)
  {
    info.status == CONNECTED || info.status == AUTHENTICATED
  }

  /** The authenticated records of a room heard from within the last 30 s. */
  function ConnectedIn(states: map<string, ConnectionInfo>, roomId: string, now: int): set<string>
  {
    set s | s in states && states[s].roomId == roomId
      && states[s].status == AUTHENTICATED && !states[s].IsStale(now, USER_CONNECTED_TIMEOUT_MS)
  }

  /**
   * The map cleanupInactiveConnections leaves: dropping the records silent
   * for a minute drops none counted as connected, in any room.
   */
  lemma PruneKeepsConnected(states: map<string, ConnectionInfo>, pruned: map<string, ConnectionInfo>, now: int)
    requires pruned == map s | s in states && !states[s].IsStale(now, CLEANUP_TIMEOUT_MS) :: states[s]
    ensures forall roomId :: ConnectedIn(pruned, roomId, now) == ConnectedIn(states, roomId, now)
  {
  }

  class ConnectionStateManager {
    var connectionStates: map<string, ConnectionInfo>

    constructor ()
      ensures connectionStates == map[]
    {
      connectionStates := map[];
    }

    method RegisterConnection(sessionId: string, userId: string, roomId: string, now: int)
      modifies this
      ensures connectionStates == old(connectionStates)[sessionId := NewConnectionInfo(sessionId, userId, roomId, now)]
    {
      connectionStates := connectionStates[sessionId := NewConnectionInfo(sessionId, userId, roomId, now)];
    }

    /** markAuthenticated: authenticated, AUTHENTICATED and a fresh heartbeat; an unknown session is left alone. */
    method MarkAuthenticated(sessionId: string, now: int)
      modifies this
      ensures sessionId !in old(connectionStates) ==> connectionStates == old(connectionStates)
      ensures sessionId in old(connectionStates) ==>
        connectionStates == old(connectionStates)[sessionId :=
          old(connectionStates)[sessionId].(authenticated := true, status := AUTHENTICATED, lastHeartbeat := now)]
      ensures sessionId in old(connectionStates) ==> IsUserConnected(old(connectionStates)[sessionId].userId, now)
    {
      if sessionId in connectionStates {
        var info := connectionStates[sessionId];
        connectionStates := connectionStates[sessionId := info.(authenticated := true, status := AUTHENTICATED, lastHeartbeat := now)];
        assert connectionStates[sessionId].userId == info.userId;
      }
    }

    /** updateHeartbeat: a fresh heartbeat, and CONNECTING becomes CONNECTED; other statuses stay. */
    method UpdateHeartbeat(sessionId: string, now: int)
      modifies this
      ensures sessionId !in old(connectionStates) ==> connectionStates == old(connectionStates)
      ensures sessionId in old(connectionStates) ==>
        var info := old(connectionStates)[sessionId];
        connectionStates == old(connectionStates)[sessionId :=
          info.(lastHeartbeat := now, status := if info.status == CONNECTING then CONNECTED else info.status)]
    {
      if sessionId in connectionStates {
        var info := connectionStates[sessionId].(lastHeartbeat := now);
        if info.status == CONNECTING {
          info := info.(status := CONNECTED);
        }
        connectionStates := connectionStates[sessionId := info];
      }
    }

    /** removeConnection: the removed record is returned marked DISCONNECTED. */
    method RemoveConnection(sessionId: string) returns (info: Option<ConnectionInfo>)
      modifies this
      ensures connectionStates == old(connectionStates) - {sessionId}
      ensures info.Some? <==> sessionId in old(connectionStates)
      ensures info.Some? ==> info.value == old(connectionStates)[sessionId].(status := DISCONNECTED)
    {
      if sessionId in connectionStates {
        info := Some(connectionStates[sessionId].(status := DISCONNECTED));
      } else {
        info := None;
      }
      connectionStates := connectionStates - {sessionId};
    }

    function GetConnectionInfo(sessionId: string): (info: Option<ConnectionInfo>)
      reads this
      ensures info.Some? <==> sessionId in connectionStates
      ensures info.Some? ==> info.value == connectionStates[sessionId]
    {
      if sessionId in connectionStates then Some(connectionStates[sessionId]) else None
    }

    /** isUserConnected: some record of the user is CONNECTED or AUTHENTICATED and heard from within 30 s. */
    predicate IsUserConnected(userId: string, now: int)
      reads this
    {
      exists s :: s in connectionStates && connectionStates[s].userId == userId
        && IsLive(connectionStates[s]) && !connectionStates[s].IsStale(now, USER_CONNECTED_TIMEOUT_MS)
    }

    function ConnectedInRoom(roomId: string, now: int): set<string>
      reads this
    {
      ConnectedIn(connectionStates, roomId, now)
    }

    /** getConnectedUsersInRoom: the authenticated, non-stale records of the room. */
    function GetConnectedUsersInRoom(roomId: string, now: int): (n: nat)
      reads this
      ensures n <= |connectionStates|
      ensures n == 0 <==> forall s :: s in connectionStates && connectionStates[s].roomId == roomId ==>
        connectionStates[s].status != AUTHENTICATED || connectionStates[s].IsStale(now, USER_CONNECTED_TIMEOUT_MS)
      ensures n == |ConnectedInRoom(roomId, now)|
      ensures n > 0 ==>
        exists s :: s in connectionStates && connectionStates[s].roomId == roomId &&
          connectionStates[s].status == AUTHENTICATED && !connectionStates[s].IsStale(now, USER_CONNECTED_TIMEOUT_MS)
      ensures n > 0 ==> exists s :: s in connectionStates && IsUserConnected(connectionStates[s].userId, now)
    {
      SubsetCardinality(ConnectedInRoom(roomId, now), connectionStates.Keys);
      if |ConnectedInRoom(roomId, now)| > 0 then
        var s :| s in ConnectedInRoom(roomId, now);
        assert IsUserConnected(connectionStates[s].userId, now);
        |ConnectedInRoom(roomId, now)|
      else
        assert forall s :: s in connectionStates ==>
          (connectionStates[s].roomId == roomId && connectionStates[s].status == AUTHENTICATED
           && !connectionStates[s].IsStale(now, USER_CONNECTED_TIMEOUT_MS)) ==> s in ConnectedInRoom(roomId, now);
        0
    }

    /** cleanupInactiveConnections: removes exactly the records silent for more than 60 s. */
    method CleanupInactiveConnections(now: int) returns (cleanupCount: nat)
      modifies this
      ensures connectionStates == map s | s in old(connectionStates) && !old(connectionStates)[s].IsStale(now, CLEANUP_TIMEOUT_MS)
                                    :: old(connectionStates)[s]
      ensures cleanupCount == |old(connectionStates).Keys - connectionStates.Keys|
    {
      var staleConnections := set s | s in connectionStates && connectionStates[s].IsStale(now, CLEANUP_TIMEOUT_MS);
      var remaining := staleConnections;
      cleanupCount := 0;
      while remaining != {}
        invariant remaining <= staleConnections
        invariant connectionStates == map s | s in old(connectionStates) && (s !in staleConnections || s in remaining)
                                        :: old(connectionStates)[s]
        invariant cleanupCount == |staleConnections| - |remaining|
        decreases |remaining|
      {
        var sessionId :| sessionId in remaining;
        connectionStates := connectionStates - {sessionId};
        remaining := remaining - {sessionId};
        cleanupCount := cleanupCount + 1;
      }
      assert old(connectionStates).Keys - connectionStates.Keys == staleConnections;
    }

    /** Without heartbeats, a room's connected count can only fall as the clock advances. */
    lemma ConnectedCountFalls(roomId: string, now: int, later: int)
      requires now <= later
      ensures GetConnectedUsersInRoom(roomId, later) <= GetConnectedUsersInRoom(roomId, now)
    {
      SubsetCardinality(ConnectedInRoom(roomId, later), ConnectedInRoom(roomId, now));
    }

    function WithStatus(st: ConnectionStatus): set<string>
      reads this
    {
      StatusIn(connectionStates, connectionStates.Keys, st)
    }

    function StaleAt(now: int): set<string>
      reads this
    {
      StaleIn(connectionStates, connectionStates.Keys, now)
    }

    /**
     * getStats: one pass over the records counting by status (DISCONNECTING
     * and DISCONNECTED are not counted) and counting the stale ones.
     */
    method GetStats(now: int) returns (stats: ConnectionStats)
      ensures stats.total == |connectionStates|
      ensures stats.connecting == |WithStatus(CONNECTING)|
      ensures stats.connected == |WithStatus(CONNECTED)|
      ensures stats.authenticated == |WithStatus(AUTHENTICATED)|
      ensures stats.stale == |StaleAt(now)|
      ensures stats.connecting + stats.connected + stats.authenticated <= stats.total
      ensures stats.stale <= stats.total
    {
      var states := connectionStates;
      var connecting, connected, authenticated, stale := 0, 0, 0, 0;
      var remaining := states.Keys;
      ghost var seen: set<string> := {};
      while remaining != {}
        invariant seen <= states.Keys && remaining == states.Keys - seen
        invariant connecting == |StatusIn(states, seen, CONNECTING)|
        invariant connected == |StatusIn(states, seen, CONNECTED)|
        invariant authenticated == |StatusIn(states, seen, AUTHENTICATED)|
        invariant stale == |StaleIn(states, seen, now)|
        decreases |remaining|
      {
        var sessionId :| sessionId in remaining;
        var info := states[sessionId];
        TallyStep(states, seen, sessionId, now);
        match info.status {
          case CONNECTING => connecting := connecting + 1;
          case CONNECTED => connected := connected + 1;
          case AUTHENTICATED => authenticated := authenticated + 1;
          case _ =>
        }
        if info.IsStale(now, STATS_TIMEOUT_MS) {
          stale := stale + 1;
        }
        seen := seen + {sessionId};
        remaining := remaining - {sessionId};
      }
      assert seen == states.Keys by {
        assert states.Keys - seen == {};
      }
      StatusCountsWithinTotal(states);
      SubsetCardinality(StaleIn(states, states.Keys, now), states.Keys);
      stats := ConnectionStats(|connectionStates|, connecting, connected, authenticated, stale);
    }
  }

  /** The records among `keys` with status st. */
  function StatusIn(states: map<string, ConnectionInfo>, keys: set<string>, st: ConnectionStatus): set<string>
  {
    set s | s in keys && s in states && states[s].status == st
  }

  /** The records among `keys` silent for more than 30 s. */
  function StaleIn(states: map<string, ConnectionInfo>, keys: set<string>, now: int): set<string>
  {
    set s | s in keys && s in states && states[s].IsStale(now, STATS_TIMEOUT_MS)
  }

  /** The four tallies after one more record. */
  lemma TallyStep(states: map<string, ConnectionInfo>, seen: set<string>, s: string, now: int)
    requires s in states && s !in seen
    ensures var info := states[s];
      && |StatusIn(states, seen + {s}, CONNECTING)| == |StatusIn(states, seen, CONNECTING)| + (if info.status == CONNECTING then 1 else 0)
      && |StatusIn(states, seen + {s}, CONNECTED)| == |StatusIn(states, seen, CONNECTED)| + (if info.status == CONNECTED then 1 else 0)
      && |StatusIn(states, seen + {s}, AUTHENTICATED)| == |StatusIn(states, seen, AUTHENTICATED)| + (if info.status == AUTHENTICATED then 1 else 0)
      && |StaleIn(states, seen + {s}, now)| == |StaleIn(states, seen, now)| + (if info.IsStale(now, STATS_TIMEOUT_MS) then 1 else 0)
  {
    StatusStep(states, seen, s, CONNECTING);
    StatusStep(states, seen, s, CONNECTED);
    StatusStep(states, seen, s, AUTHENTICATED);
    StaleStep(states, seen, s, now);
  }

  /** Adding one unseen record grows a status count by one exactly when the record has that status. */
  lemma StatusStep(states: map<string, ConnectionInfo>, seen: set<string>, s: string, st: ConnectionStatus)
    requires s in states && s !in seen
    ensures |StatusIn(states, seen + {s}, st)| == |StatusIn(states, seen, st)| + (if states[s].status == st then 1 else 0)
  {
    var before := StatusIn(states, seen, st);
    assert s !in before;
    if states[s].status == st {
      assert StatusIn(states, seen + {s}, st) == before + {s} by {}
    } else {
      assert StatusIn(states, seen + {s}, st) == before by {}
    }
  }

  /** Adding one unseen record grows the stale count by one exactly when the record is stale. */
  lemma StaleStep(states: map<string, ConnectionInfo>, seen: set<string>, s: string, now: int)
    requires s in states && s !in seen
    ensures |StaleIn(states, seen + {s}, now)|
      == |StaleIn(states, seen, now)| + (if states[s].IsStale(now, STATS_TIMEOUT_MS) then 1 else 0)
  {
    if states[s].IsStale(now, STATS_TIMEOUT_MS) {
      assert StaleIn(states, seen + {s}, now) == StaleIn(states, seen, now) + {s};
    } else {
      assert StaleIn(states, seen + {s}, now) == StaleIn(states, seen, now);
    }
  }

  /** The three counted statuses pick disjoint sets of records. */
  lemma StatusCountsWithinTotal(states: map<string, ConnectionInfo>)
    ensures var keys := states.Keys;
      |StatusIn(states, keys, CONNECTING)| + |StatusIn(states, keys, CONNECTED)| + |StatusIn(states, keys, AUTHENTICATED)| <= |states|
  {
    var keys := states.Keys;
    var a, b, c := StatusIn(states, keys, CONNECTING), StatusIn(states, keys, CONNECTED), StatusIn(states, keys, AUTHENTICATED);
    assert a !! b && (a + b) !! c;
    assert |a + b| == |a| + |b|;
    assert |a + b + c| == |a + b| + |c|;
    SubsetCardinality(a + b + c, keys);
  }
}
