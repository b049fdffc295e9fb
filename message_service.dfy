/**
 * The message domain service: room check, a per-user one-second rate
 * window of at most five sends, a one-minute client message id cache, and
 * publication through the broker. The clock reading, the generated message
 * id and whether the broker's publish succeeds are inputs.
 */
module MessageService {
  import opened Wrappers
  import opened Strings
  import opened C2CException
  import opened Message
  import opened RoomRedisRepository
  import RoomException
  import MessageException

  const MAX_MESSAGES_PER_SECOND: int := 5
  const RATE_LIMIT_WINDOW_MS: int := 1000
  const CLIENT_MSG_ID_TTL_MS: int := 60000

  /** One user's entries in userLastResetTime and userMessageCounts (None: no entry). */
  datatype Window = Window(start: Option<int>, count: Option<int>)

  /** A missing counter reads as zero, as in getCurrentMessageCount and computeIfAbsent. */
  function CountOf(w: Window): int
  {
    if w.count.Some? then w.count.value else 0
  }

  predicate Expired(w: Window, now: int)
  {
    w.start.None? || now - w.start.value >= RATE_LIMIT_WINDOW_MS
  }

  /** The reset step of validateRateLimit. */
  function CheckWindow(w: Window, now: int): (r: Window)
    ensures Expired(w, now) ==> r == Window(Some(now), Some(0))
    ensures !Expired(w, now) ==> r == w
    ensures r.start.Some?
  {
    if Expired(w, now) then Window(Some(now), Some(0)) else w
  }

  /** The limit test of validateRateLimit: a present counter at 5 or more refuses. */
  predicate Admits(w: Window)
  {
    w.count.None? || w.count.value < MAX_MESSAGES_PER_SECOND
  }

  /**
   * One send attempt as the window sees it: `proceeds` says whether the
   * later steps (dedup, message checks, publish) go through. The counter is
   * incremented only on success; the reset sticks either way.
   */
  function Attempt(w: Window, now: int, proceeds: bool): (r: (Window, bool))
    ensures r.1 <==> Admits(CheckWindow(w, now)) && proceeds
    ensures r.0.start == CheckWindow(w, now).start
    ensures r.1 ==> CountOf(r.0) == CountOf(CheckWindow(w, now)) + 1
    ensures !r.1 ==> r.0 == CheckWindow(w, now)
  {
    var c := CheckWindow(w, now);
    if Admits(c) && proceeds then (Window(c.start, Some(CountOf(c) + 1)), true) else (c, false)
  }

  /** A series of attempts by one user: the final window and how many succeeded. */
  function Run(w: Window, attempts: seq<(int, bool)>): (Window, nat)
    decreases |attempts|
  {
    if attempts == [] then (w, 0)
    else
      var step := Attempt(w, attempts[0].0, attempts[0].1);
      var rest := Run(step.0, attempts[1..]);
      (rest.0, rest.1 + (if step.1 then 1 else 0))
  }

  predicate WithinWindow(s: int, attempts: seq<(int, bool)>)
  {
    forall i :: 0 <= i < |attempts| ==> s <= attempts[i].0 < s + RATE_LIMIT_WINDOW_MS
  }

  /**
   * While every attempt falls inside the window that started at s, the
   * window is never reset, and the successes never take the counter past 5.
   */
  lemma {:induction false} RunWithinWindow(w: Window, attempts: seq<(int, bool)>, s: int)
    requires w.start == Some(s) && 0 <= CountOf(w) <= MAX_MESSAGES_PER_SECOND
    requires WithinWindow(s, attempts)
    ensures Run(w, attempts).0.start == Some(s)
    ensures CountOf(Run(w, attempts).0) == CountOf(w) + Run(w, attempts).1
    ensures Run(w, attempts).1 <= MAX_MESSAGES_PER_SECOND - CountOf(w)
    decreases |attempts|
  {
    if attempts != [] {
      var step := Attempt(w, attempts[0].0, attempts[0].1);
      assert !Expired(w, attempts[0].0);
      assert WithinWindow(s, attempts[1..]) by {
        forall i | 0 <= i < |attempts[1..]| ensures s <= attempts[1..][i].0 < s + RATE_LIMIT_WINDOW_MS {
          assert attempts[1..][i] == attempts[i + 1];
        }
      }
      RunWithinWindow(step.0, attempts[1..], s);
    }
  }

  /** The rate limit as promised: after a reset at s, at most five sends succeed within the next 1000 ms. */
  lemma AtMostFivePerWindow(s: int, attempts: seq<(int, bool)>)
    requires WithinWindow(s, attempts)
    ensures Run(Window(Some(s), Some(0)), attempts).1 <= MAX_MESSAGES_PER_SECOND
  {
    RunWithinWindow(Window(Some(s), Some(0)), attempts, s);
  }

  /**
   * cleanup drops a window start older than 1000 ms; at that time or any
   * later one the next check resets the window anyway, so dropping it
   * changes nothing a later send can see.
   */
  lemma CleanupWindowUnobservable(w: Window, cleanedAt: int, later: int)
    requires w.start.Some? && cleanedAt - w.start.value > RATE_LIMIT_WINDOW_MS && later >= cleanedAt
    ensures CheckWindow(w, later) == CheckWindow(Window(None, w.count), later)
  {
  }

  /** validateDuplicateMessage's TTL test on a recorded send time. */
  predicate IsFresh(recordedAt: int, now: int)
  {
    now - recordedAt < CLIENT_MSG_ID_TTL_MS
  }

  /** The message checks pass and the trimmed text is not empty. */
  predicate Deliverable(m: Result<Message, C2CError>)
  {
    m.Success? && !m.value.IsEmpty()
  }

  class MessageService {
    const roomRepository: RoomRedisRepository
    var userMessageCounts: map<string, int>
    var userLastResetTime: map<string, int>
    var recentClientMsgIds: map<string, int>

    constructor (roomRepository: RoomRedisRepository)
      ensures this.roomRepository == roomRepository
      ensures userMessageCounts == map[] && userLastResetTime == map[] && recentClientMsgIds == map[]
    {
      this.roomRepository := roomRepository;
      userMessageCounts := map[];
      userLastResetTime := map[];
      recentClientMsgIds := map[];
    }

    function WindowOf(userId: string): Window
      reads this
    {
      Window(if userId in userLastResetTime then Some(userLastResetTime[userId]) else None,
             if userId in userMessageCounts then Some(userMessageCounts[userId]) else None)
    }

    /** A counter never leaves 0..5: it starts at 0 and only a send the limit admits raises it. */
    ghost predicate CountsBounded()
      reads this
    {
      forall u :: u in userMessageCounts ==> 0 <= userMessageCounts[u] <= MAX_MESSAGES_PER_SECOND
    }

    predicate IsDuplicate(clientMsgId: string, now: int)
      reads this
    {
      clientMsgId in recentClientMsgIds && IsFresh(recentClientMsgIds[clientMsgId], now)
    }

    /** Every check of sendMessage before publish passes, judged on the state the send starts from. */
    predicate Passes(roomId: string, fromUserId: string, text: Option<string>, clientMsgId: Option<string>,
                     messageId: string, now: int)
      reads this, roomRepository
    {
      && PassesChecks(roomId, fromUserId, clientMsgId, now)
      && Deliverable(Create(Some(messageId), clientMsgId, Some(roomId), Some(fromUserId), text, now))
    }

    /** The checks of sendMessage before the message is built pass: the room exists, the window admits, the id is new. */
    predicate PassesChecks(roomId: string, fromUserId: string, clientMsgId: Option<string>, now: int)
      reads this, roomRepository
    {
      && roomRepository.Exists(roomId)
      && Admits(CheckWindow(WindowOf(fromUserId), now))
      && (clientMsgId.Some? ==> !IsDuplicate(clientMsgId.value, now))
    }

    /** validateRateLimit: resets an expired window, then refuses a user at the limit. */
    method ValidateRateLimit(userId: string, now: int) returns (err: Option<C2CError>)
      modifies this
      ensures WindowOf(userId) == CheckWindow(old(WindowOf(userId)), now)
      ensures forall v :: v != userId ==> WindowOf(v) == old(WindowOf(v))
      ensures userMessageCounts.Keys == old(userMessageCounts.Keys) + (if Expired(old(WindowOf(userId)), now) then {userId} else {})
      ensures userLastResetTime.Keys == old(userLastResetTime.Keys) + {userId}
      ensures recentClientMsgIds == old(recentClientMsgIds)
      ensures err.None? <==> Admits(WindowOf(userId))
      ensures err.Some? ==> err.value == MessageException.RateLimitExceeded(Some(userId), CountOf(WindowOf(userId)), MAX_MESSAGES_PER_SECOND)
      ensures old(CountsBounded()) ==> CountsBounded()
    {
      if userId !in userLastResetTime || now - userLastResetTime[userId] >= RATE_LIMIT_WINDOW_MS {
        userMessageCounts := userMessageCounts[userId := 0];
        userLastResetTime := userLastResetTime[userId := now];
      }
      if userId in userMessageCounts && userMessageCounts[userId] >= MAX_MESSAGES_PER_SECOND {
        return Some(MessageException.RateLimitExceeded(Some(userId), userMessageCounts[userId], MAX_MESSAGES_PER_SECOND));
      }
      return None;
    }

    /** validateDuplicateMessage: a fresh entry refuses; a stale one is removed. */
    method ValidateDuplicateMessage(clientMsgId: string, now: int) returns (err: Option<C2CError>)
      modifies this
      ensures err.Some? <==> old(IsDuplicate(clientMsgId, now))
      ensures err.Some? ==> err.value == MessageException.DuplicateMessage(Some(clientMsgId)) && recentClientMsgIds == old(recentClientMsgIds)
      ensures err.None? ==> recentClientMsgIds == old(recentClientMsgIds) - {clientMsgId}
      ensures userMessageCounts == old(userMessageCounts) && userLastResetTime == old(userLastResetTime)
    {
      if clientMsgId in recentClientMsgIds {
        if now - recentClientMsgIds[clientMsgId] < CLIENT_MSG_ID_TTL_MS {
          return Some(MessageException.DuplicateMessage(Some(clientMsgId)));
        } else {
          recentClientMsgIds := recentClientMsgIds - {clientMsgId};
        }
      }
      return None;
    }

    /** incrementMessageCount: computeIfAbsent(0) then increment. */
    method IncrementMessageCount(userId: string)
      modifies this
      ensures userMessageCounts == old(userMessageCounts)[userId := CountOf(old(WindowOf(userId))) + 1]
      ensures userLastResetTime == old(userLastResetTime) && recentClientMsgIds == old(recentClientMsgIds)
    {
      var current := if userId in userMessageCounts then userMessageCounts[userId] else 0;
      userMessageCounts := userMessageCounts[userId := current + 1];
    }

    method RecordClientMsgId(clientMsgId: string, now: int)
      modifies this
      ensures recentClientMsgIds == old(recentClientMsgIds)[clientMsgId := now]
      ensures userMessageCounts == old(userMessageCounts) && userLastResetTime == old(userLastResetTime)
    {
      recentClientMsgIds := recentClientMsgIds[clientMsgId := now];
    }

    /**
     * sendMessage. A missing room fails first and touches nothing; then the
     * rate window, the duplicate cache, the message checks and the empty
     * test run in that order; the counter and the client id are recorded
     * only once publish has succeeded.
     */
    method SendMessage(roomId: string, fromUserId: string, text: Option<string>, clientMsgId: Option<string>,
                       messageId: string, now: int, publishSucceeds: bool) returns (r: Result<Message, C2CError>)
      requires !IsBlank(messageId)
      modifies this
      ensures !roomRepository.Exists(roomId) ==>
        && r == Failure(RoomException.RoomNotFound(Some(roomId)))
        && userMessageCounts == old(userMessageCounts) && userLastResetTime == old(userLastResetTime)
        && recentClientMsgIds == old(recentClientMsgIds)
      ensures roomRepository.Exists(roomId) && !Admits(CheckWindow(old(WindowOf(fromUserId)), now)) ==>
        r == Failure(MessageException.RateLimitExceeded(Some(fromUserId),
               CountOf(CheckWindow(old(WindowOf(fromUserId)), now)), MAX_MESSAGES_PER_SECOND))
      ensures roomRepository.Exists(roomId) && Admits(CheckWindow(old(WindowOf(fromUserId)), now)) &&
              clientMsgId.Some? && old(IsDuplicate(clientMsgId.value, now)) ==>
        r == Failure(MessageException.DuplicateMessage(clientMsgId))
      ensures old(PassesChecks(roomId, fromUserId, clientMsgId, now)) ==>
        var m := Create(Some(messageId), clientMsgId, Some(roomId), Some(fromUserId), text, now);
        && (m.Failure? ==> r == Failure(m.error))
        && (m.Success? && m.value.IsEmpty() ==> r == Failure(MessageException.EmptyMessage()))
      ensures r.Success? <==> old(Passes(roomId, fromUserId, text, clientMsgId, messageId, now)) && publishSucceeds
      ensures r.Success? ==> r.value == Create(Some(messageId), clientMsgId, Some(roomId), Some(fromUserId), text, now).value
      ensures old(Passes(roomId, fromUserId, text, clientMsgId, messageId, now)) && !publishSucceeds ==>
        r == Failure(MessageException.MessageSendFailed(Some(messageId), Some(roomId)))
      ensures roomRepository.Exists(roomId) ==>
        var checked := CheckWindow(old(WindowOf(fromUserId)), now);
        WindowOf(fromUserId) == if r.Success? then Window(checked.start, Some(CountOf(checked) + 1)) else checked
      ensures forall v :: v != fromUserId ==> WindowOf(v) == old(WindowOf(v))
      ensures clientMsgId.None? ==> recentClientMsgIds == old(recentClientMsgIds)
      ensures clientMsgId.Some? && r.Success? ==>
        recentClientMsgIds == (old(recentClientMsgIds) - {clientMsgId.value})[clientMsgId.value := now]
      ensures clientMsgId.Some? && r.Failure? ==>
        recentClientMsgIds == if old(PassesChecks(roomId, fromUserId, clientMsgId, now))
                              then old(recentClientMsgIds) - {clientMsgId.value} else old(recentClientMsgIds)
      ensures old(CountsBounded()) ==> CountsBounded()
    {
      ghost var checks := PassesChecks(roomId, fromUserId, clientMsgId, now);
      var err := ValidateSend(roomId, fromUserId, clientMsgId, now);
      if err.Some? {
        assert !checks;
        return Failure(err.value);
      }
      assert checks;
      assert old(Passes(roomId, fromUserId, text, clientMsgId, messageId, now))
        == Deliverable(Create(Some(messageId), clientMsgId, Some(roomId), Some(fromUserId), text, now));
      r := CreateAndPublish(roomId, fromUserId, text, clientMsgId, messageId, now, publishSucceeds);
    }

    /** The checks of sendMessage that come before the message is built: room, rate window, duplicate id. */
    method ValidateSend(roomId: string, fromUserId: string, clientMsgId: Option<string>, now: int)
      returns (err: Option<C2CError>)
      modifies this
      ensures var checked := CheckWindow(old(WindowOf(fromUserId)), now);
        && (!roomRepository.Exists(roomId) ==> err == Some(RoomException.RoomNotFound(Some(roomId))))
        && (roomRepository.Exists(roomId) && !Admits(checked) ==>
              err == Some(MessageException.RateLimitExceeded(Some(fromUserId), CountOf(checked), MAX_MESSAGES_PER_SECOND)))
        && (roomRepository.Exists(roomId) && Admits(checked) && clientMsgId.Some? && old(IsDuplicate(clientMsgId.value, now)) ==>
              err == Some(MessageException.DuplicateMessage(clientMsgId)))
        && (err.None? <==> old(PassesChecks(roomId, fromUserId, clientMsgId, now)))
        && (roomRepository.Exists(roomId) ==> WindowOf(fromUserId) == checked)
      ensures !roomRepository.Exists(roomId) ==>
        && userMessageCounts == old(userMessageCounts) && userLastResetTime == old(userLastResetTime)
        && recentClientMsgIds == old(recentClientMsgIds)
      ensures forall v :: v != fromUserId ==> WindowOf(v) == old(WindowOf(v))
      ensures clientMsgId.None? ==> recentClientMsgIds == old(recentClientMsgIds)
      ensures clientMsgId.Some? && err.None? ==> recentClientMsgIds == old(recentClientMsgIds) - {clientMsgId.value}
      ensures err.Some? ==> recentClientMsgIds == old(recentClientMsgIds)
      ensures old(CountsBounded()) ==> CountsBounded()
    {
      if !roomRepository.Exists(roomId) {
        return Some(RoomException.RoomNotFound(Some(roomId)));
      }
      err := ValidateRateLimit(fromUserId, now);
      if err.Some? {
        return err;
      }
      if clientMsgId.Some? {
        err := ValidateDuplicateMessage(clientMsgId.value, now);
      }
    }

    /**
     * The tail of sendMessage: build and check the message, refuse empty
     * text, publish, and only then count the send and record its client id.
     */
    method CreateAndPublish(roomId: string, fromUserId: string, text: Option<string>, clientMsgId: Option<string>,
                            messageId: string, now: int, publishSucceeds: bool) returns (r: Result<Message, C2CError>)
      requires !IsBlank(messageId)
      modifies this
      ensures var m := Create(Some(messageId), clientMsgId, Some(roomId), Some(fromUserId), text, now);
        && (r.Success? <==> Deliverable(m) && publishSucceeds)
        && (r.Success? ==> r.value == m.value)
        && (m.Failure? ==> r == Failure(m.error))
        && (m.Success? && m.value.IsEmpty() ==> r == Failure(MessageException.EmptyMessage()))
        && (Deliverable(m) && !publishSucceeds ==> r == Failure(MessageException.MessageSendFailed(Some(messageId), Some(roomId))))
      ensures userMessageCounts == if r.Success? then old(userMessageCounts)[fromUserId := CountOf(old(WindowOf(fromUserId))) + 1]
                                   else old(userMessageCounts)
      ensures userLastResetTime == old(userLastResetTime)
      ensures WindowOf(fromUserId) == if r.Success? then Window(old(WindowOf(fromUserId)).start, Some(CountOf(old(WindowOf(fromUserId))) + 1))
                                      else old(WindowOf(fromUserId))
      ensures forall v :: v != fromUserId ==> WindowOf(v) == old(WindowOf(v))
      ensures recentClientMsgIds == if r.Success? && clientMsgId.Some? then old(recentClientMsgIds)[clientMsgId.value := now]
                                    else old(recentClientMsgIds)
    {
      var message := Create(Some(messageId), clientMsgId, Some(roomId), Some(fromUserId), text, now);
      if message.Failure? {
        return Failure(message.error);
      }
      if message.value.IsEmpty() {
        return Failure(MessageException.EmptyMessage());
      }
      if !publishSucceeds {
        return Failure(MessageException.MessageSendFailed(Some(messageId), Some(roomId)));
      }
      RecordSend(fromUserId, clientMsgId, now);
      return Success(message.value);
    }

    /** What a published send leaves behind: the counter raised, the client id recorded. */
    method RecordSend(fromUserId: string, clientMsgId: Option<string>, now: int)
      modifies this
      ensures userMessageCounts == old(userMessageCounts)[fromUserId := CountOf(old(WindowOf(fromUserId))) + 1]
      ensures userLastResetTime == old(userLastResetTime)
      ensures WindowOf(fromUserId) == Window(old(WindowOf(fromUserId)).start, Some(CountOf(old(WindowOf(fromUserId))) + 1))
      ensures forall v :: v != fromUserId ==> WindowOf(v) == old(WindowOf(v))
      ensures recentClientMsgIds == if clientMsgId.Some? then old(recentClientMsgIds)[clientMsgId.value := now]
                                    else old(recentClientMsgIds)
    {
      IncrementMessageCount(fromUserId);
      if clientMsgId.Some? {
        RecordClientMsgId(clientMsgId.value, now);
      }
    }

    /** cleanup: drops window starts older than 1000 ms and client ids older than 60000 ms; counters stay. */
    method Cleanup(now: int)
      modifies this
      ensures userLastResetTime == map u | u in old(userLastResetTime) && now - old(userLastResetTime)[u] <= RATE_LIMIT_WINDOW_MS
                                     :: old(userLastResetTime)[u]
      ensures recentClientMsgIds == map c | c in old(recentClientMsgIds) && now - old(recentClientMsgIds)[c] <= CLIENT_MSG_ID_TTL_MS
                                      :: old(recentClientMsgIds)[c]
      ensures userMessageCounts == old(userMessageCounts)
      // what was dropped is invisible to every check made now or later
      ensures forall u, later :: later >= now ==> CheckWindow(WindowOf(u), later) == old(CheckWindow(WindowOf(u), later))
      ensures forall c, later :: later >= now ==> (IsDuplicate(c, later) <==> old(IsDuplicate(c, later)))
    {
      userLastResetTime := map u | u in userLastResetTime && now - userLastResetTime[u] <= RATE_LIMIT_WINDOW_MS
                             :: userLastResetTime[u];
      recentClientMsgIds := map c | c in recentClientMsgIds && now - recentClientMsgIds[c] <= CLIENT_MSG_ID_TTL_MS
                              :: recentClientMsgIds[c];
      forall u, later | later >= now ensures CheckWindow(WindowOf(u), later) == old(CheckWindow(WindowOf(u), later)) {
        if u in old(userLastResetTime) && u !in userLastResetTime {
          CleanupWindowUnobservable(old(WindowOf(u)), now, later);
        }
      }
    }

    function GetCurrentMessageCount(userId: string): (n: int)
      reads this
      ensures userId !in userMessageCounts ==> n == 0
      ensures CountsBounded() ==> 0 <= n <= MAX_MESSAGES_PER_SECOND
    {
      CountOf(WindowOf(userId))
    }
  }
}
