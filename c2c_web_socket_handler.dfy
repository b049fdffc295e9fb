/**
 * The WebSocket adapter: it parses each text frame, dispatches on its type
 * to the use-case services, keeps the session registry and the broker's
 * room subscriptions in step, and answers or broadcasts envelopes.
 *
 * A session is its id; the transport holds which sessions are open and
 * the envelopes written to them, oldest first. The join path calls the
 * corrected JoinRoom (see JoinRoomService).
 */
module C2CWebSocketHandler {
  import opened Wrappers
  import opened Strings
  import opened Faults
  import opened MessageType
  import opened C2CMessage
  import opened ProtocolParser
  import opened Message
  import opened WebSocketSessionManager
  import opened RedisMessageBroker
  import opened RoomRedisRepository
  import opened UserRedisRepository
  import opened JoinRoomUseCase
  import opened LeaveRoomUseCase
  import opened SendMessageUseCase
  import opened ProcessHeartbeatUseCase
  import opened JoinRoomService
  import opened LeaveRoomService
  import opened SendMessageService
  import opened ProcessHeartbeatService
  import UserException

  /** One envelope written to one session. */
  type Frame = (string, C2CMessage)

  /** A WebSocket frame: a text frame's payload, or any binary, ping or pong frame. */
  datatype WebSocketFrame = TextFrame(payload: Option<string>) | OtherFrame

  /** What subscribeToRoomMessages' lambda captures: the room and the user it listens for. */
  datatype RoomListener = RoomListener(roomId: string, userId: string)

  /** The frame sendMessage writes: one, if the session is still open. */
  function IfOpen(open: set<string>, sessionId: string, m: C2CMessage): seq<Frame>
  {
    if sessionId in open then [(sessionId, m)] else []
  }

  /** `frames` carries m once to every target and to nothing else. */
  ghost predicate Delivers(frames: seq<Frame>, targets: set<string>, m: C2CMessage)
  {
    && (forall i :: 0 <= i < |frames| ==> frames[i].1 == m && frames[i].0 in targets)
    && (forall i, j :: 0 <= i < j < |frames| ==> frames[i].0 != frames[j].0)
    && (forall s :: s in targets ==> exists i :: 0 <= i < |frames| && frames[i].0 == s)
  }

  lemma DeliversOneMore(frames: seq<Frame>, done: set<string>, s: string, m: C2CMessage)
    requires Delivers(frames, done, m) && s !in done
    ensures Delivers(frames + [(s, m)], done + {s}, m)
  {
    var more := frames + [(s, m)];
    forall t | t in done + {s} ensures exists i :: 0 <= i < |more| && more[i].0 == t {
      if t == s {
        assert more[|frames|].0 == t;
      } else {
        var i :| 0 <= i < |frames| && frames[i].0 == t;
        assert more[i].0 == t;
      }
    }
  }

  lemma DeliveredAfter(before: seq<Frame>, frames: seq<Frame>, targets: set<string>, m: C2CMessage)
    requires Delivers(frames, targets, m)
    ensures RepliedThenDelivered(before, before + frames, [], targets, m)
  {
    assert (before + frames)[|before|..] == frames;
  }

  lemma ReplyThenDelivery(before: seq<Frame>, middle: seq<Frame>, after: seq<Frame>, own: seq<Frame>,
                          targets: set<string>, m: C2CMessage)
    requires middle == before + own
    requires RepliedThenDelivered(middle, after, [], targets, m)
    ensures RepliedThenDelivered(before, after, own, targets, m)
  {
    assert after[..|before|] == middle[..|before|];
    assert after[|before|..|before| + |own|] == middle[|before|..];
  }

  /** The text of the exception a room lookup ends in when the room cannot be rebuilt. */
  function LookupFailureText(exists_: bool, roomId: string): string
  {
    if !exists_ then RoomNotFoundText(roomId) else "INVALID_USER_ID"
  }

  /** `after` is `before`, then `own`, then a delivery of m to the targets. */
  ghost predicate RepliedThenDelivered(before: seq<Frame>, after: seq<Frame>, own: seq<Frame>, targets: set<string>, m: C2CMessage)
  {
    && |after| >= |before| + |own|
    && after[..|before|] == before
    && after[|before|..|before| + |own|] == own
    && Delivers(after[|before| + |own|..], targets, m)
  }

  /** A list holding every element of the set once (new ArrayList<>(set)). */
  ghost predicate ListsExactly(r: seq<string>, s: set<string>)
  {
    && (forall x :: x in r <==> x in s)
    && (forall i, j :: 0 <= i < j < |r| ==> r[i] != r[j])
  }

  /** The set's iteration order is the hash set's own; any order may come out. */
  method ListOf(s: set<string>) returns (r: seq<string>)
    ensures ListsExactly(r, s)
  {
    r := [];
    var rest := s;
    while rest != {}
      invariant rest <= s
      invariant forall x :: x in r <==> x in s - rest
      invariant forall i, j :: 0 <= i < j < |r| ==> r[i] != r[j]
      decreases |rest|
    {
      var x :| x in rest;
      assert x !in r;
      r := r + [x];
      rest := rest - {x};
    }
  }

  /** extractUserIdFromToken: the token itself, trimmed, is the user id; a blank token names nobody. */
  method ExtractUserIdFromToken(token: Option<string>) returns (userId: Option<string>)
    ensures userId.None? <==> NullOrBlank(token)
    ensures userId.Some? ==> userId.value == JavaTrim(token.value) && !IsBlank(userId.value)
    ensures userId.Some? ==> JavaTrim(userId.value) == userId.value
  {
    if NullOrBlank(token) {
      return None;
    }
    TrimStartKeepsNonBlank(token.value);
    TrimEndKeepsNonBlank(TrimStart(token.value));
    JavaTrimIdempotent(token.value);
    return Some(JavaTrim(token.value));
  }

  /** The open sessions and what has been written to them. */
  class Transport {
    var open: set<string>
    var sent: seq<Frame>

    constructor (open: set<string>)
      ensures this.open == open && sent == []
    {
      this.open := open;
      sent := [];
    }

    /** The forEach of broadcastToRoom over sessions that are all open. */
    method SendToAll(targets: set<string>, m: C2CMessage)
      requires targets <= open
      modifies this
      ensures open == old(open)
      ensures RepliedThenDelivered(old(sent), sent, [], targets, m)
    {
      var remaining := targets;
      ghost var frames: seq<Frame> := [];
      while remaining != {}
        invariant remaining <= targets
        invariant open == old(open)
        invariant sent == old(sent) + frames
        invariant Delivers(frames, targets - remaining, m)
        decreases |remaining|
      {
        var s :| s in remaining;
        ghost var done := targets - remaining;
        assert s in open && s !in done;
        Send(s, m);
        DeliversOneMore(frames, done, s, m);
        assert sent == old(sent) + (frames + [(s, m)]);
        frames := frames + [(s, m)];
        remaining := remaining - {s};
        assert targets - remaining == done + {s};
      }
      assert targets - remaining == targets;
      DeliveredAfter(old(sent), frames, targets, m);
    }

    /** sendMessage: written only if the session is open. */
    method Send(sessionId: string, m: C2CMessage)
      modifies this
      ensures open == old(open)
      ensures sent == old(sent) + IfOpen(old(open), sessionId, m)
    {
      if sessionId in open {
        sent := sent + [(sessionId, m)];
      }
    }
  }

  class C2CWebSocketHandler {
    const sessionManager: WebSocketSessionManager
    const broker: RedisMessageBroker<RoomListener>
    const transport: Transport
    const roomRepository: RoomRedisRepository
    const userRepository: UserRedisRepository
    const joinRoomService: JoinRoomService
    const sendMessageService: SendMessageService
    const processHeartbeatService: ProcessHeartbeatService
    const leaveRoomService: LeaveRoomService
    const decoder: Decoder

    /** The services share one room store and one user store, and every component keeps its own invariant. */
    ghost predicate Valid()
      reads this, sessionManager, broker, userRepository
    {
      && sessionManager.Valid() && broker.Valid() && userRepository.Valid()
      && joinRoomService.roomRepository == roomRepository && joinRoomService.userRepository == userRepository
      && sendMessageService.roomRepository == roomRepository
      && processHeartbeatService.userService.userRepository == userRepository
      && leaveRoomService.roomRepository == roomRepository && leaveRoomService.userRedisRepository == userRepository
    }

    constructor (sessionManager: WebSocketSessionManager, broker: RedisMessageBroker<RoomListener>, transport: Transport,
                 roomRepository: RoomRedisRepository, userRepository: UserRedisRepository,
                 joinRoomService: JoinRoomService, sendMessageService: SendMessageService,
                 processHeartbeatService: ProcessHeartbeatService, leaveRoomService: LeaveRoomService, decoder: Decoder)
      requires sessionManager.Valid() && broker.Valid() && userRepository.Valid()
      requires joinRoomService.roomRepository == roomRepository && joinRoomService.userRepository == userRepository
      requires sendMessageService.roomRepository == roomRepository
      requires processHeartbeatService.userService.userRepository == userRepository
      requires leaveRoomService.roomRepository == roomRepository && leaveRoomService.userRedisRepository == userRepository
      ensures Valid()
      ensures this.sessionManager == sessionManager && this.broker == broker && this.transport == transport
      ensures this.roomRepository == roomRepository && this.userRepository == userRepository && this.decoder == decoder
    {
      this.sessionManager := sessionManager;
      this.broker := broker;
      this.transport := transport;
      this.roomRepository := roomRepository;
      this.userRepository := userRepository;
      this.joinRoomService := joinRoomService;
      this.sendMessageService := sendMessageService;
      this.processHeartbeatService := processHeartbeatService;
      this.leaveRoomService := leaveRoomService;
      this.decoder := decoder;
    }

    /** The sessions broadcastToRoom writes to: the room's open sessions bound to a user other than `exclude`. */
    function BroadcastTargets(roomId: string, exclude: Option<string>, open: set<string>): (targets: set<string>)
      reads sessionManager
      ensures targets <= open
    {
      set s | s in sessionManager.GetActiveSessionsInRoom(roomId, open)
                && sessionManager.GetUserId(s).Some?
                && (exclude.None? || sessionManager.GetUserId(s).value != exclude.value)
    }

    /** broadcastToRoom: the envelope goes once to every target, in the registry's order. */
    method BroadcastToRoom(roomId: string, m: C2CMessage, exclude: Option<string>)
      modifies transport
      ensures transport.open == old(transport.open)
      ensures RepliedThenDelivered(old(transport.sent), transport.sent, [], BroadcastTargets(roomId, exclude, transport.open), m)
    {
      var targets := BroadcastTargets(roomId, exclude, transport.open);
      transport.SendToAll(targets, m);
    }

    /** sendErrorMessage. */
    method SendError(sessionId: string, code: string, text: string)
      modifies transport
      ensures transport.open == old(transport.open)
      ensures transport.sent == old(transport.sent) + IfOpen(old(transport.open), sessionId, Error(Some(code), Some(text)))
    {
      transport.Send(sessionId, Error(Some(code), Some(text)));
    }

    /** A join frame the services accept: a room id, a token, and a room the store can rebuild. */
    predicate JoinAccepted(roomId: Option<string>, token: Option<string>)
      reads roomRepository
    {
      !NullOrBlank(roomId) && !NullOrBlank(token) && roomRepository.Rebuildable(roomId.value)
    }

    /**
     * What a successful join leaves behind, given the frames written and the
     * broker's handlers before it: the session is bound to the user and the
     * room, the room's subscription is this user's listener, the joiner was
     * sent the member list (the room's members and the joiner), then every
     * other open session of the room got userJoined.
     */
    ghost predicate Joined(sessionId: string, roomId: string, u: string,
                           sentBefore: seq<Frame>, handlersBefore: map<string, RoomListener>)
      reads sessionManager, broker, transport, roomRepository
    {
      && sessionManager.GetUserId(sessionId) == Some(u) && sessionManager.GetSession(u) == Some(sessionId)
      && sessionManager.GetRoomId(u) == Some(roomId)
      && broker.channelHandlers == handlersBefore[GetChannelKey(roomId) := RoomListener(roomId, u)]
      && exists members :: ListsExactly(members, roomRepository.GetMembers(roomId) + {u}) &&
           RepliedThenDelivered(sentBefore, transport.sent,
             IfOpen(transport.open, sessionId, JoinedResponse(Some(roomId), Some(u), Some(members))),
             BroadcastTargets(roomId, Some(u), transport.open), UserJoined(Some(roomId), Some(u)))
    }

    /**
     * handleJoinMessage. A blank room id or token is answered with an error
     * and changes nothing. Otherwise the user record is written before the
     * room is looked up, so a join to a missing room still leaves the
     * user's records behind; a room that cannot be rebuilt is answered with
     * JOIN_FAILED; and a good one ends as Joined says, the room's single
     * subscription replacing the previous joiner's.
     */
    twostate predicate JoinOutcome(sessionId: string, roomId: Option<string>, token: Option<string>, now: int)
      reads sessionManager, broker, transport, userRepository, roomRepository
    {
      && (NullOrBlank(roomId) ==>
            && transport.sent == old(transport.sent) + IfOpen(old(transport.open), sessionId, Error(Some("INVALID_ROOM_ID"), Some("방 ID가 없습니다")))
            && unchanged(sessionManager, broker, userRepository))
      && (!NullOrBlank(roomId) && NullOrBlank(token) ==>
            && transport.sent == old(transport.sent) + IfOpen(old(transport.open), sessionId, Error(Some("INVALID_TOKEN"), Some("유효하지 않은 토큰입니다")))
            && unchanged(sessionManager, broker, userRepository))
      && (!NullOrBlank(roomId) && !NullOrBlank(token) ==>
            userRepository.IsOnline(JavaTrim(token.value), now))
      && (!NullOrBlank(roomId) && !NullOrBlank(token) && !JoinAccepted(roomId, token) ==>
            && transport.sent == old(transport.sent) + IfOpen(old(transport.open), sessionId,
                 Error(Some("JOIN_FAILED"), Some("방 입장 실패: " + LookupFailureText(roomRepository.Exists(roomId.value), roomId.value))))
            && unchanged(sessionManager, broker))
      && (JoinAccepted(roomId, token) ==>
            Joined(sessionId, roomId.value, JavaTrim(token.value), old(transport.sent), old(broker.channelHandlers)))
    }

    method HandleJoin(sessionId: string, m: C2CMessage, now: int)
      requires Valid()
      modifies sessionManager, broker, transport, userRepository
      ensures Valid()
      ensures transport.open == old(transport.open)
      ensures JoinOutcome(sessionId, m.roomId, m.token, now)
    {
      if NullOrBlank(m.roomId) {
        SendError(sessionId, "INVALID_ROOM_ID", "방 ID가 없습니다");
        return;
      }
      JoinWithToken(sessionId, m.roomId.value, m.token, now);
    }

    /** handleJoinMessage once the room id is known to be there. */
    method JoinWithToken(sessionId: string, roomId: string, token: Option<string>, now: int)
      requires Valid() && !IsBlank(roomId)
      modifies sessionManager, broker, transport, userRepository
      ensures Valid()
      ensures transport.open == old(transport.open)
      ensures JoinOutcome(sessionId, Some(roomId), token, now)
    {
      var userId := ExtractUserIdFromToken(token);
      if userId.None? {
        SendError(sessionId, "INVALID_TOKEN", "유효하지 않은 토큰입니다");
        return;
      }
      JoinAs(sessionId, roomId, userId.value, now);
    }

    /** handleJoinMessage once the room id and the user id are known. */
    method JoinAs(sessionId: string, roomId: string, u: string, now: int)
      requires Valid() && !IsBlank(roomId) && !IsBlank(u)
      modifies sessionManager, broker, transport, userRepository
      ensures Valid()
      ensures transport.open == old(transport.open)
      ensures userRepository.IsOnline(u, now)
      ensures !roomRepository.Rebuildable(roomId) ==>
        && transport.sent == old(transport.sent) + IfOpen(old(transport.open), sessionId,
             Error(Some("JOIN_FAILED"), Some("방 입장 실패: " + LookupFailureText(roomRepository.Exists(roomId), roomId))))
        && unchanged(sessionManager, broker)
      ensures roomRepository.Rebuildable(roomId) ==>
        Joined(sessionId, roomId, u, old(transport.sent), old(broker.channelHandlers))
    {
      var members := CallJoinRoom(roomId, u, now);
      if members.Failure? {
        SendError(sessionId, "JOIN_FAILED", "방 입장 실패: " + members.error);
        return;
      }
      var list := CompleteJoin(sessionId, roomId, u, members.value);
      assert ListsExactly(list, roomRepository.GetMembers(roomId) + {u});
    }

    /** `joinRoomService.joinRoom(new JoinRoomRequest(roomId, userId, null, null, null))`, reduced to what the handler reads. */
    method CallJoinRoom(roomId: string, u: string, now: int) returns (r: Result<set<string>, string>)
      requires !IsBlank(roomId) && !IsBlank(u)
      requires userRepository.Valid() && joinRoomService.roomRepository == roomRepository
      requires joinRoomService.userRepository == userRepository
      modifies userRepository
      ensures userRepository.Valid() && userRepository.IsOnline(u, now)
      ensures r.Success? <==> roomRepository.Rebuildable(roomId)
      ensures r.Success? ==> r.value == roomRepository.GetMembers(roomId) + {u}
      ensures r.Failure? ==> r.error == LookupFailureText(roomRepository.Exists(roomId), roomId)
    {
      var request := JoinRoomRequest(Some(roomId), Some(u), None, None, None);
      var response := joinRoomService.JoinRoom(request, now);
      if response.Failure? {
        return Failure(response.error.Message());
      }
      return Success(response.value.members);
    }

    /** The success path of handleJoinMessage, from registerSession on; `list` is the member list sent. */
    method CompleteJoin(sessionId: string, roomId: string, u: string, members: set<string>) returns (list: seq<string>)
      requires Valid()
      modifies sessionManager, broker, transport
      ensures Valid()
      ensures transport.open == old(transport.open)
      ensures sessionManager.GetUserId(sessionId) == Some(u) && sessionManager.GetSession(u) == Some(sessionId)
      ensures sessionManager.GetRoomId(u) == Some(roomId)
      ensures broker.channelHandlers == old(broker.channelHandlers)[GetChannelKey(roomId) := RoomListener(roomId, u)]
      ensures ListsExactly(list, members)
      ensures RepliedThenDelivered(old(transport.sent), transport.sent,
                IfOpen(transport.open, sessionId, JoinedResponse(Some(roomId), Some(u), Some(list))),
                BroadcastTargets(roomId, Some(u), transport.open), UserJoined(Some(roomId), Some(u)))
    {
      list := ListOf(members);
      sessionManager.RegisterSession(sessionId, u, roomId);
      broker.Subscribe(roomId, RoomListener(roomId, u));
      ghost var before := transport.sent;
      transport.Send(sessionId, JoinedResponse(Some(roomId), Some(u), Some(list)));
      ghost var own := IfOpen(transport.open, sessionId, JoinedResponse(Some(roomId), Some(u), Some(list)));
      ghost var middle := transport.sent;
      BroadcastToRoom(roomId, UserJoined(Some(roomId), Some(u)), Some(u));
      ReplyThenDelivery(before, middle, transport.sent, own, BroadcastTargets(roomId, Some(u), transport.open), UserJoined(Some(roomId), Some(u)));
    }

    /**
     * handleMessageSend. The sender is the user bound to the session, the
     * room is whatever the frame names (no membership check), and on
     * success the notification goes to every open session of that room,
     * the sender's included.
     */
    twostate predicate SendOutcome(sessionId: string, m: C2CMessage)
      reads sessionManager, transport, roomRepository
    {
      var u := sessionManager.GetUserId(sessionId);
      var request := SendMessageRequest(m.roomId, u, m.text, None);
      && (u.None? ==>
            transport.sent == old(transport.sent) + IfOpen(old(transport.open), sessionId,
              Error(Some("NOT_AUTHENTICATED"), Some("인증되지 않은 사용자입니다"))))
      && (u.Some? && NullOrBlank(m.text) ==>
            transport.sent == old(transport.sent) + IfOpen(old(transport.open), sessionId,
              Error(Some("EMPTY_MESSAGE"), Some("빈 메시지는 전송할 수 없습니다"))))
      && (u.Some? && !NullOrBlank(m.text) && request.Validate().Some? ==>
            transport.sent == old(transport.sent) + IfOpen(old(transport.open), sessionId,
              Error(Some("MESSAGE_SEND_FAILED"), Some("메시지 전송 실패: " + request.Validate().value.Message()))))
      && (u.Some? && !NullOrBlank(m.text) && request.Validate().None? && !roomRepository.Rebuildable(m.roomId.value) ==>
            transport.sent == old(transport.sent) + IfOpen(old(transport.open), sessionId,
              Error(Some("MESSAGE_SEND_FAILED"),
                Some("메시지 전송 실패: " + LookupFailureText(roomRepository.Exists(m.roomId.value), m.roomId.value)))))
      && (u.Some? && !NullOrBlank(m.text) && request.Validate().None? && roomRepository.Rebuildable(m.roomId.value) ==>
            RepliedThenDelivered(old(transport.sent), transport.sent, [],
              BroadcastTargets(m.roomId.value, None, transport.open), MessageNotification(m.roomId, u, m.text)))
    }

    /** `uuid` is the id the Message constructor draws for the new message. */
    method HandleMessageSend(sessionId: string, m: C2CMessage, uuid: string, now: int)
      requires Valid() && !IsBlank(uuid)
      modifies transport
      ensures transport.open == old(transport.open)
      ensures SendOutcome(sessionId, m)
    {
      var userId := sessionManager.GetUserId(sessionId);
      if userId.None? {
        SendError(sessionId, "NOT_AUTHENTICATED", "인증되지 않은 사용자입니다");
        return;
      }
      if NullOrBlank(m.text) {
        SendError(sessionId, "EMPTY_MESSAGE", "빈 메시지는 전송할 수 없습니다");
        return;
      }
      var failure := CallSendMessage(m.roomId, userId.value, m.text, uuid, now);
      if failure.Some? {
        SendError(sessionId, "MESSAGE_SEND_FAILED", "메시지 전송 실패: " + failure.value);
        return;
      }
      BroadcastToRoom(m.roomId.value, MessageNotification(m.roomId, userId, m.text), None);
    }

    /** `sendMessageService.sendMessage(new SendMessageRequest(roomId, userId, text, null))`: None, or the exception's text. */
    method CallSendMessage(roomId: Option<string>, u: string, text: Option<string>, uuid: string, now: int)
      returns (failure: Option<string>)
      requires !IsBlank(uuid) && sendMessageService.roomRepository == roomRepository
      ensures var request := SendMessageRequest(roomId, Some(u), text, None);
        && (request.Validate().Some? ==> failure == Some(request.Validate().value.Message()))
        && (request.Validate().None? && !roomRepository.Rebuildable(roomId.value) ==>
              failure == Some(LookupFailureText(roomRepository.Exists(roomId.value), roomId.value)))
        && (failure.None? <==> request.Validate().None? && roomRepository.Rebuildable(roomId.value))
    {
      var response := sendMessageService.SendMessage(SendMessageRequest(roomId, Some(u), text, None), uuid, now);
      if response.Failure? {
        return Some(response.error.Message());
      }
      return None;
    }

    /**
     * handlePingMessage. A session without a user is answered with pong
     * alone; a bound user's presence is refreshed first, and if that throws
     * the answer is HEARTBEAT_FAILED instead of pong.
     */
    twostate predicate PingOutcome(sessionId: string, now: int)
      reads sessionManager, transport, userRepository
    {
      var u := sessionManager.GetUserId(sessionId);
      var request := HeartbeatRequest(u, now);
      && (u.None? ==>
            transport.sent == old(transport.sent) + IfOpen(old(transport.open), sessionId, Pong())
            && unchanged(userRepository))
      && (u.Some? && request.Validate().Some? ==>
            transport.sent == old(transport.sent) + IfOpen(old(transport.open), sessionId,
              Error(Some("HEARTBEAT_FAILED"), Some("하트비트 처리 실패: " + request.Validate().value.Message())))
            && unchanged(userRepository))
      && (u.Some? && request.Validate().None? && !old(userRepository.Exists(u.value, now)) ==>
            transport.sent == old(transport.sent) + IfOpen(old(transport.open), sessionId,
              Error(Some("HEARTBEAT_FAILED"), Some("하트비트 처리 실패: " + Domain(UserException.UserNotFound(u)).Message())))
            && unchanged(userRepository))
      && (u.Some? && request.Validate().None? && old(userRepository.Exists(u.value, now)) ==>
            && transport.sent == old(transport.sent) + IfOpen(old(transport.open), sessionId, Pong())
            && userRepository.IsOnline(u.value, now)
            && userRepository.presence == old(userRepository.presence)[GetPresenceKey(u.value) := now + PRESENCE_TTL_MILLIS])
    }

    /** `now` is System.currentTimeMillis(), the heartbeat's timestamp. */
    method HandlePing(sessionId: string, now: int)
      requires Valid()
      modifies transport, userRepository
      ensures Valid()
      ensures transport.open == old(transport.open)
      ensures PingOutcome(sessionId, now)
    {
      var userId := sessionManager.GetUserId(sessionId);
      if userId.Some? {
        var failure := CallHeartbeat(userId, now);
        if failure.Some? {
          SendError(sessionId, "HEARTBEAT_FAILED", "하트비트 처리 실패: " + failure.value);
          return;
        }
      }
      transport.Send(sessionId, Pong());
    }

    /** `processHeartbeatService.processHeartbeat(new HeartbeatRequest(userId, now))`: None, or the exception's text. */
    method CallHeartbeat(u: Option<string>, now: int) returns (failure: Option<string>)
      requires userRepository.Valid() && processHeartbeatService.userService.userRepository == userRepository
      modifies userRepository
      ensures userRepository.Valid()
      ensures var request := HeartbeatRequest(u, now);
        && (request.Validate().Some? ==> failure == Some(request.Validate().value.Message()))
        && (request.Validate().None? && !old(userRepository.Exists(u.value, now)) ==>
              failure == Some(Domain(UserException.UserNotFound(u)).Message()))
        && (failure.None? <==> request.Validate().None? && old(userRepository.Exists(u.value, now)))
      ensures failure.Some? ==> unchanged(userRepository)
      ensures failure.None? ==>
        && userRepository.IsOnline(u.value, now)
        && userRepository.presence == old(userRepository.presence)[GetPresenceKey(u.value) := now + PRESENCE_TTL_MILLIS]
    {
      var response := processHeartbeatService.ProcessHeartbeat(HeartbeatRequest(u, now), now);
      if response.Failure? {
        return Some(response.error.Message());
      }
      return None;
    }

    /** A leave the service accepts: a room id, a user id, and a room the store can rebuild. */
    predicate LeaveAccepted(u: string, roomId: Option<string>)
      reads roomRepository
    {
      LeaveRoomRequest(roomId, Some(u), Some("explicit")).Validate().None? && roomRepository.Rebuildable(roomId.value)
    }

    /**
     * processUserLeave. Any exception from the service is swallowed, so a
     * refused leave changes nothing and tells nobody, and the session stays
     * bound. An accepted one unbinds the user, drops the room's broker
     * subscription (whoever it listened for), deletes the user's records and
     * tells the room's other open sessions that the user left.
     */
    twostate predicate LeaveOutcome(u: string, roomId: Option<string>)
      reads sessionManager, broker, transport, userRepository, roomRepository
    {
      && (!LeaveAccepted(u, roomId) ==>
            transport.sent == old(transport.sent) && unchanged(sessionManager, broker, userRepository))
      && (LeaveAccepted(u, roomId) ==>
            var session := old(sessionManager.GetSession(u));
            && sessionManager.GetSession(u).None? && sessionManager.GetRoomId(u).None?
            && sessionManager.sessionToUserId ==
                 old(sessionManager.sessionToUserId) - (if session.Some? then {session.value} else {})
            && sessionManager.userToSession == old(sessionManager.userToSession) - {u}
            && sessionManager.userToRoom == old(sessionManager.userToRoom) - {u}
            && broker.channelHandlers == old(broker.channelHandlers) - {GetChannelKey(roomId.value)}
            && userRepository.sessions == old(userRepository.sessions) - {GetSessionKey(u)}
            && userRepository.presence == old(userRepository.presence) - {GetPresenceKey(u)}
            && RepliedThenDelivered(old(transport.sent), transport.sent, [],
                 BroadcastTargets(roomId.value, Some(u), transport.open), UserLeft(roomId, Some(u))))
    }

    method ProcessUserLeave(u: string, roomId: Option<string>, now: int)
      requires Valid()
      modifies sessionManager, broker, transport, userRepository
      ensures Valid()
      ensures transport.open == old(transport.open)
      ensures LeaveOutcome(u, roomId)
    {
      var accepted := CallLeaveRoom(u, roomId, now);
      if accepted {
        CompleteLeave(u, roomId);
      }
    }

    /** The part of processUserLeave after the service accepted: unbind, unsubscribe, tell the room. */
    method CompleteLeave(u: string, roomId: Option<string>)
      requires Valid() && roomId.Some?
      modifies sessionManager, broker, transport
      ensures Valid()
      ensures transport.open == old(transport.open)
      ensures
        var session := old(sessionManager.GetSession(u));
        && sessionManager.GetSession(u).None? && sessionManager.GetRoomId(u).None?
        && sessionManager.sessionToUserId ==
             old(sessionManager.sessionToUserId) - (if session.Some? then {session.value} else {})
        && sessionManager.userToSession == old(sessionManager.userToSession) - {u}
        && sessionManager.userToRoom == old(sessionManager.userToRoom) - {u}
      ensures broker.channelHandlers == old(broker.channelHandlers) - {GetChannelKey(roomId.value)}
      ensures RepliedThenDelivered(old(transport.sent), transport.sent, [],
                BroadcastTargets(roomId.value, Some(u), transport.open), UserLeft(roomId, Some(u)))
    {
      var notice := UserLeft(roomId, Some(u));
      var _ := sessionManager.RemoveUserSession(u);
      broker.Unsubscribe(roomId.value);
      BroadcastToRoom(roomId.value, notice, Some(u));
    }

    /** `leaveRoomService.leaveRoom(new LeaveRoomRequest(roomId, userId, "explicit"))`, reduced to whether it returned. */
    method CallLeaveRoom(u: string, roomId: Option<string>, now: int) returns (accepted: bool)
      requires userRepository.Valid() && leaveRoomService.roomRepository == roomRepository
      requires leaveRoomService.userRedisRepository == userRepository
      modifies userRepository
      ensures userRepository.Valid()
      ensures accepted <==> LeaveAccepted(u, roomId)
      ensures !accepted ==> unchanged(userRepository)
      ensures accepted ==>
        && userRepository.sessions == old(userRepository.sessions) - {GetSessionKey(u)}
        && userRepository.presence == old(userRepository.presence) - {GetPresenceKey(u)}
    {
      var response := leaveRoomService.LeaveRoom(LeaveRoomRequest(roomId, Some(u), Some("explicit")), now);
      return response.Success?;
    }

    /** handleLeaveMessage: a session without a user is ignored; otherwise the frame's room is left. */
    twostate predicate LeaveMessageOutcome(sessionId: string, m: C2CMessage)
      reads sessionManager, broker, transport, userRepository, roomRepository
    {
      var u := old(sessionManager.GetUserId(sessionId));
      && (u.None? ==> transport.sent == old(transport.sent) && unchanged(sessionManager, broker, userRepository))
      && (u.Some? ==> LeaveOutcome(u.value, m.roomId))
    }

    method HandleLeave(sessionId: string, m: C2CMessage, now: int)
      requires Valid()
      modifies sessionManager, broker, transport, userRepository
      ensures Valid()
      ensures transport.open == old(transport.open)
      ensures LeaveMessageOutcome(sessionId, m)
    {
      var userId := sessionManager.GetUserId(sessionId);
      if userId.None? {
        return;
      }
      ProcessUserLeave(userId.value, m.roomId, now);
    }

    /**
     * cleanupSession, run on a transport error and on close: the bound
     * user leaves the room the registry holds for them. Nothing else
     * unbinds the session, so when that leave is refused the closed
     * session stays in the registry.
     */
    method CleanupSession(sessionId: string, now: int)
      requires Valid()
      modifies sessionManager, broker, transport, userRepository
      ensures Valid()
      ensures transport.open == old(transport.open)
      ensures old(sessionManager.GetUserId(sessionId)).None? ==>
        transport.sent == old(transport.sent) && unchanged(sessionManager, broker, userRepository)
      ensures old(sessionManager.GetUserId(sessionId)).Some? ==>
        var u := old(sessionManager.GetUserId(sessionId)).value;
        && old(sessionManager.GetRoomId(u)).Some?
        && LeaveOutcome(u, old(sessionManager.GetRoomId(u)))
      ensures old(sessionManager.GetUserId(sessionId)).Some? &&
              LeaveAccepted(old(sessionManager.GetUserId(sessionId)).value,
                            old(sessionManager.GetRoomId(sessionManager.GetUserId(sessionId).value))) ==>
        sessionManager.GetUserId(sessionId).None?
    {
      var userId := sessionManager.GetUserId(sessionId);
      if userId.Some? {
        sessionManager.SessionOfItsUser(sessionId);
        var roomId := sessionManager.GetRoomId(userId.value);
        ProcessUserLeave(userId.value, roomId, now);
      }
    }

    /**
     * The listener subscribeToRoomMessages registers: a message from
     * someone other than the listening user is forwarded to that user's
     * current session, if it is open.
     */
    method OnRoomMessage(listener: RoomListener, roomIdReceived: string, message: Message)
      modifies transport
      ensures transport.open == old(transport.open)
      ensures listener.userId == message.GetUserId() ==> transport.sent == old(transport.sent)
      ensures listener.userId != message.GetUserId() ==>
        transport.sent == old(transport.sent) +
          match sessionManager.GetSession(listener.userId)
          case None => []
          case Some(session) =>
            IfOpen(old(transport.open), session,
              MessageNotification(Some(roomIdReceived), Some(message.GetUserId()), Some(message.text)))
    {
      if listener.userId != message.GetUserId() {
        var notification := MessageNotification(Some(roomIdReceived), Some(message.GetUserId()), Some(message.text));
        var session := sessionManager.GetSession(listener.userId);
        if session.Some? {
          transport.Send(session.value, notification);
        }
      }
    }

    /**
     * A payload arriving on a subscribed channel: the broker decodes it and
     * hands it, with the channel's room id, to that channel's listener.
     */
    method DeliverFromBroker(channel: string, json: string, decode: string -> Result<Message, string>)
      requires Valid() && channel in broker.channelHandlers
      modifies transport
      ensures transport.open == old(transport.open)
      ensures decode(json).Failure? ==> transport.sent == old(transport.sent)
      ensures decode(json).Success? ==>
        var listener := broker.channelHandlers[channel];
        var message := decode(json).value;
        && GetChannelKey(ExtractRoomIdFromChannel(channel)) == channel
        && (listener.userId == message.GetUserId() ==> transport.sent == old(transport.sent))
        && (listener.userId != message.GetUserId() && sessionManager.GetSession(listener.userId).Some? ==>
              transport.sent == old(transport.sent) +
                IfOpen(old(transport.open), sessionManager.GetSession(listener.userId).value,
                  MessageNotification(Some(ExtractRoomIdFromChannel(channel)), Some(message.GetUserId()), Some(message.text))))
    {
      var received := OnMessage(channel, json, decode);
      if received.Some? {
        OnRoomMessage(broker.channelHandlers[channel], received.value.0, received.value.1);
      }
    }

    /**
     * handleMessage: a text frame goes to handleTextMessage; any other
     * frame is answered with UNSUPPORTED_MESSAGE and nothing else happens.
     */
    method HandleMessage(sessionId: string, frame: WebSocketFrame, uuid: string, now: int)
      requires Valid() && !IsBlank(uuid)
      modifies sessionManager, broker, transport, userRepository
      ensures Valid()
      ensures transport.open == old(transport.open)
      ensures frame.OtherFrame? ==> NonTextAnswered(sessionId)
      ensures frame.TextFrame? ==> TextHandled(sessionId, frame.payload, now)
    {
      if frame.TextFrame? {
        HandleTextMessage(sessionId, frame.payload, uuid, now);
      } else {
        HandleNonText(sessionId);
      }
    }

    /** The reply to a frame that is not text: one error frame and no other change. */
    twostate predicate NonTextAnswered(sessionId: string)
      reads sessionManager, broker, transport, userRepository
    {
      && transport.sent == old(transport.sent) + IfOpen(old(transport.open), sessionId,
           Error(Some("UNSUPPORTED_MESSAGE"), Some("지원하지 않는 메시지 타입입니다")))
      && unchanged(sessionManager, broker, userRepository)
    }

    method HandleNonText(sessionId: string)
      modifies transport
      ensures transport.open == old(transport.open)
      ensures NonTextAnswered(sessionId)
    {
      SendError(sessionId, "UNSUPPORTED_MESSAGE", "지원하지 않는 메시지 타입입니다");
    }

    /**
     * What handleTextMessage does with a payload: PROTOCOL_ERROR for a
     * ProtocolParseException, INTERNAL_ERROR for the null envelope's
     * NullPointerException, and otherwise the switch on the type.
     */
    twostate predicate TextHandled(sessionId: string, payload: Option<string>, now: int)
      reads sessionManager, broker, transport, userRepository, roomRepository
    {
      && (Parse(decoder, payload).Failure? && Parse(decoder, payload).error.ProtocolParseError? ==>
            && transport.sent == old(transport.sent) + IfOpen(old(transport.open), sessionId,
                 Error(Some("PROTOCOL_ERROR"), Some("프로토콜 파싱 오류: " + Parse(decoder, payload).error.text)))
            && unchanged(sessionManager, broker, userRepository))
      && (Parse(decoder, payload) == Failure(NullEnvelope) ==>
            && transport.sent == old(transport.sent) + IfOpen(old(transport.open), sessionId,
                 Error(Some("INTERNAL_ERROR"), Some("서버 내부 오류가 발생했습니다")))
            && unchanged(sessionManager, broker, userRepository))
      && (Parse(decoder, payload).Success? ==>
            var m := Parse(decoder, payload).value;
            Dispatched(sessionId, m, FromValue(m.msgType.value).value, now))
    }

    /**
     * handleTextMessage: parse, then dispatch on the type. A frame that does
     * not parse is answered with PROTOCOL_ERROR, the null envelope with
     * INTERNAL_ERROR; a server-to-client type with UNSUPPORTED_MESSAGE; the
     * four client types go to their handlers.
     */
    method HandleTextMessage(sessionId: string, payload: Option<string>, uuid: string, now: int)
      requires Valid() && !IsBlank(uuid)
      modifies sessionManager, broker, transport, userRepository
      ensures Valid()
      ensures transport.open == old(transport.open)
      ensures TextHandled(sessionId, payload, now)
    {
      var parsed := Parse(decoder, payload);
      if parsed.Failure? {
        match parsed.error {
          case ProtocolParseError(text) =>
            SendError(sessionId, "PROTOCOL_ERROR", "프로토콜 파싱 오류: " + text);
          case NullEnvelope =>
            SendError(sessionId, "INTERNAL_ERROR", "서버 내부 오류가 발생했습니다");
        }
        return;
      }
      ParsedIsRecognised(decoder, payload);
      var m := parsed.value;
      Dispatch(sessionId, m, FromValue(m.msgType.value).value, uuid, now);
    }

    /** What the switch of handleTextMessage does with a parsed envelope, by its type. */
    twostate predicate Dispatched(sessionId: string, m: C2CMessage, t: MessageType, now: int)
      reads sessionManager, broker, transport, userRepository, roomRepository
    {
      && (t == JOIN ==> JoinOutcome(sessionId, m.roomId, m.token, now))
      && (t == MSG ==> SendOutcome(sessionId, m) && unchanged(sessionManager, broker, userRepository))
      && (t == PING ==> PingOutcome(sessionId, now) && unchanged(sessionManager, broker))
      && (t == LEAVE ==> LeaveMessageOutcome(sessionId, m))
      && (t.IsServerToClient() ==>
            && transport.sent == old(transport.sent) + IfOpen(old(transport.open), sessionId,
                 Error(Some("UNSUPPORTED_MESSAGE"), Some("클라이언트에서 지원하지 않는 메시지 타입입니다")))
            && unchanged(sessionManager, broker, userRepository))
    }

    /** `t` is MessageType.fromValue of the envelope's type. */
    method Dispatch(sessionId: string, m: C2CMessage, t: MessageType, uuid: string, now: int)
      requires Valid() && !IsBlank(uuid)
      modifies sessionManager, broker, transport, userRepository
      ensures Valid()
      ensures transport.open == old(transport.open)
      ensures Dispatched(sessionId, m, t, now)
    {
      if t == JOIN {
        DispatchJoin(sessionId, m, now);
      } else if t == MSG {
        DispatchSend(sessionId, m, uuid, now);
      } else if t == PING {
        DispatchPing(sessionId, now);
      } else if t == LEAVE {
        DispatchLeave(sessionId, m, now);
      } else {
        DispatchUnsupported(sessionId, m, t, now);
      }
    }

    method DispatchJoin(sessionId: string, m: C2CMessage, now: int)
      requires Valid()
      modifies sessionManager, broker, transport, userRepository
      ensures Valid()
      ensures transport.open == old(transport.open)
      ensures Dispatched(sessionId, m, JOIN, now)
    {
      HandleJoin(sessionId, m, now);
    }

    method DispatchSend(sessionId: string, m: C2CMessage, uuid: string, now: int)
      requires Valid() && !IsBlank(uuid)
      modifies transport
      ensures Valid()
      ensures transport.open == old(transport.open)
      ensures Dispatched(sessionId, m, MSG, now)
    {
      HandleMessageSend(sessionId, m, uuid, now);
    }

    method DispatchPing(sessionId: string, now: int)
      requires Valid()
      modifies transport, userRepository
      ensures Valid()
      ensures transport.open == old(transport.open)
      ensures forall m: C2CMessage :: Dispatched(sessionId, m, PING, now)
    {
      HandlePing(sessionId, now);
    }

    method DispatchLeave(sessionId: string, m: C2CMessage, now: int)
      requires Valid()
      modifies sessionManager, broker, transport, userRepository
      ensures Valid()
      ensures transport.open == old(transport.open)
      ensures Dispatched(sessionId, m, LEAVE, now)
    {
      HandleLeave(sessionId, m, now);
    }

    method DispatchUnsupported(sessionId: string, m: C2CMessage, t: MessageType, now: int)
      requires Valid() && t !in {JOIN, MSG, PING, LEAVE}
      modifies transport
      ensures Valid()
      ensures transport.open == old(transport.open)
      ensures Dispatched(sessionId, m, t, now)
    {
      SendError(sessionId, "UNSUPPORTED_MESSAGE", "클라이언트에서 지원하지 않는 메시지 타입입니다");
    }
  }
}
