/**
 * The protocol envelope: every field of the JSON object is nullable, so
 * each is an Option. The wire name of the discriminator is "t".
 */
module C2CMessage {
  import opened Wrappers
  import opened MessageType

  datatype C2CMessage = C2CMessage(
    msgType: Option<string>,
    roomId: Option<string>,
    token: Option<string>,
    me: Option<string>,
    members: Option<seq<string>>,
    userId: Option<string>,
    text: Option<string>,
    from: Option<string>,
    code: Option<string>,
    message: Option<string>,
    retryAfterMs: Option<int>)

  /** The nine nullable text fields that share one getter/setter shape. */
  datatype TextField = Type | RoomId | Token | Me | UserId | Text | From | Code | MessageText

  /** The no-argument constructor used by the JSON decoder: every field null. */
  function Blank(): (m: C2CMessage)
    ensures forall f :: Get(m, f).None?
    ensures m.members.None? && m.retryAfterMs.None?
  {
    C2CMessage(None, None, None, None, None, None, None, None, None, None, None)
  }

  /** new C2CMessage(MessageType): only the type discriminator is set. */
  function OfType(t: MessageType): (m: C2CMessage)
    ensures Get(m, Type) == Some(t.GetValue())
    ensures forall f :: f != Type ==> Get(m, f).None?
    ensures m.members.None? && m.retryAfterMs.None?
  {
    Blank().(msgType := Some(t.GetValue()))
  }

  /** new C2CMessage(String): the type is stored as given, recognised or not. */
  function OfTypeName(t: Option<string>): (m: C2CMessage)
    ensures Get(m, Type) == t
    ensures forall f :: f != Type ==> Get(m, f).None?
  {
    Blank().(msgType := t)
  }

  function Get(m: C2CMessage, f: TextField): Option<string>
  {
    match f
    case Type => m.msgType
    case RoomId => m.roomId
    case Token => m.token
    case Me => m.me
    case UserId => m.userId
    case Text => m.text
    case From => m.from
    case Code => m.code
    case MessageText => m.message
  }

  /** Each setter replaces exactly its own field. */
  function Set(m: C2CMessage, f: TextField, v: Option<string>): (r: C2CMessage)
    ensures Get(r, f) == v
    ensures forall g :: g != f ==> Get(r, g) == Get(m, g)
    ensures r.members == m.members && r.retryAfterMs == m.retryAfterMs
  {
    match f
    case Type => m.(msgType := v)
    case RoomId => m.(roomId := v)
    case Token => m.(token := v)
    case Me => m.(me := v)
    case UserId => m.(userId := v)
    case Text => m.(text := v)
    case From => m.(from := v)
    case Code => m.(code := v)
    case MessageText => m.(message := v)
  }

  /** Two envelopes agreeing on every getter are equal, so the getters observe the whole value. */
  lemma GettersDetermine(a: C2CMessage, b: C2CMessage)
    requires forall f :: Get(a, f) == Get(b, f)
    requires a.members == b.members && a.retryAfterMs == b.retryAfterMs
    ensures a == b
  {
    assert Get(a, Type) == Get(b, Type) && Get(a, RoomId) == Get(b, RoomId);
    assert Get(a, Token) == Get(b, Token) && Get(a, Me) == Get(b, Me);
    assert Get(a, UserId) == Get(b, UserId) && Get(a, Text) == Get(b, Text);
    assert Get(a, From) == Get(b, From) && Get(a, Code) == Get(b, Code);
    assert Get(a, MessageText) == Get(b, MessageText);
  }

  /** Setting a field to the value it already has changes nothing; a second set overrides the first. */
  lemma SetRoundTrips(m: C2CMessage, f: TextField, v: Option<string>, w: Option<string>)
    ensures Set(m, f, Get(m, f)) == m
    ensures Set(Set(m, f, v), f, w) == Set(m, f, w)
  {
    GettersDetermine(Set(m, f, Get(m, f)), m);
    GettersDetermine(Set(Set(m, f, v), f, w), Set(m, f, w));
  }

  // === Static factory envelopes ===

  /** The envelope's "t" is present and fromValue reads it back as t. */
  predicate IsOf(m: C2CMessage, t: MessageType)
  {
    m.msgType.Some? && FromValue(m.msgType.value) == Success(t)
  }

  /**
   * Each factory writes the wire value of its own type, stores its
   * arguments in their named fields and leaves every other field null.
   */
  function JoinRequest(roomId: Option<string>, token: Option<string>): (m: C2CMessage)
    ensures m.msgType == Some(JOIN.GetValue()) && m.roomId == roomId && m.token == token
    ensures m.me.None? && m.userId.None? && m.text.None? && m.from.None? && m.code.None? && m.message.None?
    ensures m.members.None? && m.retryAfterMs.None?
  {
    OfType(JOIN).(roomId := roomId, token := token)
  }

  function JoinedResponse(roomId: Option<string>, me: Option<string>, members: Option<seq<string>>): (m: C2CMessage)
    ensures m.msgType == Some(JOINED.GetValue()) && m.roomId == roomId && m.me == me && m.members == members
    ensures m.token.None? && m.userId.None? && m.text.None? && m.from.None? && m.code.None? && m.message.None?
    ensures m.retryAfterMs.None?
  {
    OfType(JOINED).(roomId := roomId, me := me, members := members)
  }

  function MessageRequest(roomId: Option<string>, text: Option<string>): (m: C2CMessage)
    ensures m.msgType == Some(MSG.GetValue()) && m.roomId == roomId && m.text == text
    ensures m.token.None? && m.me.None? && m.userId.None? && m.from.None? && m.code.None? && m.message.None?
    ensures m.members.None? && m.retryAfterMs.None?
  {
    OfType(MSG).(roomId := roomId, text := text)
  }

  function MessageNotification(roomId: Option<string>, from: Option<string>, text: Option<string>): (m: C2CMessage)
    ensures m.msgType == Some(MESSAGE.GetValue()) && m.roomId == roomId && m.from == from && m.text == text
    ensures m.token.None? && m.me.None? && m.userId.None? && m.code.None? && m.message.None?
    ensures m.members.None? && m.retryAfterMs.None?
  {
    OfType(MESSAGE).(roomId := roomId, from := from, text := text)
  }

  function Ping(): (m: C2CMessage)
    ensures m.msgType == Some(PING.GetValue())
    ensures forall f :: f != Type ==> Get(m, f).None?
    ensures m.members.None? && m.retryAfterMs.None?
  {
    OfType(PING)
  }

  function Pong(): (m: C2CMessage)
    ensures m.msgType == Some(PONG.GetValue())
    ensures forall f :: f != Type ==> Get(m, f).None?
    ensures m.members.None? && m.retryAfterMs.None?
  {
    OfType(PONG)
  }

  function UserJoined(roomId: Option<string>, userId: Option<string>): (m: C2CMessage)
    ensures m.msgType == Some(USER_JOINED.GetValue()) && m.roomId == roomId && m.userId == userId
    ensures m.token.None? && m.me.None? && m.text.None? && m.from.None? && m.code.None? && m.message.None?
    ensures m.members.None? && m.retryAfterMs.None?
  {
    OfType(USER_JOINED).(roomId := roomId, userId := userId)
  }

  function UserLeft(roomId: Option<string>, userId: Option<string>): (m: C2CMessage)
    ensures m.msgType == Some(USER_LEFT.GetValue()) && m.roomId == roomId && m.userId == userId
    ensures m.token.None? && m.me.None? && m.text.None? && m.from.None? && m.code.None? && m.message.None?
    ensures m.members.None? && m.retryAfterMs.None?
  {
    OfType(USER_LEFT).(roomId := roomId, userId := userId)
  }

  function ErrorWithRetry(code: Option<string>, message: Option<string>, retryAfterMs: Option<int>): (m: C2CMessage)
    ensures m.msgType == Some(ERROR.GetValue()) && m.code == code && m.message == message && m.retryAfterMs == retryAfterMs
    ensures m.roomId.None? && m.token.None? && m.me.None? && m.userId.None? && m.text.None? && m.from.None?
    ensures m.members.None?
  {
    OfType(ERROR).(code := code, message := message, retryAfterMs := retryAfterMs)
  }

  /** error(code, message) is errorWithRetry without a retry hint. */
  function Error(code: Option<string>, message: Option<string>): (m: C2CMessage)
    ensures m == ErrorWithRetry(code, message, None)
    ensures m.msgType == Some(ERROR.GetValue()) && m.code == code && m.message == message && m.retryAfterMs.None?
  {
    ErrorWithRetry(code, message, None)
  }

  /** The type each factory writes is the one fromValue reads back. */
  lemma FactoryTypes(roomId: Option<string>, token: Option<string>, me: Option<string>, members: Option<seq<string>>,
                     userId: Option<string>, text: Option<string>, from: Option<string>,
                     code: Option<string>, message: Option<string>, retryAfterMs: Option<int>)
    ensures IsOf(JoinRequest(roomId, token), JOIN)
    ensures IsOf(MessageRequest(roomId, text), MSG)
    ensures IsOf(Ping(), PING)
    ensures IsOf(JoinedResponse(roomId, me, members), JOINED)
    ensures IsOf(MessageNotification(roomId, from, text), MESSAGE)
    ensures IsOf(Pong(), PONG)
    ensures IsOf(UserJoined(roomId, userId), USER_JOINED)
    ensures IsOf(UserLeft(roomId, userId), USER_LEFT)
    ensures IsOf(ErrorWithRetry(code, message, retryAfterMs), ERROR) && IsOf(Error(code, message), ERROR)
  {
    Carries(JoinRequest(roomId, token), JOIN);
    Carries(MessageRequest(roomId, text), MSG);
    Carries(Ping(), PING);
    Carries(JoinedResponse(roomId, me, members), JOINED);
    Carries(MessageNotification(roomId, from, text), MESSAGE);
    Carries(Pong(), PONG);
    Carries(UserJoined(roomId, userId), USER_JOINED);
    Carries(UserLeft(roomId, userId), USER_LEFT);
    Carries(ErrorWithRetry(code, message, retryAfterMs), ERROR);
    Carries(Error(code, message), ERROR);
  }

  /** An envelope carrying t's wire value in "t" is recognised as t. */
  lemma Carries(m: C2CMessage, t: MessageType)
    requires m.msgType == Some(t.GetValue())
    ensures IsOf(m, t)
  {
    FromValueGetValue(t);
  }

  /** Every envelope built from a MessageType carries a type fromValue maps back to it. */
  lemma OfTypeRecognised(t: MessageType)
    ensures OfType(t).msgType.Some? && FromValue(OfType(t).msgType.value) == Success(t)
  {
    FromValueGetValue(t);
  }
}
