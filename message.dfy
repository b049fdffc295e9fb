/**
 * The chat message entity: immutable once its validating constructor has
 * accepted it. The message body is never stored by the server.
 */
module Message {
  import opened Wrappers
  import opened Strings
  import opened C2CException
  import RoomException
  import UserException
  import MessageException

  /** The 2 KB limit, in UTF-8 bytes. */
  const MAX_MESSAGE_SIZE_BYTES: nat := 2048

  /** The six fields of the wire payload; `from` is the sender. */
  datatype MessagePayload = MessagePayload(
    msgId: string, clientMsgId: Option<string>, roomId: string,
    from: string, text: string, timestamp: int)

  /** The timestamp is the clock reading taken by the constructor. */
  datatype Message = Message(
    messageId: string, clientMsgId: Option<string>, roomId: string,
    fromUserId: string, text: string, timestamp: int)
  {
    /** What every accepted message satisfies. */
    predicate Valid()
    {
      !IsBlank(messageId) && !IsBlank(roomId) && !IsBlank(fromUserId)
      && Utf8Length(text) <= MAX_MESSAGE_SIZE_BYTES
    }

    /** `text.trim().isEmpty()`. */
    predicate IsEmpty()
    {
      JavaTrim(text) == []
    }

    function GetSizeInBytes(): (n: nat)
      ensures |text| <= n <= 4 * |text|
    {
      Utf8LengthBounds(text);
      Utf8Length(text)
    }

    /** getUserId and getFromUserId both read fromUserId. */
    function GetUserId(): string { fromUserId }

    function ToPayload(): (p: MessagePayload)
      ensures p.msgId == messageId && p.clientMsgId == clientMsgId && p.roomId == roomId
      ensures p.from == GetUserId() && p.text == text && p.timestamp == timestamp
    {
      MessagePayload(messageId, clientMsgId, roomId, fromUserId, text, timestamp)
    }
  }

  /**
   * The five-argument constructor. Its checks run in order: message id,
   * room id, sender id, null text, then the UTF-8 size.
   */
  function Create(messageId: Option<string>, clientMsgId: Option<string>, roomId: Option<string>,
                  fromUserId: Option<string>, text: Option<string>, now: int): (r: Result<Message, C2CError>)
    ensures NullOrBlank(messageId) ==> r == Failure(MessageException.InvalidMessageId(messageId))
    ensures !NullOrBlank(messageId) && NullOrBlank(roomId) ==> r == Failure(RoomException.InvalidRoomId(roomId))
    ensures !NullOrBlank(messageId) && !NullOrBlank(roomId) && NullOrBlank(fromUserId) ==>
      r == Failure(UserException.InvalidUserId(fromUserId))
    ensures !NullOrBlank(messageId) && !NullOrBlank(roomId) && !NullOrBlank(fromUserId) && text.None? ==>
      r == Failure(MessageException.EmptyMessage())
    ensures text.Some? && Utf8Length(text.value) > MAX_MESSAGE_SIZE_BYTES ==>
      r.Failure? && (!NullOrBlank(messageId) && !NullOrBlank(roomId) && !NullOrBlank(fromUserId) ==>
        r.error == MessageException.MessageTooLarge(Utf8Length(text.value), MAX_MESSAGE_SIZE_BYTES))
    ensures r.Success? <==>
      !NullOrBlank(messageId) && !NullOrBlank(roomId) && !NullOrBlank(fromUserId)
      && text.Some? && Utf8Length(text.value) <= MAX_MESSAGE_SIZE_BYTES
    ensures r.Success? ==>
      && r.value.Valid() && r.value.GetSizeInBytes() <= MAX_MESSAGE_SIZE_BYTES
      && r.value == Message(messageId.value, clientMsgId, roomId.value, fromUserId.value, text.value, now)
  {
    if NullOrBlank(messageId) then Failure(MessageException.InvalidMessageId(messageId))
    else if NullOrBlank(roomId) then Failure(RoomException.InvalidRoomId(roomId))
    else if NullOrBlank(fromUserId) then Failure(UserException.InvalidUserId(fromUserId))
    else if text.None? then Failure(MessageException.EmptyMessage())
    else if Utf8Length(text.value) > MAX_MESSAGE_SIZE_BYTES then
      Failure(MessageException.MessageTooLarge(Utf8Length(text.value), MAX_MESSAGE_SIZE_BYTES))
    else Success(Message(messageId.value, clientMsgId, roomId.value, fromUserId.value, text.value, now))
  }

  /**
   * The four-argument test constructor: the message id is a fresh UUID
   * string, there is no client id, and the timestamp argument is ignored.
   */
  function CreateForTest(fromUserId: Option<string>, roomId: Option<string>, text: Option<string>,
                         timestamp: int, uuid: string, now: int): (r: Result<Message, C2CError>)
    requires !IsBlank(uuid)
    ensures r.Success? <==>
      !NullOrBlank(roomId) && !NullOrBlank(fromUserId) && text.Some? && Utf8Length(text.value) <= MAX_MESSAGE_SIZE_BYTES
    ensures r.Success? ==> r.value.messageId == uuid && r.value.clientMsgId.None? && r.value.timestamp == now
  {
    Create(Some(uuid), None, roomId, fromUserId, text, now)
  }

  /** Exactly 2048 bytes is accepted; one byte more is refused. */
  lemma SizeLimitBoundary(messageId: string, roomId: string, fromUserId: string, text: string, now: int)
    requires !IsBlank(messageId) && !IsBlank(roomId) && !IsBlank(fromUserId)
    ensures Utf8Length(text) == 2048 ==> Create(Some(messageId), None, Some(roomId), Some(fromUserId), Some(text), now).Success?
    ensures Utf8Length(text) == 2049 ==>
      Create(Some(messageId), None, Some(roomId), Some(fromUserId), Some(text), now)
        == Failure(MessageException.MessageTooLarge(2049, 2048))
  {
  }

  /** isEmpty holds exactly for whitespace-only text, which the constructor lets through. */
  lemma IsEmptyIffBlank(m: Message)
    ensures m.IsEmpty() <==> IsBlank(m.text)
  {
    TrimEmptyIffBlank(m.text);
  }
}
