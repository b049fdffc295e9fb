/** The send request and response records, and the request's own validation. */
module SendMessageUseCase {
  import opened Wrappers
  import opened Strings
  import opened Faults
  import opened Message
  import MessageException

  const REQUEST_SIZE_LIMIT_BYTES: nat := 2048

  datatype SendMessageRequest = SendMessageRequest(
    roomId: Option<string>, fromUserId: Option<string>, text: Option<string>, clientMsgId: Option<string>)
  {
    /** validate: room id, sender, null text, then the UTF-8 size, in that order. */
    function Validate(): (err: Option<Fault>)
      ensures err.None? <==>
        !NullOrBlank(roomId) && !NullOrBlank(fromUserId) && text.Some? && Utf8Length(text.value) <= REQUEST_SIZE_LIMIT_BYTES
      ensures NullOrBlank(roomId) ==> err == Some(IllegalArgument("Room ID is required"))
      ensures !NullOrBlank(roomId) && NullOrBlank(fromUserId) ==> err == Some(IllegalArgument("From User ID is required"))
      ensures !NullOrBlank(roomId) && !NullOrBlank(fromUserId) && text.None? ==>
        err == Some(IllegalArgument("Message text is required"))
      ensures !NullOrBlank(roomId) && !NullOrBlank(fromUserId) && text.Some? && Utf8Length(text.value) > REQUEST_SIZE_LIMIT_BYTES ==>
        err == Some(IllegalArgument("Message size exceeds 2KB limit"))
    {
      if NullOrBlank(roomId) then Some(IllegalArgument("Room ID is required"))
      else if NullOrBlank(fromUserId) then Some(IllegalArgument("From User ID is required"))
      else if text.None? then Some(IllegalArgument("Message text is required"))
      else if Utf8Length(text.value) > REQUEST_SIZE_LIMIT_BYTES then Some(IllegalArgument("Message size exceeds 2KB limit"))
      else None
    }
  }

  /**
   * The pre-check agrees with the domain: a request that passes validate
   * always builds a Message, whatever UUID the constructor draws.
   */
  lemma ValidatedRequestBuildsMessage(request: SendMessageRequest, uuid: string, timestamp: int, now: int)
    requires request.Validate().None? && !IsBlank(uuid)
    ensures CreateForTest(request.fromUserId, request.roomId, request.text, timestamp, uuid, now).Success?
  {
  }

  /** And the two size checks refuse the same requests: validate's 2KB error is the domain's MESSAGE_TOO_LARGE. */
  lemma SizeRefusalsAgree(request: SendMessageRequest, uuid: string, timestamp: int, now: int)
    requires !IsBlank(uuid)
    ensures request.Validate() == Some(IllegalArgument("Message size exceeds 2KB limit")) <==>
      request.text.Some? &&
      CreateForTest(request.fromUserId, request.roomId, request.text, timestamp, uuid, now)
        == Failure(MessageException.MessageTooLarge(Utf8Length(request.text.value), MAX_MESSAGE_SIZE_BYTES))
  {
  }

  /** recipientCount is the member count less the sender, never negative; sent is true whenever a response exists. */
  datatype SendMessageResponse = SendMessageResponse(
    messageId: string, clientMsgId: Option<string>, roomId: string, fromUserId: string,
    text: string, timestamp: int, sent: bool, recipientCount: int)
}
