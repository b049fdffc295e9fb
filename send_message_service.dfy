/**
 * The application-level send: validate, check that the room exists and
 * build the Message. Publishing is left to the WebSocket handler, so this
 * service changes no state.
 */
module SendMessageService {
  import opened Wrappers
  import opened Strings
  import opened Faults
  import opened Message
  import opened RoomRedisRepository
  import opened SendMessageUseCase

  /** Math.max(0, memberCount - 1). */
  function RecipientCount(memberCount: int): (n: int)
    ensures n >= 0 && (memberCount >= 1 ==> n == memberCount - 1)
  {
    if memberCount - 1 > 0 then memberCount - 1 else 0
  }

  /** When the sender is a member, the recipients are exactly the other members. */
  lemma RecipientsAreTheOthers(members: set<string>, sender: string)
    requires sender in members
    ensures RecipientCount(|members|) == |members - {sender}|
  {
    assert members == (members - {sender}) + {sender};
  }

  /** A sender who is not a member is not subtracted, so the count is one short of the others. */
  lemma NonMemberUndercounts(members: set<string>, sender: string)
    requires sender !in members && members != {}
    ensures RecipientCount(|members|) == |members - {sender}| - 1
  {
    assert members - {sender} == members;
  }

  class SendMessageService {
    const roomRepository: RoomRedisRepository

    constructor (roomRepository: RoomRedisRepository)
      ensures this.roomRepository == roomRepository
    {
      this.roomRepository := roomRepository;
    }

    /** `uuid` is the message id the Message constructor draws. */
    method SendMessage(request: SendMessageRequest, uuid: string, now: int) returns (r: Result<SendMessageResponse, Fault>)
      requires !IsBlank(uuid)
      ensures request.Validate().Some? ==> r == Failure(request.Validate().value)
      ensures request.Validate().None? && !roomRepository.Exists(request.roomId.value) ==>
        r == Failure(Runtime(RoomNotFoundText(request.roomId.value)))
      ensures request.Validate().None? && roomRepository.Exists(request.roomId.value) && !roomRepository.Rebuildable(request.roomId.value) ==>
        r.Failure? && r.error.Message() == "INVALID_USER_ID"
      ensures r.Success? <==> request.Validate().None? && roomRepository.Rebuildable(request.roomId.value)
      ensures r.Success? ==>
        var roomId := request.roomId.value;
        r.value == SendMessageResponse(uuid, None, roomId, request.fromUserId.value, request.text.value, now, true,
          RecipientCount(|roomRepository.GetMembers(roomId)|))
    {
      var invalid := request.Validate();
      if invalid.Some? {
        return Failure(invalid.value);
      }
      var roomId := request.roomId.value;
      var found := roomRepository.FindById(roomId);
      match found
      case Failure(e) =>
        return Failure(Domain(e));
      case Success(None) =>
        return Failure(Runtime(RoomNotFoundText(roomId)));
      case Success(Some(room)) =>
        ValidatedRequestBuildsMessage(request, uuid, now, now);
        var message := CreateForTest(request.fromUserId, request.roomId, request.text, now, uuid, now).value;
        var recipientCount := RecipientCount(room.GetMemberCount());
        return Success(SendMessageResponse(message.messageId, message.clientMsgId, message.roomId,
          message.fromUserId, message.text, message.timestamp, true, recipientCount));
    }
  }
}
