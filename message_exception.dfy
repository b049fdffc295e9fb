/** The static factories of MessageException. */
module MessageException {
  import opened Wrappers
  import opened C2CException

  function MessageTooLarge(actualSize: int, maxSize: int): (e: C2CError)
    ensures e.cls == MessageClass && e.errorCode == "MESSAGE_TOO_LARGE"
    ensures e.parameters == Some([Number(actualSize), Number(maxSize)]) && e.cause.None?
  {
    OfParameters(MessageClass, "MESSAGE_TOO_LARGE", [Number(actualSize), Number(maxSize)])
  }

  /** Built with the single-argument constructor, so its parameters are null. */
  function EmptyMessage(): (e: C2CError)
    ensures e.cls == MessageClass && e.errorCode == "EMPTY_MESSAGE"
    ensures e.parameters.None? && e.cause.None?
  {
    OfCode(MessageClass, "EMPTY_MESSAGE")
  }

  function RateLimitExceeded(userId: Option<string>, currentRate: int, maxRate: int): (e: C2CError)
    ensures e.cls == MessageClass && e.errorCode == "RATE_LIMIT_EXCEEDED"
    ensures e.parameters == Some([Text(userId), Number(currentRate), Number(maxRate)]) && e.cause.None?
  {
    OfParameters(MessageClass, "RATE_LIMIT_EXCEEDED", [Text(userId), Number(currentRate), Number(maxRate)])
  }

  function InvalidMessageId(messageId: Option<string>): (e: C2CError)
    ensures e.cls == MessageClass && e.errorCode == "INVALID_MESSAGE_ID"
    ensures e.parameters == Some([Text(messageId)]) && e.cause.None?
  {
    OfParameters(MessageClass, "INVALID_MESSAGE_ID", [Text(messageId)])
  }

  function MessageSendFailed(messageId: Option<string>, roomId: Option<string>): (e: C2CError)
    ensures e.cls == MessageClass && e.errorCode == "MESSAGE_SEND_FAILED"
    ensures e.parameters == Some([Text(messageId), Text(roomId)]) && e.cause.None?
  {
    OfParameters(MessageClass, "MESSAGE_SEND_FAILED", [Text(messageId), Text(roomId)])
  }

  function DuplicateMessage(clientMsgId: Option<string>): (e: C2CError)
    ensures e.cls == MessageClass && e.errorCode == "DUPLICATE_MESSAGE"
    ensures e.parameters == Some([Text(clientMsgId)]) && e.cause.None?
  {
    OfParameters(MessageClass, "DUPLICATE_MESSAGE", [Text(clientMsgId)])
  }
}
