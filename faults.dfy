/**
 * What a service call of the core can throw: a domain exception, or one of
 * the JDK exceptions the application layer raises (IllegalArgumentException
 * from request validation, RuntimeException for a missing room,
 * NullPointerException).
 */
module Faults {
  import opened Wrappers
  import opened C2CException

  datatype Fault =
    | Domain(error: C2CError)
    | IllegalArgument(text: string)
    | Runtime(text: string)
    | NullPointer(text: string)
  {
    /** Throwable.getMessage(), as the handler concatenates it into its error texts. */
    function Message(): string
    {
      match this
      case Domain(e) => e.GetMessage()
      case IllegalArgument(t) => t
      case Runtime(t) => t
      case NullPointer(t) => t
    }
  }

  /** The text of the RuntimeException thrown when a room lookup comes back empty. */
  function RoomNotFoundText(roomId: string): string
  {
    "방을 찾을 수 없습니다: " + roomId
  }
}
