/** The heartbeat request and response records, and the request's own validation. */
module ProcessHeartbeatUseCase {
  import opened Wrappers
  import opened Strings
  import opened Faults

  /** timestamp is the client's clock, kept for latency measurement and read by nothing. */
  datatype HeartbeatRequest = HeartbeatRequest(userId: Option<string>, timestamp: int)
  {
    function Validate(): (err: Option<Fault>)
      ensures err.None? <==> !NullOrBlank(userId)
      ensures err.Some? ==> err == Some(IllegalArgument("User ID is required"))
    {
      if NullOrBlank(userId) then Some(IllegalArgument("User ID is required")) else None
    }
  }

  datatype HeartbeatResponse = HeartbeatResponse(
    userId: string, serverTimestamp: int, isOnline: bool, heartbeatInterval: int)
}
