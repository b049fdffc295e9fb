/** The heartbeat use case: validate, refresh presence, and answer with the server clock. */
module ProcessHeartbeatService {
  import opened Wrappers
  import opened Strings
  import opened Faults
  import opened UserRedisRepository
  import opened UserService
  import opened ProcessHeartbeatUseCase
  import UserException

  class ProcessHeartbeatService {
    const userService: UserService

    constructor (userService: UserService)
      ensures this.userService == userService
    {
      this.userService := userService;
    }

    /** isOnline is reported true on success, and the refreshed presence key makes it so. */
    method ProcessHeartbeat(request: HeartbeatRequest, now: int) returns (r: Result<HeartbeatResponse, Fault>)
      requires userService.userRepository.Valid()
      modifies userService.userRepository
      ensures userService.userRepository.Valid()
      ensures request.Validate().Some? ==> r == Failure(request.Validate().value)
      ensures request.Validate().None? && !old(userService.userRepository.Exists(request.userId.value, now)) ==>
        r == Failure(Domain(UserException.UserNotFound(request.userId)))
      ensures r.Success? <==> request.Validate().None? && old(userService.userRepository.Exists(request.userId.value, now))
      ensures r.Failure? ==> unchanged(userService.userRepository)
      ensures r.Success? ==> r.value == HeartbeatResponse(request.userId.value, now, true, HEARTBEAT_INTERVAL_SECONDS)
      ensures r.Success? ==> userService.userRepository.IsOnline(request.userId.value, now)
      ensures r.Success? ==>
        userService.userRepository.presence ==
          old(userService.userRepository.presence)[GetPresenceKey(request.userId.value) := now + PRESENCE_TTL_MILLIS]
    {
      var invalid := request.Validate();
      if invalid.Some? {
        return Failure(invalid.value);
      }
      var userId := request.userId.value;
      var err := userService.ProcessHeartbeat(userId, now);
      if err.Some? {
        return Failure(Domain(err.value));
      }
      return Success(HeartbeatResponse(userId, now, true, userService.GetHeartbeatInterval()));
    }
  }
}
