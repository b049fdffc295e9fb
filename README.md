# c2c chat backend in Dafny

c2c is a WebSocket chat server with rooms. A browser client (c2c-common.js) opens a socket and
exchanges flat JSON objects (`C2CMessage`). The discriminator `t` holds one of ten wire values.
The client sends `join`, `msg`, `ping` and `leave`; the server answers with `joined`, `message`,
`pong`, `userJoined`, `userLeft` and `error`. The other fields sit beside `t` and are all
nullable: `roomId`, `token`, `me`, `members`, `userId`, `text`, `from`, `code`, `message` and
`retryAfterMs`. The server side is layered. Use-case records validate their input. Application services (join, send, leave,
heartbeat, create room) call the domain services (RoomService, UserService, MessageService).
The domain services store rooms, users and presence through two Redis-backed repositories and fan
messages out to every server through a Redis pub/sub broker. `C2CWebSocketHandler` ties it
together: it decodes frames, keeps the session/user/room maps in `WebSocketSessionManager`,
subscribes one listener per room channel and writes reply and broadcast frames.

The project models that core:

- the protocol (`MessageType`, `C2CMessage`, `ProtocolParser`);
- the domain values and objects (`Message`, `Room`, `User`, the exception families,
  `ApiResponse`, `GlobalExceptionHandler`);
- the stores, as classes whose map fields are the Redis keys (`RoomRedisRepository`,
  `UserRedisRepository`, `RedisMessageBroker`);
- the services, the use-case validations and the two in-memory registries
  (`WebSocketSessionManager`, `ConnectionStateManager`);
- the WebSocket handler, with a `Transport` class recording every frame written to an open
  session;
- the client's validation rules, time formatting and reconnect back-off.

Clocks are integer parameters `now` in milliseconds. Store TTLs are kept in the units the source
hands to Redis. Generated UUIDs are parameters.

The main properties proved:

- **Protocol.** Every type name round-trips through `fromValue`/`getValue`. Parsing a frame
  and serialising it again gives back the same message.
- **Keys.** Store keys and channel keys are injective, and extracting the id inverts them.
- **Rate limit.** A user can send at most five messages within any one rate window.
- **Room deletion.** Emptiness and scheduled deletion move together: a room left empty gets the
  300-second TTL and a room that gains a member loses it.
- **Session registry.** The registry keeps its two maps inverse to each other.
- **Handler.** Every handler path states exactly which frames go to which sessions, in order,
  and what each store holds afterwards.
- **Client versus server, compared directly:**
  - the client accepts a nickname with a no-break space that the server validator refuses;
  - the client measures message length in UTF-16 units while the server measures UTF-8 bytes;
  - the back-off delays double up to their cap.

## Model

| member | source | states |
|---|---|---|
| ApiResponse.Success | src/main/java/com/c2c/c2c/infrastructure/adapter/in/web/dto/ApiResponse.java:34-36 | a 200 success response carrying the data and no message |
| ApiResponse.SuccessWithMessage | src/main/java/com/c2c/c2c/infrastructure/adapter/in/web/dto/ApiResponse.java:38-40 | a 200 success response carrying the data and the message |
| ApiResponse.Created | src/main/java/com/c2c/c2c/infrastructure/adapter/in/web/dto/ApiResponse.java:42-44 | a 201 success response carrying the data |
| ApiResponse.CreatedWithMessage | src/main/java/com/c2c/c2c/infrastructure/adapter/in/web/dto/ApiResponse.java:46-48 | a 201 success response carrying the data and the message |
| ApiResponse.Error | src/main/java/com/c2c/c2c/infrastructure/adapter/in/web/dto/ApiResponse.java:51-53 | a failed response with the error text, no data and the status code; it is well formed exactly when the status is 400 or above |
| ApiResponse.ErrorWithMessage | src/main/java/com/c2c/c2c/infrastructure/adapter/in/web/dto/ApiResponse.java:55-57 | as Error, also carrying the message |
| ApiResponse.BadRequest | src/main/java/com/c2c/c2c/infrastructure/adapter/in/web/dto/ApiResponse.java:59-61 | a well-formed failure with status 400 and the error text |
| ApiResponse.NotFound | src/main/java/com/c2c/c2c/infrastructure/adapter/in/web/dto/ApiResponse.java:63-65 | a well-formed failure with status 404 |
| ApiResponse.Conflict | src/main/java/com/c2c/c2c/infrastructure/adapter/in/web/dto/ApiResponse.java:67-69 | a well-formed failure with status 409 |
| ApiResponse.InternalError | src/main/java/com/c2c/c2c/infrastructure/adapter/in/web/dto/ApiResponse.java:71-73 | a well-formed failure with status 500 |
| C2CException.OfCode | src/main/java/com/c2c/c2c/domain/exception/C2CException.java:16-20 | an exception whose error code is also its message, with no parameters and no cause |
| C2CException.OfParameters | src/main/java/com/c2c/c2c/domain/exception/C2CException.java:22-26 | as OfCode, and it keeps the parameters |
| C2CException.OfCause | src/main/java/com/c2c/c2c/domain/exception/C2CException.java:28-32 | as OfCode, and it keeps the cause |
| C2CException.OfCauseAndParameters | src/main/java/com/c2c/c2c/domain/exception/C2CException.java:34-38 | as OfCode, and it keeps both the cause and the parameters |
| MessageException.MessageTooLarge | src/main/java/com/c2c/c2c/domain/exception/MessageException.java:31-33 | code MESSAGE_TOO_LARGE with the actual size and the limit as parameters |
| MessageException.EmptyMessage | src/main/java/com/c2c/c2c/domain/exception/MessageException.java:39-41 | code EMPTY_MESSAGE with no parameters |
| MessageException.RateLimitExceeded | src/main/java/com/c2c/c2c/domain/exception/MessageException.java:47-49 | code RATE_LIMIT_EXCEEDED with the user, the current rate and the limit |
| MessageException.InvalidMessageId | src/main/java/com/c2c/c2c/domain/exception/MessageException.java:55-57 | code INVALID_MESSAGE_ID with the id |
| MessageException.MessageSendFailed | src/main/java/com/c2c/c2c/domain/exception/MessageException.java:63-65 | code MESSAGE_SEND_FAILED with the message id and the room id |
| MessageException.DuplicateMessage | src/main/java/com/c2c/c2c/domain/exception/MessageException.java:71-73 | code DUPLICATE_MESSAGE with the client message id |
| RoomException.RoomNotFound | src/main/java/com/c2c/c2c/domain/exception/RoomException.java:31-33 | code ROOM_NOT_FOUND with the room id |
| RoomException.InvalidRoomId | src/main/java/com/c2c/c2c/domain/exception/RoomException.java:39-41 | code INVALID_ROOM_ID with the room id |
| RoomException.RoomScheduledForDeletion | src/main/java/com/c2c/c2c/domain/exception/RoomException.java:47-49 | code ROOM_SCHEDULED_FOR_DELETION with the room id |
| RoomException.RoomCreationFailed | src/main/java/com/c2c/c2c/domain/exception/RoomException.java:55-57 | code ROOM_CREATION_FAILED with the room id |
| RoomException.RoomCapacityExceeded | src/main/java/com/c2c/c2c/domain/exception/RoomException.java:63-65 | code ROOM_CAPACITY_EXCEEDED with the room id, the count and the limit |
| RoomException.InvalidCreatorName | src/main/java/com/c2c/c2c/domain/exception/RoomException.java:71-73 | code INVALID_CREATOR_NAME with the name |
| UserException.UserNotFound | src/main/java/com/c2c/c2c/domain/exception/UserException.java:31-33 | code USER_NOT_FOUND with the user id |
| UserException.InvalidUserId | src/main/java/com/c2c/c2c/domain/exception/UserException.java:39-41 | code INVALID_USER_ID with the user id |
| UserException.UserOffline | src/main/java/com/c2c/c2c/domain/exception/UserException.java:47-49 | code USER_OFFLINE with the user id |
| UserException.HeartbeatTimeout | src/main/java/com/c2c/c2c/domain/exception/UserException.java:55-57 | code HEARTBEAT_TIMEOUT with the user id |
| UserException.InvalidNickname | src/main/java/com/c2c/c2c/domain/exception/UserException.java:63-65 | code INVALID_NICKNAME with the nickname |
| UserException.DuplicateSession | src/main/java/com/c2c/c2c/domain/exception/UserException.java:71-73 | code DUPLICATE_SESSION with the user id |
| UserException.SessionExpired | src/main/java/com/c2c/c2c/domain/exception/UserException.java:79-81 | code SESSION_EXPIRED with the user id |
| GlobalExceptionHandler.MapDomainExceptionToHttpStatus | src/main/java/com/c2c/c2c/infrastructure/adapter/in/web/exception/GlobalExceptionHandler.java:115-127 | for each status, exactly the set of class names mapped to it (404, 409, 400, 401, 403); every other name gives 500 |
| GlobalExceptionHandler.HandleC2CException | src/main/java/com/c2c/c2c/infrastructure/adapter/in/web/exception/GlobalExceptionHandler.java:34-45 | the reply's status is the mapped status, the error is the class name without "Exception", the message is the error code, and it carries no data |
| GlobalExceptionHandler.HandleValidationException | src/main/java/com/c2c/c2c/infrastructure/adapter/in/web/exception/GlobalExceptionHandler.java:51-65 | a well-formed 400 reply |
| GlobalExceptionHandler.HandleTypeMismatchException | src/main/java/com/c2c/c2c/infrastructure/adapter/in/web/exception/GlobalExceptionHandler.java:71-81 | a well-formed 400 reply |
| GlobalExceptionHandler.HandleNoResourceFound | src/main/java/com/c2c/c2c/infrastructure/adapter/in/web/exception/GlobalExceptionHandler.java:87-99 | a well-formed 404 reply |
| GlobalExceptionHandler.HandleGenericException | src/main/java/com/c2c/c2c/infrastructure/adapter/in/web/exception/GlobalExceptionHandler.java:105-110 | a well-formed 500 reply |
| GlobalExceptionHandler.ErrorNames | src/main/java/com/c2c/c2c/infrastructure/adapter/in/web/exception/GlobalExceptionHandler.java:39 | the error names of the four exception classes are C2C, Room, Message and User |
| GlobalExceptionHandler.EveryDomainExceptionIsInternalError | src/main/java/com/c2c/c2c/infrastructure/adapter/in/web/exception/GlobalExceptionHandler.java:115-127 | no exception class this code defines matches a mapped name, so every domain exception becomes a well-formed 500 reply named C2C, Room, Message or User |
| MessageType.Values | src/main/java/com/c2c/c2c/infrastructure/adapter/in/websocket/protocol/MessageType.java:19-75 | the ten constants, every one of them listed |
| MessageType.ValuesComplete | src/main/java/com/c2c/c2c/infrastructure/adapter/in/websocket/protocol/MessageType.java:19-75 | every message type is one of JOIN, MSG, PING, LEAVE, JOINED, MESSAGE, PONG, USER_JOINED, USER_LEFT and ERROR |
| MessageType.FindValue | src/main/java/com/c2c/c2c/infrastructure/adapter/in/websocket/protocol/MessageType.java:91-95 | the scan over the constants returns a constant with the given wire value, or reports that no constant in the list has it |
| MessageType.FromValue | src/main/java/com/c2c/c2c/infrastructure/adapter/in/websocket/protocol/MessageType.java:90-97 | succeeds exactly when some type has the value, then returns a type with that value; otherwise fails with IllegalArgumentException "Unknown message type: " + value |
| MessageType.ValuesDistinct | src/main/java/com/c2c/c2c/infrastructure/adapter/in/websocket/protocol/MessageType.java:19-75 | no two constants share a wire value |
| MessageType.FromValueGetValue | src/main/java/com/c2c/c2c/infrastructure/adapter/in/websocket/protocol/MessageType.java:83-97 | fromValue(t.getValue()) is t for every type |
| MessageType.MsgIsNotMessage | src/main/java/com/c2c/c2c/infrastructure/adapter/in/websocket/protocol/MessageType.java:25-55 | "msg" is the client-to-server MSG and "message" the server-to-client MESSAGE |
| MessageType.MessageType.GetValue | src/main/java/com/c2c/c2c/infrastructure/adapter/in/websocket/protocol/MessageType.java:83-85 | the wire string of each constant; FromValueGetValue and ValuesDistinct state that it identifies the constant |
| MessageType.MessageType.IsClientToServer | src/main/java/com/c2c/c2c/infrastructure/adapter/in/websocket/protocol/MessageType.java:102-104 | holds exactly for the types whose wire value is join, msg, ping or leave |
| MessageType.MessageType.IsServerToClient | src/main/java/com/c2c/c2c/infrastructure/adapter/in/websocket/protocol/MessageType.java:109-111 | holds exactly for the types whose wire value is joined, message, pong, userJoined, userLeft or error |
| C2CMessage.Blank | src/main/java/com/c2c/c2c/infrastructure/adapter/in/websocket/protocol/C2CMessage.java:109-111 | the no-argument constructor leaves every field null |
| C2CMessage.OfType | src/main/java/com/c2c/c2c/infrastructure/adapter/in/websocket/protocol/C2CMessage.java:113-115 | the type constructor sets only the type field, to the type's wire value |
| C2CMessage.OfTypeName | src/main/java/com/c2c/c2c/infrastructure/adapter/in/websocket/protocol/C2CMessage.java:117-119 | the string constructor sets only the type field, to the given text |
| C2CMessage.Set | src/main/java/com/c2c/c2c/infrastructure/adapter/in/websocket/protocol/C2CMessage.java:219-250 | a setter changes its own field and no other |
| C2CMessage.GettersDetermine | src/main/java/com/c2c/c2c/infrastructure/adapter/in/websocket/protocol/C2CMessage.java:219-250 | two messages whose getters all agree are the same message |
| C2CMessage.SetRoundTrips | src/main/java/com/c2c/c2c/infrastructure/adapter/in/websocket/protocol/C2CMessage.java:219-250 | setting a field to its current value changes nothing, and a second set of the same field overrides the first |
| C2CMessage.JoinRequest | src/main/java/com/c2c/c2c/infrastructure/adapter/in/websocket/protocol/C2CMessage.java:126-131 | type join, the room id and token as given; every other field null |
| C2CMessage.JoinedResponse | src/main/java/com/c2c/c2c/infrastructure/adapter/in/websocket/protocol/C2CMessage.java:136-142 | type joined, the room id, own id and member list as given; every other field null |
| C2CMessage.MessageRequest | src/main/java/com/c2c/c2c/infrastructure/adapter/in/websocket/protocol/C2CMessage.java:147-152 | type msg, the room id and text as given; every other field null |
| C2CMessage.MessageNotification | src/main/java/com/c2c/c2c/infrastructure/adapter/in/websocket/protocol/C2CMessage.java:157-163 | type message, the room id, sender and text as given; every other field null |
| C2CMessage.Ping | src/main/java/com/c2c/c2c/infrastructure/adapter/in/websocket/protocol/C2CMessage.java:168-170 | type ping and every other field null |
| C2CMessage.Pong | src/main/java/com/c2c/c2c/infrastructure/adapter/in/websocket/protocol/C2CMessage.java:175-177 | type pong and every other field null |
| C2CMessage.UserJoined | src/main/java/com/c2c/c2c/infrastructure/adapter/in/websocket/protocol/C2CMessage.java:182-187 | type userJoined, the room id and user id as given; every other field null |
| C2CMessage.UserLeft | src/main/java/com/c2c/c2c/infrastructure/adapter/in/websocket/protocol/C2CMessage.java:192-197 | type userLeft, the room id and user id as given; every other field null |
| C2CMessage.ErrorWithRetry | src/main/java/com/c2c/c2c/infrastructure/adapter/in/websocket/protocol/C2CMessage.java:202-208 | type error, the code, message and retry hint as given; every other field null |
| C2CMessage.Error | src/main/java/com/c2c/c2c/infrastructure/adapter/in/websocket/protocol/C2CMessage.java:213-215 | the three-argument error factory with no retry hint: type error, the code and message, and every other field null |
| C2CMessage.FactoryTypes | src/main/java/com/c2c/c2c/infrastructure/adapter/in/websocket/protocol/C2CMessage.java:126-215 | the type each factory writes is read back by fromValue as that factory's own MessageType |
| C2CMessage.OfTypeRecognised | src/main/java/com/c2c/c2c/infrastructure/adapter/in/websocket/protocol/C2CMessage.java:113-115 | a message built from a type parses back to that type |
| ProtocolParser.Parse | src/main/java/com/c2c/c2c/infrastructure/adapter/in/websocket/protocol/ProtocolParser.java:36-63 | a null or blank frame, a decode failure, a missing type and an unknown type each give their own PROTOCOL_ERROR text; the JSON text null, which Jackson decodes to a null object, fails with the separate NullEnvelope error (the NullPointerException of `message.getT()`); parsing succeeds exactly when the frame decodes to a message with a recognised type, and then yields that message |
| ProtocolParser.ParsedIsRecognised | src/main/java/com/c2c/c2c/infrastructure/adapter/in/websocket/protocol/ProtocolParser.java:45-54 | a parsed message has a type whose fromValue gives it back |
| ProtocolParser.UnknownTypeReported | src/main/java/com/c2c/c2c/infrastructure/adapter/in/websocket/protocol/ProtocolParser.java:50-54 | a frame decoding to a message whose non-blank type names no constant yields "알 수 없는 메시지 타입: " followed by the type |
| ProtocolParser.Serialize | src/main/java/com/c2c/c2c/infrastructure/adapter/in/websocket/protocol/ProtocolParser.java:72-90 | a null message and a missing type are refused with their own texts; otherwise the result is the encoder's |
| ProtocolParser.ParseSafely | src/main/java/com/c2c/c2c/infrastructure/adapter/in/websocket/protocol/ProtocolParser.java:96-103 | null exactly when parse fails with a protocol error, parse's message on success; the NullPointerException of the null frame is not caught there and passes through |
| ProtocolParser.SerializeSafely | src/main/java/com/c2c/c2c/infrastructure/adapter/in/websocket/protocol/ProtocolParser.java:109-123 | serialize's text when it succeeds; otherwise the encoded SERIALIZE_ERROR envelope, or the fixed fallback JSON when that encoding fails too |
| ProtocolParser.SerializeErrorEnvelopeWellFormed | src/main/java/com/c2c/c2c/infrastructure/adapter/in/websocket/protocol/ProtocolParser.java:116 | the fallback envelope is a recognised ERROR frame with code SERIALIZE_ERROR |
| ProtocolParser.ParseSerializeRoundTrip | src/main/java/com/c2c/c2c/infrastructure/adapter/in/websocket/protocol/ProtocolParser.java:36-123 | for a decoder that reads the encoder's text back to the message, parsing a serialised recognised message gives it back, also through the safe variants |
| ProtocolParser.ParsedIsSerialisable | src/main/java/com/c2c/c2c/infrastructure/adapter/in/websocket/protocol/ProtocolParser.java:36-90 | a parsed message is refused by serialize only when the encoder itself fails |
| Message.Message.GetSizeInBytes | src/main/java/com/c2c/c2c/domain/model/Message.java:78-80 | the UTF-8 length of the text, between one and four bytes per character |
| Message.Message.ToPayload | src/main/java/com/c2c/c2c/domain/model/Message.java:86-88 | the payload copies the id, client id, room, sender, text and timestamp |
| Message.Create | src/main/java/com/c2c/c2c/domain/model/Message.java:37-66 | the checks run in order: blank message id, blank room id, blank sender, null text, more than 2048 UTF-8 bytes; each gives its own error; it succeeds exactly when all pass, and then yields a valid message under the limit holding those fields and the current time |
| Message.CreateForTest | src/main/java/com/c2c/c2c/domain/model/Message.java:33-35 | the four-argument constructor succeeds under the same conditions with a fresh id, no client id and the current time, ignoring the timestamp it is given |
| Message.SizeLimitBoundary | src/main/java/com/c2c/c2c/domain/model/Message.java:55-57 | a 2048-byte text is accepted and a 2049-byte text is refused with MESSAGE_TOO_LARGE(2049, 2048) |
| Message.IsEmptyIffBlank | src/main/java/com/c2c/c2c/domain/model/Message.java:71-73 | a message is empty exactly when its text is blank |
| Message.Message.IsEmpty | src/main/java/com/c2c/c2c/domain/model/Message.java:71-73 | the trimmed text is empty; IsEmptyIffBlank states that this means a blank text |
| Message.Message.GetUserId | src/main/java/com/c2c/c2c/domain/model/Message.java:103-105 | the sender id |
| Room.Room.constructor | src/main/java/com/c2c/c2c/domain/model/Room.java:28-36 | a room with the id, no members and no deletion scheduled |
| Room.Room.New | src/main/java/com/c2c/c2c/domain/model/Room.java:28-36 | fails with INVALID_ROOM_ID exactly when the id is null or blank; otherwise yields a new empty room |
| Room.Room.AddMember | src/main/java/com/c2c/c2c/domain/model/Room.java:42-53 | a null or blank id fails with INVALID_USER_ID and changes nothing; otherwise the user is added and any scheduled deletion is cancelled, so the room is not due at any time |
| Room.Room.RemoveMember | src/main/java/com/c2c/c2c/domain/model/Room.java:59-66 | the user is removed; the room is scheduled for deletion at now exactly when it is left empty, and otherwise no deletion is scheduled |
| Room.Room.ScheduleForDeletion | src/main/java/com/c2c/c2c/domain/model/Room.java:79-82 | records the empty time and sets the flag; the members are unchanged |
| Room.Room.CancelDeletion | src/main/java/com/c2c/c2c/domain/model/Room.java:88-91 | clears the empty time and the flag; the members are unchanged |
| Room.Room.IsEmpty | src/main/java/com/c2c/c2c/domain/model/Room.java:71-73 | empty exactly when the member count is zero |
| Room.Room.ShouldBeDeleted | src/main/java/com/c2c/c2c/domain/model/Room.java:96-104 | due only when scheduled for deletion, and a due room of a consistent state is empty; ShouldBeDeletedWindow states the five-minute rule |
| Room.Room.GetMembers | src/main/java/com/c2c/c2c/domain/model/Room.java:111-113 | as many members as getMemberCount, and no members exactly when the room is empty |
| Room.Room.GetMemberCount | src/main/java/com/c2c/c2c/domain/model/Room.java:123-125 | zero exactly when the member set is empty |
| Room.ShouldBeDeletedMonotone | src/main/java/com/c2c/c2c/domain/model/Room.java:96-104 | a room that is due for deletion stays due later and is empty |
| Room.ShouldBeDeletedWindow | src/main/java/com/c2c/c2c/domain/model/Room.java:96-104 | due exactly when it has been empty since more than five minutes before now |
| User.User.constructor | src/main/java/com/c2c/c2c/domain/model/User.java:29-37 | an online user seen now, with no session, room, join time, nickname or emoji |
| User.User.New | src/main/java/com/c2c/c2c/domain/model/User.java:29-37 | fails with INVALID_USER_ID exactly when the id is null or blank; otherwise yields such a user |
| User.User.NewWithSession | src/main/java/com/c2c/c2c/domain/model/User.java:39-44 | as New, and also records the session, room and join time |
| User.User.NewWithProfile | src/main/java/com/c2c/c2c/domain/model/User.java:46-50 | as New, and also records the nickname and emoji |
| User.User.UpdateHeartbeat | src/main/java/com/c2c/c2c/domain/model/User.java:56-59 | seen now and online, so it counts as online exactly up to the presence timeout; nothing else changes |
| User.User.MarkOffline | src/main/java/com/c2c/c2c/domain/model/User.java:65-67 | offline at every time afterwards; nothing else changes |
| User.User.IsOnline | src/main/java/com/c2c/c2c/domain/model/User.java:73-88 | answers whether the user was online and within the timeout, and records that answer in the online flag; after a false answer the user is offline at every time until the next heartbeat, and a true answer also holds for every earlier time |
| User.User.OnlineAt | src/main/java/com/c2c/c2c/domain/model/User.java:73-88 | the answer isOnline gives at a time, without its side effect: the flag is set and the last heartbeat is at most 30 seconds old; UpdateHeartbeat, MarkOffline and IsOnline state how it changes |
| User.User.GetDisplayName | src/main/java/com/c2c/c2c/domain/model/User.java:94-102 | the nickname, the emoji or the id, and never blank for a user with a valid id |
| User.User.GetId | src/main/java/com/c2c/c2c/domain/model/User.java:105-107 | the id, never blank for a valid user |
| User.User.GetUserId | src/main/java/com/c2c/c2c/domain/model/User.java:109-111 | the same id as getId |
| User.DisplayName | src/main/java/com/c2c/c2c/domain/model/User.java:94-102 | the nickname if not blank, else the emoji if not blank, else the user id |
| User.DisplayNameNeverBlank | src/main/java/com/c2c/c2c/domain/model/User.java:94-102 | the display name of a user with a real id is never blank and is one of nickname, emoji or id |
| RoomRedisRepository.RoomMembersKey | src/main/java/com/c2c/c2c/infrastructure/adapter/out/redis/RoomRedisRepository.java:68-70 | the key has the room:{id}:members shape |
| RoomRedisRepository.RoomIdOfKeyInverts | src/main/java/com/c2c/c2c/infrastructure/adapter/out/redis/RoomRedisRepository.java:227-228 | cutting the prefix and suffix off a room key gives back the room id |
| RoomRedisRepository.RoomMembersKeyInverts | src/main/java/com/c2c/c2c/infrastructure/adapter/out/redis/RoomRedisRepository.java:215-228 | every key the room:*:members scan finds is the key of the id cut out of it |
| RoomRedisRepository.RoomRedisRepository.constructor | src/main/java/com/c2c/c2c/infrastructure/adapter/out/redis/RoomRedisRepository.java:60-63 | an empty store |
| RoomRedisRepository.RoomRedisRepository.Exists | src/main/java/com/c2c/c2c/infrastructure/adapter/out/redis/RoomRedisRepository.java:202-205 | the room's members key is present |
| RoomRedisRepository.RoomRedisRepository.GetMembers | src/main/java/com/c2c/c2c/infrastructure/adapter/out/redis/RoomRedisRepository.java:171-175 | the members stored under the room's key, or the empty set when the key is absent |
| RoomRedisRepository.RoomRedisRepository.Save | src/main/java/com/c2c/c2c/infrastructure/adapter/out/redis/RoomRedisRepository.java:77-81 | returns the room it was given and writes nothing |
| RoomRedisRepository.RoomRedisRepository.Delete | src/main/java/com/c2c/c2c/infrastructure/adapter/out/redis/RoomRedisRepository.java:120-123 | only the room's key is removed, so the room no longer exists |
| RoomRedisRepository.RoomRedisRepository.AddMember | src/main/java/com/c2c/c2c/infrastructure/adapter/out/redis/RoomRedisRepository.java:131-139 | the user joins the stored set and the key's TTL is cleared; other keys stay, and an empty room still never carries a TTL while members remain |
| RoomRedisRepository.RoomRedisRepository.Persist | src/main/java/com/c2c/c2c/infrastructure/adapter/out/redis/RoomRedisRepository.java:137 | PERSIST drops the key's TTL and keeps its members; it does nothing to an absent key |
| RoomRedisRepository.RoomRedisRepository.RunLeaveScript | src/main/java/com/c2c/c2c/infrastructure/adapter/out/redis/RoomRedisRepository.java:34-56 | the atomic leave script returns {removed, remaining count, ttl set}; removing the last member sets the TTL, a removal that leaves members keeps the old TTL, and nothing changes when the user was not a member |
| RoomRedisRepository.RoomRedisRepository.RemoveMember | src/main/java/com/c2c/c2c/infrastructure/adapter/out/redis/RoomRedisRepository.java:146-164 | runs the script on the room's key with the 300-second TTL, with the same result and store update, and keeps the invariant that only empty rooms carry a TTL |
| RoomRedisRepository.RoomRedisRepository.SetTtl | src/main/java/com/c2c/c2c/infrastructure/adapter/out/redis/RoomRedisRepository.java:182-185 | EXPIRE sets the TTL of an existing key and leaves its members; an absent key is untouched |
| RoomRedisRepository.RoomRedisRepository.RemoveTtl | src/main/java/com/c2c/c2c/infrastructure/adapter/out/redis/RoomRedisRepository.java:192-195 | PERSIST on the room's key: an existing key keeps its members and loses its TTL |
| RoomRedisRepository.RoomRedisRepository.FindById | src/main/java/com/c2c/c2c/infrastructure/adapter/out/redis/RoomRedisRepository.java:88-113 | no key gives null; a blank id throws INVALID_ROOM_ID; a blank stored member throws INVALID_USER_ID; it rebuilds a room exactly when every member id is usable, and the room holds exactly the stored members with no deletion scheduled |
| RoomRedisRepository.RoomRedisRepository.FindEmptyRooms | src/main/java/com/c2c/c2c/infrastructure/adapter/out/redis/RoomRedisRepository.java:212-235 | exactly the existing rooms whose stored set is empty and carries a TTL |
| UserRedisRepository.GetPresenceKey | src/main/java/com/c2c/c2c/infrastructure/adapter/out/redis/UserRedisRepository.java:158-160 | the key has the user:{id}:presence shape |
| UserRedisRepository.GetSessionKey | src/main/java/com/c2c/c2c/infrastructure/adapter/out/redis/UserRedisRepository.java:166-168 | the key has the user:{id}:session shape |
| UserRedisRepository.ExtractInvertsKey | src/main/java/com/c2c/c2c/infrastructure/adapter/out/redis/UserRedisRepository.java:174-188 | dropping the prefix and every copy of the suffix gives back an id that does not itself contain the suffix |
| UserRedisRepository.PresenceKeyRoundTrip | src/main/java/com/c2c/c2c/infrastructure/adapter/out/redis/UserRedisRepository.java:158-178 | extracting the id from a presence key gives back the id |
| UserRedisRepository.SessionKeyRoundTrip | src/main/java/com/c2c/c2c/infrastructure/adapter/out/redis/UserRedisRepository.java:166-188 | extracting the id from a session key gives back the id |
| UserRedisRepository.ExtractShortensSuffixedId | src/main/java/com/c2c/c2c/infrastructure/adapter/out/redis/UserRedisRepository.java:174-178 | the id "a:presence" comes back from its presence key as "a", because every copy of the suffix is replaced |
| UserRedisRepository.KeyOwner | src/main/java/com/c2c/c2c/infrastructure/adapter/out/redis/UserRedisRepository.java:117-118 | a key matching the user:*:suffix pattern is the key of the id between prefix and suffix |
| UserRedisRepository.UserRedisRepository.constructor | src/main/java/com/c2c/c2c/infrastructure/adapter/out/redis/UserRedisRepository.java:37-39 | no session and no presence keys |
| UserRedisRepository.UserRedisRepository.Exists | src/main/java/com/c2c/c2c/infrastructure/adapter/out/redis/UserRedisRepository.java:131-134 | the user's session key is present and not expired |
| UserRedisRepository.UserRedisRepository.IsOnline | src/main/java/com/c2c/c2c/infrastructure/adapter/out/redis/UserRedisRepository.java:103-106 | the user's presence key is present and not expired; UpdatePresence states it holds for 30 seconds |
| UserRedisRepository.UserRedisRepository.UpdatePresence | src/main/java/com/c2c/c2c/infrastructure/adapter/out/redis/UserRedisRepository.java:95-100 | writes the presence key with a 30-second expiry, so the user is online from now until then; sessions are unchanged |
| UserRedisRepository.UserRedisRepository.MarkOffline | src/main/java/com/c2c/c2c/infrastructure/adapter/out/redis/UserRedisRepository.java:109-112 | removes the presence key, so the user is offline at every time; sessions are unchanged |
| UserRedisRepository.UserRedisRepository.Delete | src/main/java/com/c2c/c2c/infrastructure/adapter/out/redis/UserRedisRepository.java:85-92 | removes both keys, so the user neither exists nor is online |
| UserRedisRepository.UserRedisRepository.Save | src/main/java/com/c2c/c2c/infrastructure/adapter/out/redis/UserRedisRepository.java:42-58 | a null join time throws a NullPointerException after the userId, sessionId and roomId hash fields are written; otherwise the session hash gets a 10-minute expiry and presence is refreshed, so the user exists and is online |
| UserRedisRepository.UserRedisRepository.FindById | src/main/java/com/c2c/c2c/infrastructure/adapter/out/redis/UserRedisRepository.java:61-82 | no live session, or one with no session id, gives null; otherwise it rebuilds the user from the hash, online and seen now; a missing join time throws a NullPointerException and a blank id throws INVALID_USER_ID |
| UserRedisRepository.UserRedisRepository.FindOnlineUsers | src/main/java/com/c2c/c2c/infrastructure/adapter/out/redis/UserRedisRepository.java:115-128 | every online user whose id does not contain the suffix is listed, and every listed id is extracted from an online user's key |
| UserRedisRepository.UserRedisRepository.FindTimeoutUsers | src/main/java/com/c2c/c2c/infrastructure/adapter/out/redis/UserRedisRepository.java:137-150 | every listed id is offline and is the id extracted from some live session key; every user with a live session and no presence whose id does not contain ":session" is listed |
| RedisMessageBroker.GetChannelKey | src/main/java/com/c2c/c2c/infrastructure/adapter/out/redis/RedisMessageBroker.java:194-196 | the channel starts with chan: |
| RedisMessageBroker.ExtractRoomIdFromChannel | src/main/java/com/c2c/c2c/infrastructure/adapter/out/redis/RedisMessageBroker.java:202-204 | the channel name with its five-character prefix cut off, and for a chan: channel the room whose channel key it is |
| RedisMessageBroker.ExtractInvertsChannelKey | src/main/java/com/c2c/c2c/infrastructure/adapter/out/redis/RedisMessageBroker.java:202-204 | extracting from a room's channel gives back the room id |
| RedisMessageBroker.ChannelKeyInvertsExtract | src/main/java/com/c2c/c2c/infrastructure/adapter/out/redis/RedisMessageBroker.java:194-204 | every chan: channel is the channel of the id extracted from it |
| RedisMessageBroker.ChannelKeyInjective | src/main/java/com/c2c/c2c/infrastructure/adapter/out/redis/RedisMessageBroker.java:194-196 | distinct rooms have distinct channels |
| RedisMessageBroker.OnMessage | src/main/java/com/c2c/c2c/infrastructure/adapter/out/redis/RedisMessageBroker.java:234-249 | a frame that fails to decode is dropped; otherwise the handler receives the room whose channel it came on and the decoded message |
| RedisMessageBroker.DeliveryNamesTheRoom | src/main/java/com/c2c/c2c/infrastructure/adapter/out/redis/RedisMessageBroker.java:234-249 | a message published on a room's channel is delivered for that room |
| RedisMessageBroker.RedisMessageBroker.HandlerOf | src/main/java/com/c2c/c2c/infrastructure/adapter/out/redis/RedisMessageBroker.java:77-104 | a room has a handler exactly when its channel is registered |
| RedisMessageBroker.RedisMessageBroker.constructor | src/main/java/com/c2c/c2c/infrastructure/adapter/out/redis/RedisMessageBroker.java:44-56 | no handlers, nothing published, the listener container running |
| RedisMessageBroker.RedisMessageBroker.Publish | src/main/java/com/c2c/c2c/infrastructure/adapter/out/redis/RedisMessageBroker.java:59-74 | an encode or send failure becomes a runtime error with the "메시지 발행 실패: " prefix and publishes nothing; otherwise the encoded message is appended on the room's channel; handlers are untouched |
| RedisMessageBroker.RedisMessageBroker.Subscribe | src/main/java/com/c2c/c2c/infrastructure/adapter/out/redis/RedisMessageBroker.java:77-104 | the room's channel now has this handler, replacing any earlier one |
| RedisMessageBroker.RedisMessageBroker.Unsubscribe | src/main/java/com/c2c/c2c/infrastructure/adapter/out/redis/RedisMessageBroker.java:107-126 | only the room's channel handler is removed |
| RedisMessageBroker.RedisMessageBroker.UnsubscribeAll | src/main/java/com/c2c/c2c/infrastructure/adapter/out/redis/RedisMessageBroker.java:129-143 | no handler remains |
| RedisMessageBroker.RedisMessageBroker.Reconnect | src/main/java/com/c2c/c2c/infrastructure/adapter/out/redis/RedisMessageBroker.java:160-186 | the container runs again with the same handlers |
| RoomService.RoomService.constructor | src/main/java/com/c2c/c2c/domain/service/RoomService.java:26-28 | the service holds the repository it is given |
| RoomService.RoomService.GetOrCreateRoom | src/main/java/com/c2c/c2c/domain/service/RoomService.java:34-44 | a null or blank id throws INVALID_ROOM_ID; otherwise it succeeds exactly when the room is absent or readable, and yields an unscheduled room holding the stored members |
| RoomService.RoomService.JoinRoom | src/main/java/com/c2c/c2c/domain/service/RoomService.java:51-67 | succeeds exactly when both ids are present and the room is absent or readable; the user is added to the stored set and its TTL cleared, the returned room holds old members plus the user, a failure writes nothing, and only empty rooms keep carrying a TTL |
| RoomService.RoomService.LeaveRoom | src/main/java/com/c2c/c2c/domain/service/RoomService.java:74-90 | a missing room throws ROOM_NOT_FOUND; it succeeds exactly when the room is readable; the user leaves the stored set, a room left empty gets the 300-second TTL and is scheduled for deletion at now, a failure writes nothing |
| RoomService.RoomService.StoreLeave | src/main/java/com/c2c/c2c/domain/service/RoomService.java:82-87 | the script's removal followed by setTTL when the room is left empty gives exactly the members minus the user, under a 300-second TTL when none remain |
| RoomService.RoomService.GetRoomMembers | src/main/java/com/c2c/c2c/domain/service/RoomService.java:95-101 | ROOM_NOT_FOUND exactly when the room's key is absent, otherwise the stored members |
| RoomService.RoomService.GetRoomInfo | src/main/java/com/c2c/c2c/domain/service/RoomService.java:113-116 | ROOM_NOT_FOUND for a missing room; succeeds exactly when the room is readable, with the stored members |
| RoomService.RoomService.DeleteIfDue | src/main/java/com/c2c/c2c/domain/service/RoomService.java:126-130 | the room's key is deleted exactly when the room is due, and nothing else changes |
| RoomService.RoomService.CleanupExpiredRooms | src/main/java/com/c2c/c2c/domain/service/RoomService.java:122-132 | the store is left exactly as it was, because a room read back from the store is never scheduled for deletion |
| RoomService.RoomService.DeleteRoom | src/main/java/com/c2c/c2c/domain/service/RoomService.java:137-143 | a missing room throws ROOM_NOT_FOUND and changes nothing; otherwise only its key is removed |
| RoomService.RoomService.RoomExists | src/main/java/com/c2c/c2c/domain/service/RoomService.java:106-108 | the store's exists for the room |
| UserService.PresenceAgreesWithEntity | src/main/java/com/c2c/c2c/domain/service/UserService.java:24-25 | after a heartbeat at t, the entity's isOnline and the presence key agree: both online for the 30 second timeout and both offline after it, except at exactly t + 30 s, where the entity still answers online and the key has expired |
| UserService.UserService.constructor | src/main/java/com/c2c/c2c/domain/service/UserService.java:27-29 | the service holds the repository it is given |
| UserService.UserService.RegisterUser | src/main/java/com/c2c/c2c/domain/service/UserService.java:35-43 | a null or blank id throws INVALID_USER_ID and writes nothing; otherwise a new online user with the nickname and emoji whose presence is refreshed; sessions are not written |
| UserService.UserService.ProcessHeartbeat | src/main/java/com/c2c/c2c/domain/service/UserService.java:50-57 | USER_NOT_FOUND exactly when the user has no live session, writing nothing; otherwise presence is refreshed, so the user is online for exactly the next 30 seconds |
| UserService.UserService.MarkUserOffline | src/main/java/com/c2c/c2c/domain/service/UserService.java:71-73 | only the presence key is removed |
| UserService.UserService.GetUserInfo | src/main/java/com/c2c/c2c/domain/service/UserService.java:79-93 | USER_NOT_FOUND without a live session, INVALID_USER_ID for a blank id; on success a user with that id whose online flag is the stored presence |
| UserService.UserService.GetOnlineUsers | src/main/java/com/c2c/c2c/domain/service/UserService.java:99-101 | includes every online user whose id does not contain the suffix |
| UserService.UserService.CleanupTimeoutUsers | src/main/java/com/c2c/c2c/domain/service/UserService.java:108-114 | exactly the presence keys of the users that had timed out are removed, so each of them is offline at every time; sessions are unchanged |
| UserService.UserService.DisconnectUser | src/main/java/com/c2c/c2c/domain/service/UserService.java:120-124 | a user with a live session loses both keys; for any other user nothing changes |
| UserService.UserService.GetHeartbeatInterval | src/main/java/com/c2c/c2c/domain/service/UserService.java:129-131 | a third of the presence timeout |
| UserService.UserService.GetPresenceTimeout | src/main/java/com/c2c/c2c/domain/service/UserService.java:136-138 | the store's presence TTL, in seconds |
| UserService.UserService.IsUserOnline | src/main/java/com/c2c/c2c/domain/service/UserService.java:63-65 | the store's presence check for the user |
| MessageService.CheckWindow | src/main/java/com/c2c/c2c/domain/service/MessageService.java:99-103 | a missing or expired window restarts at now with count zero, and an open window is kept |
| MessageService.Attempt | src/main/java/com/c2c/c2c/domain/service/MessageService.java:56-77 | one send attempt succeeds exactly when the checked window has room and the rest of the send succeeds, and then adds one to the count; a refused attempt leaves the checked window |
| MessageService.RunWithinWindow | src/main/java/com/c2c/c2c/domain/service/MessageService.java:95-110 | over any run of attempts inside one window, the count grows by exactly the number of successes and never passes five |
| MessageService.AtMostFivePerWindow | src/main/java/com/c2c/c2c/domain/service/MessageService.java:36-37 | a user gets at most five messages accepted within one one-second window |
| MessageService.CleanupWindowUnobservable | src/main/java/com/c2c/c2c/domain/service/MessageService.java:154-159 | dropping an expired reset time changes no later rate decision |
| MessageService.MessageService.constructor | src/main/java/com/c2c/c2c/domain/service/MessageService.java:40-43 | empty counters and no recorded client ids |
| MessageService.MessageService.ValidateRateLimit | src/main/java/com/c2c/c2c/domain/service/MessageService.java:95-110 | the user's window becomes the checked window and no other user's changes; it fails with RATE_LIMIT_EXCEEDED and the current count exactly when five messages are already counted |
| MessageService.MessageService.ValidateDuplicateMessage | src/main/java/com/c2c/c2c/domain/service/MessageService.java:115-126 | DUPLICATE_MESSAGE exactly when the id was recorded less than a minute ago; otherwise any stale record is removed |
| MessageService.MessageService.IncrementMessageCount | src/main/java/com/c2c/c2c/domain/service/MessageService.java:131-134 | the user's count goes up by one, starting from zero when absent |
| MessageService.MessageService.RecordClientMsgId | src/main/java/com/c2c/c2c/domain/service/MessageService.java:139-141 | the client id is recorded at now |
| MessageService.MessageService.SendMessage | src/main/java/com/c2c/c2c/domain/service/MessageService.java:49-89 | ROOM_NOT_FOUND for a missing room, RATE_LIMIT_EXCEEDED for a full window, DUPLICATE_MESSAGE for a client id seen within a minute; once those pass, the constructor's own error, or EMPTY_MESSAGE for a blank text; success exactly when every check and the publish pass, returning the built message; a failed publish gives MESSAGE_SEND_FAILED; the window counts only successful sends; the client id is recorded with the send time on success, its old entry is dropped by a failure after the duplicate check, and an earlier failure leaves the ids as they were |
| MessageService.MessageService.ValidateSend | src/main/java/com/c2c/c2c/domain/service/MessageService.java:50-61 | the room check, the rate check and the duplicate check in that order, with their errors and the window update; no error exactly when all three pass, and an error leaves the client ids unchanged |
| MessageService.MessageService.CreateAndPublish | src/main/java/com/c2c/c2c/domain/service/MessageService.java:63-88 | a build error or an empty text is returned as such; a message that can be delivered succeeds exactly when the publish does, and only success counts and records the send |
| MessageService.MessageService.RecordSend | src/main/java/com/c2c/c2c/domain/service/MessageService.java:76-82 | a successful send adds one to the window and records the client id when there is one |
| MessageService.MessageService.Cleanup | src/main/java/com/c2c/c2c/domain/service/MessageService.java:154-164 | exactly the reset times older than the window and the client ids older than a minute are dropped; counts are kept; and no rate decision or duplicate verdict taken then or later can tell the difference |
| MessageService.MessageService.GetCurrentMessageCount | src/main/java/com/c2c/c2c/domain/service/MessageService.java:169-172 | zero for an unknown user, and never more than five while the counts stay bounded |
| JoinRoomUseCase.JoinRoomRequest.Validate | src/main/java/com/c2c/c2c/domain/port/in/JoinRoomUseCase.java:35-42 | no error exactly when the room id and the user id are present; each missing one has its own IllegalArgumentException text, room first |
| LeaveRoomUseCase.LeaveRoomRequest.Validate | src/main/java/com/c2c/c2c/domain/port/in/LeaveRoomUseCase.java:34-41 | no error exactly when the room id and the user id are present; each missing one has its own text, room first |
| SendMessageUseCase.SendMessageRequest.Validate | src/main/java/com/c2c/c2c/domain/port/in/SendMessageUseCase.java:35-51 | no error exactly when the room id and sender are present and the text is present and at most 2048 UTF-8 bytes; each failure has its own text in that order |
| SendMessageUseCase.ValidatedRequestBuildsMessage | src/main/java/com/c2c/c2c/domain/port/in/SendMessageUseCase.java:35-51 | a request that validates always builds a Message |
| SendMessageUseCase.SizeRefusalsAgree | src/main/java/com/c2c/c2c/domain/port/in/SendMessageUseCase.java:46-50 | validate refuses a request for size exactly when the domain constructor, given the same fields, refuses it with MESSAGE_TOO_LARGE |
| ProcessHeartbeatUseCase.HeartbeatRequest.Validate | src/main/java/com/c2c/c2c/domain/port/in/ProcessHeartbeatUseCase.java:32-36 | no error exactly when the user id is present; otherwise "User ID is required" |
| JoinRoomService.JoinRoomService.constructor | src/main/java/com/c2c/c2c/application/service/JoinRoomService.java:28-31 | the service holds both repositories |
| JoinRoomService.JoinRoomService.JoinRoomAsWritten | src/main/java/com/c2c/c2c/application/service/JoinRoomService.java:43-71 | an invalid request fails with its validation error and writes nothing; every valid request fails with the NullPointerException of saving a user with no join time, after its first hash fields were written |
| JoinRoomService.JoinRoomService.JoinRoom | src/main/java/com/c2c/c2c/application/service/JoinRoomService.java:43-71 | with the join time set: an invalid request writes nothing; a valid one always writes the user's session and presence; a missing room fails with "방을 찾을 수 없습니다: " and the id; it succeeds exactly when the room is readable, answering with the display name, the members plus the user, their count and whether the room was empty; the room set in the store is not changed |
| JoinRoomService.JoinRoomService.EnterRoom | src/main/java/com/c2c/c2c/application/service/JoinRoomService.java:52-70 | the room lookup and response half of joinRoom, with the same outcomes |
| LeaveRoomService.LeaveRoomService.constructor | src/main/java/com/c2c/c2c/application/service/LeaveRoomService.java:28-31 | the service holds both repositories |
| LeaveRoomService.LeaveRoomService.LeaveRoom | src/main/java/com/c2c/c2c/application/service/LeaveRoomService.java:43-71 | an invalid request or a missing or unreadable room fails and writes nothing; on success the response lists the remaining members, says whether the room is now empty and scheduled, and the user's session and presence keys are deleted; the room set in the store is not changed |
| SendMessageService.RecipientCount | src/main/java/com/c2c/c2c/application/service/SendMessageService.java:62 | never negative, and one less than the member count when there is a member |
| SendMessageService.RecipientsAreTheOthers | src/main/java/com/c2c/c2c/application/service/SendMessageService.java:62 | for a sender in the room, the count is the number of other members |
| SendMessageService.NonMemberUndercounts | src/main/java/com/c2c/c2c/application/service/SendMessageService.java:62 | for a sender outside a non-empty room, the count is one less than the members who would receive it |
| SendMessageService.SendMessageService.constructor | src/main/java/com/c2c/c2c/application/service/SendMessageService.java:26-29 | the service holds the repository |
| SendMessageService.SendMessageService.SendMessage | src/main/java/com/c2c/c2c/application/service/SendMessageService.java:42-75 | an invalid request fails with its validation error; a missing room fails with "방을 찾을 수 없습니다: " and the id; it succeeds exactly when the room is readable, answering with a fresh id, no client id, the sender, the text, the current time and the recipient count; nothing is published |
| ProcessHeartbeatService.ProcessHeartbeatService.constructor | src/main/java/com/c2c/c2c/application/service/ProcessHeartbeatService.java:20-22 | the service holds the user service |
| ProcessHeartbeatService.ProcessHeartbeatService.ProcessHeartbeat | src/main/java/com/c2c/c2c/application/service/ProcessHeartbeatService.java:33-48 | an invalid request fails with its validation error, an unknown user with USER_NOT_FOUND, and neither writes; otherwise presence is refreshed, the user is online, and the answer carries the server time, online and the 10-second interval |
| CreateRoomService.ReplaceCharAppend | src/main/java/com/c2c/c2c/application/service/CreateRoomService.java:42 | removing one character from a concatenation removes it from each part |
| CreateRoomService.NoDashInFirstGroup | src/main/java/com/c2c/c2c/application/service/CreateRoomService.java:41-43 | the first eight characters of a UUID string contain no dash |
| CreateRoomService.GenerateRoomId | src/main/java/com/c2c/c2c/application/service/CreateRoomService.java:40-45 | the id is eight lower-case hex characters with no dash, namely the UUID's first group |
| CreateRoomService.GenerateRoomIdSteps | src/main/java/com/c2c/c2c/application/service/CreateRoomService.java:40-45 | without its dashes the UUID still has at least eight characters, and lowering its first eight gives that first group |
| CreateRoomService.RoomIdCollision | src/main/java/com/c2c/c2c/application/service/CreateRoomService.java:40-45 | two UUIDs give the same room id exactly when their first groups agree |
| NicknameValidator.ScanForbidden | src/main/java/com/c2c/c2c/infrastructure/adapter/in/web/validation/NicknameValidator.java:49-56 | the loop over the forbidden names answers whether the lower-cased name contains any of the remaining names, lower-cased |
| NicknameValidator.CheckTrimmed | src/main/java/com/c2c/c2c/infrastructure/adapter/in/web/validation/NicknameValidator.java:29-58 | accepted exactly when the trimmed name has 1 to 20 UTF-16 units, matches the pattern and contains no forbidden name; the length, pattern and forbidden checks give their own messages in that order |
| NicknameValidator.Check | src/main/java/com/c2c/c2c/infrastructure/adapter/in/web/validation/NicknameValidator.java:24-59 | null is refused with no message; otherwise the same verdict as CheckTrimmed on the trimmed name |
| NicknameValidator.TrimmedValueDecides | src/main/java/com/c2c/c2c/infrastructure/adapter/in/web/validation/NicknameValidator.java:29 | surrounding whitespace never changes the verdict |
| NicknameValidator.NicknameCharIsBmp | src/main/java/com/c2c/c2c/infrastructure/adapter/in/web/validation/NicknameValidator.java:15 | every character the pattern allows is a single UTF-16 unit |
| NicknameValidator.ValidIsNonBlank | src/main/java/com/c2c/c2c/infrastructure/adapter/in/web/validation/NicknameValidator.java:32 | an accepted name is not blank and its trimmed value has 1 to 20 characters |
| NicknameValidator.PatternLength | src/main/java/com/c2c/c2c/infrastructure/adapter/in/web/validation/NicknameValidator.java:15 | for a name matching the pattern, the UTF-16 length is the character count |
| NicknameValidator.ForbiddenAsSubstringAnyCase | src/main/java/com/c2c/c2c/infrastructure/adapter/in/web/validation/NicknameValidator.java:48-55 | "RoBot" is refused as a forbidden name, because the check is a case-insensitive substring test |
| NicknameValidator.RoBotTrims | src/main/java/com/c2c/c2c/infrastructure/adapter/in/web/validation/NicknameValidator.java:29 | "RoBot" is its own trimmed value |
| NicknameValidator.RoBotIsWellFormed | src/main/java/com/c2c/c2c/infrastructure/adapter/in/web/validation/NicknameValidator.java:32-40 | "RoBot" passes the length and pattern checks |
| NicknameValidator.RoBotNamesBot | src/main/java/com/c2c/c2c/infrastructure/adapter/in/web/validation/NicknameValidator.java:48-50 | lower-cased, "RoBot" contains "bot" |
| NicknameValidator.HangulNicknameAccepted | src/main/java/com/c2c/c2c/infrastructure/adapter/in/web/validation/NicknameValidator.java:24-59 | "홍길동" is accepted |
| NicknameValidator.HangulTrims | src/main/java/com/c2c/c2c/infrastructure/adapter/in/web/validation/NicknameValidator.java:29 | "홍길동" is its own trimmed value |
| NicknameValidator.HangulIsWellFormed | src/main/java/com/c2c/c2c/infrastructure/adapter/in/web/validation/NicknameValidator.java:32-40 | "홍길동" passes the length and pattern checks |
| NicknameValidator.HangulNamesNothing | src/main/java/com/c2c/c2c/infrastructure/adapter/in/web/validation/NicknameValidator.java:48-50 | "홍길동" contains no forbidden name |
| WebSocketSessionManager.WebSocketSessionManager.constructor | src/main/java/com/c2c/c2c/infrastructure/adapter/in/websocket/WebSocketSessionManager.java:28-34 | three empty maps, which are trivially consistent |
| WebSocketSessionManager.WebSocketSessionManager.GetSession | src/main/java/com/c2c/c2c/infrastructure/adapter/in/websocket/WebSocketSessionManager.java:103-105 | the user's session exactly when the user is registered |
| WebSocketSessionManager.WebSocketSessionManager.GetUserId | src/main/java/com/c2c/c2c/infrastructure/adapter/in/websocket/WebSocketSessionManager.java:113-115 | the session's user exactly when the session is registered |
| WebSocketSessionManager.WebSocketSessionManager.GetRoomId | src/main/java/com/c2c/c2c/infrastructure/adapter/in/websocket/WebSocketSessionManager.java:123-125 | the user's room exactly when one is recorded |
| WebSocketSessionManager.WebSocketSessionManager.SessionOfItsUser | src/main/java/com/c2c/c2c/infrastructure/adapter/in/websocket/WebSocketSessionManager.java:43-95 | the two maps stay inverse: a registered session is the session of its user, and that user has a room |
| WebSocketSessionManager.WebSocketSessionManager.IsUserOnline | src/main/java/com/c2c/c2c/infrastructure/adapter/in/websocket/WebSocketSessionManager.java:133-136 | the user has a registered session and that session is open |
| WebSocketSessionManager.WebSocketSessionManager.RegisterSession | src/main/java/com/c2c/c2c/infrastructure/adapter/in/websocket/WebSocketSessionManager.java:43-55 | the user's earlier session is dropped first, then the session, user and room are linked both ways; the maps stay consistent |
| WebSocketSessionManager.WebSocketSessionManager.RemoveSession | src/main/java/com/c2c/c2c/infrastructure/adapter/in/websocket/WebSocketSessionManager.java:63-75 | returns the session's user; when there is one, the session and that user's session and room entries are removed, and otherwise nothing changes |
| WebSocketSessionManager.WebSocketSessionManager.RemoveUserSession | src/main/java/com/c2c/c2c/infrastructure/adapter/in/websocket/WebSocketSessionManager.java:83-95 | returns the user's session; when there is one, it and the user's entries are removed; afterwards the user has neither session nor room |
| WebSocketSessionManager.WebSocketSessionManager.GetUsersInRoom | src/main/java/com/c2c/c2c/infrastructure/adapter/in/websocket/WebSocketSessionManager.java:144-149 | exactly the users whose recorded room is this one |
| WebSocketSessionManager.WebSocketSessionManager.GetActiveSessionsInRoom | src/main/java/com/c2c/c2c/infrastructure/adapter/in/websocket/WebSocketSessionManager.java:157-162 | exactly the open sessions of the room's users |
| WebSocketSessionManager.WebSocketSessionManager.GetAllActiveUsers | src/main/java/com/c2c/c2c/infrastructure/adapter/in/websocket/WebSocketSessionManager.java:169-174 | exactly the users whose session is open |
| WebSocketSessionManager.WebSocketSessionManager.InactiveUsers | src/main/java/com/c2c/c2c/infrastructure/adapter/in/websocket/WebSocketSessionManager.java:186-188 | exactly the registered users whose session is closed |
| WebSocketSessionManager.WebSocketSessionManager.GetStats | src/main/java/com/c2c/c2c/infrastructure/adapter/in/websocket/WebSocketSessionManager.java:213-220 | the total is the number of registered users; active sessions lie between zero and the total, inactive is the rest, and all are active exactly when every session is open |
| WebSocketSessionManager.SessionStats.GetInactiveSessions | src/main/java/com/c2c/c2c/infrastructure/adapter/in/websocket/WebSocketSessionManager.java:236 | the total less the active sessions; ActiveWithinTotal states that this is never negative |
| WebSocketSessionManager.WebSocketSessionManager.ActiveWithinTotal | src/main/java/com/c2c/c2c/infrastructure/adapter/in/websocket/WebSocketSessionManager.java:169-174 | there are never more active users than registered users, and as many only when every session is open |
| WebSocketSessionManager.WebSocketSessionManager.CleanupInactiveSessions | src/main/java/com/c2c/c2c/infrastructure/adapter/in/websocket/WebSocketSessionManager.java:182-206 | exactly the users with closed sessions are removed, with their rooms and reverse entries, and their number is returned; every remaining user is online |
| WebSocketSessionManager.WebSocketSessionManager.RemoveUsers | src/main/java/com/c2c/c2c/infrastructure/adapter/in/websocket/WebSocketSessionManager.java:191-199 | removes the given users with their rooms and their sessions' reverse entries, counting one per user |
| ConnectionStateManager.NewConnectionInfo | src/main/java/com/c2c/c2c/infrastructure/adapter/in/websocket/ConnectionStateManager.java:47-55 | a CONNECTING, unauthenticated record for the session, user and room, heard from now |
| ConnectionStateManager.ConnectionStateManager.constructor | src/main/java/com/c2c/c2c/infrastructure/adapter/in/websocket/ConnectionStateManager.java:25-33 | no records |
| ConnectionStateManager.ConnectionStateManager.RegisterConnection | src/main/java/com/c2c/c2c/infrastructure/adapter/in/websocket/ConnectionStateManager.java:87-92 | the session gets a new record, replacing any earlier one |
| ConnectionStateManager.ConnectionStateManager.MarkAuthenticated | src/main/java/com/c2c/c2c/infrastructure/adapter/in/websocket/ConnectionStateManager.java:97-106 | an unknown session changes nothing; otherwise its record becomes AUTHENTICATED and is heard from now, so its user counts as connected |
| ConnectionStateManager.ConnectionStateManager.UpdateHeartbeat | src/main/java/com/c2c/c2c/infrastructure/adapter/in/websocket/ConnectionStateManager.java:111-120 | an unknown session changes nothing; otherwise the record is heard from now and CONNECTING moves to CONNECTED |
| ConnectionStateManager.ConnectionStateManager.RemoveConnection | src/main/java/com/c2c/c2c/infrastructure/adapter/in/websocket/ConnectionStateManager.java:125-132 | the record is removed and returned marked DISCONNECTED, when there was one |
| ConnectionStateManager.ConnectionStateManager.GetConnectionInfo | src/main/java/com/c2c/c2c/infrastructure/adapter/in/websocket/ConnectionStateManager.java:137-139 | the session's record exactly when it has one |
| ConnectionStateManager.ConnectionStateManager.IsUserConnected | src/main/java/com/c2c/c2c/infrastructure/adapter/in/websocket/ConnectionStateManager.java:144-150 | some record of the user is CONNECTED or AUTHENTICATED and heard from within 30 seconds |
| ConnectionStateManager.ConnectionStateManager.GetConnectedUsersInRoom | src/main/java/com/c2c/c2c/infrastructure/adapter/in/websocket/ConnectionStateManager.java:155-161 | the number of records of the room that are AUTHENTICATED and heard from within 30 seconds; zero exactly when there is none, and when not zero such a record exists and its user is connected |
| ConnectionStateManager.ConnectionStateManager.CleanupInactiveConnections | src/main/java/com/c2c/c2c/infrastructure/adapter/in/websocket/ConnectionStateManager.java:166-190 | exactly the records silent for more than 60 seconds are removed, and their number is returned |
| ConnectionStateManager.PruneKeepsConnected | src/main/java/com/c2c/c2c/infrastructure/adapter/in/websocket/ConnectionStateManager.java:166-190 | the map the cleanup leaves counts the same connected records in every room, because a record silent for a minute is past the 30 second test too |
| ConnectionStateManager.ConnectionStateManager.ConnectedCountFalls | src/main/java/com/c2c/c2c/infrastructure/adapter/in/websocket/ConnectionStateManager.java:155-161 | without heartbeats a room's connected count never grows as the clock advances |
| ConnectionStateManager.ConnectionStateManager.GetStats | src/main/java/com/c2c/c2c/infrastructure/adapter/in/websocket/ConnectionStateManager.java:195-217 | the total and the per-status and stale counts are the sizes of those sets, and the status counts together never exceed the total |
| ConnectionStateManager.StatusCountsWithinTotal | src/main/java/com/c2c/c2c/infrastructure/adapter/in/websocket/ConnectionStateManager.java:204-214 | the three status tallies together are at most the number of records |
| C2CWebSocketHandler.DeliversOneMore | src/main/java/com/c2c/c2c/infrastructure/adapter/in/websocket/C2CWebSocketHandler.java:365-373 | sending to one more target extends a delivery to that target |
| C2CWebSocketHandler.DeliveredAfter | src/main/java/com/c2c/c2c/infrastructure/adapter/in/websocket/C2CWebSocketHandler.java:362-376 | frames appended after the old log that deliver the frame to the targets leave the old log as a prefix and deliver it exactly to them |
| C2CWebSocketHandler.ReplyThenDelivery | src/main/java/com/c2c/c2c/infrastructure/adapter/in/websocket/C2CWebSocketHandler.java:155-159 | a reply appended to the log and then a broadcast give the log: old frames, then the reply, then one frame per target |
| C2CWebSocketHandler.ListOf | src/main/java/com/c2c/c2c/infrastructure/adapter/in/websocket/C2CWebSocketHandler.java:146 | the list holds each member of the set exactly once |
| C2CWebSocketHandler.ExtractUserIdFromToken | src/main/java/com/c2c/c2c/infrastructure/adapter/in/websocket/C2CWebSocketHandler.java:313-319 | no user exactly for a null or blank token; otherwise the trimmed token, which is not blank and is its own trim |
| C2CWebSocketHandler.Transport.constructor | src/main/java/com/c2c/c2c/infrastructure/adapter/in/websocket/C2CWebSocketHandler.java:381-391 | the given sessions are open and nothing has been sent |
| C2CWebSocketHandler.Transport.SendToAll | src/main/java/com/c2c/c2c/infrastructure/adapter/in/websocket/C2CWebSocketHandler.java:365-373 | each target session gets the frame exactly once and nothing else is sent |
| C2CWebSocketHandler.Transport.Send | src/main/java/com/c2c/c2c/infrastructure/adapter/in/websocket/C2CWebSocketHandler.java:381-391 | one frame appended when the session is open, nothing otherwise |
| C2CWebSocketHandler.C2CWebSocketHandler.constructor | src/main/java/com/c2c/c2c/infrastructure/adapter/in/websocket/C2CWebSocketHandler.java:46-62 | the handler holds the components it is given, its services share its stores, and the registries start consistent |
| C2CWebSocketHandler.C2CWebSocketHandler.BroadcastTargets | src/main/java/com/c2c/c2c/infrastructure/adapter/in/websocket/C2CWebSocketHandler.java:365-367 | only open sessions are targeted |
| C2CWebSocketHandler.C2CWebSocketHandler.BroadcastToRoom | src/main/java/com/c2c/c2c/infrastructure/adapter/in/websocket/C2CWebSocketHandler.java:362-376 | every open session of the room's users other than the excluded one gets the frame once, and nothing else is sent |
| C2CWebSocketHandler.C2CWebSocketHandler.SendError | src/main/java/com/c2c/c2c/infrastructure/adapter/in/websocket/C2CWebSocketHandler.java:396-399 | one error frame with the code and text to the session, when it is open |
| C2CWebSocketHandler.C2CWebSocketHandler.HandleJoin | src/main/java/com/c2c/c2c/infrastructure/adapter/in/websocket/C2CWebSocketHandler.java:126-167 | a blank room id gives INVALID_ROOM_ID and a blank token INVALID_TOKEN, changing nothing; otherwise the user's records are written and the user is online; a room that cannot be rebuilt gives JOIN_FAILED with the service's text and changes no registry; an accepted join binds session, user and room, makes this user's listener the room's single subscription, replies joined with the members plus the joiner, then sends userJoined to every other open session of the room |
| C2CWebSocketHandler.C2CWebSocketHandler.JoinWithToken | src/main/java/com/c2c/c2c/infrastructure/adapter/in/websocket/C2CWebSocketHandler.java:137-166 | the same outcome once the room id is known not to be blank |
| C2CWebSocketHandler.C2CWebSocketHandler.JoinAs | src/main/java/com/c2c/c2c/infrastructure/adapter/in/websocket/C2CWebSocketHandler.java:144-166 | the same outcome for a known user id |
| C2CWebSocketHandler.C2CWebSocketHandler.CallJoinRoom | src/main/java/com/c2c/c2c/infrastructure/adapter/in/websocket/C2CWebSocketHandler.java:144-146 | the service accepts exactly when the room can be rebuilt and returns the members plus the joiner; a refusal carries the service's text; the user is then online |
| C2CWebSocketHandler.C2CWebSocketHandler.CompleteJoin | src/main/java/com/c2c/c2c/infrastructure/adapter/in/websocket/C2CWebSocketHandler.java:146-159 | the register, subscribe, reply and broadcast tail of a successful join |
| C2CWebSocketHandler.C2CWebSocketHandler.HandleMessageSend | src/main/java/com/c2c/c2c/infrastructure/adapter/in/websocket/C2CWebSocketHandler.java:173-207 | an unbound session gets NOT_AUTHENTICATED, a blank text EMPTY_MESSAGE, a refused request or unreadable room MESSAGE_SEND_FAILED with the service's text; an accepted message goes as a message frame to every open session of the room, sender included, with no check that the sender belongs to it |
| C2CWebSocketHandler.C2CWebSocketHandler.CallSendMessage | src/main/java/com/c2c/c2c/infrastructure/adapter/in/websocket/C2CWebSocketHandler.java:192-193 | the service call fails with the validation text or the room lookup text, and succeeds exactly when neither applies |
| C2CWebSocketHandler.C2CWebSocketHandler.HandlePing | src/main/java/com/c2c/c2c/infrastructure/adapter/in/websocket/C2CWebSocketHandler.java:213-231 | an unbound session just gets pong; a bound user with a live session is refreshed and gets pong; otherwise HEARTBEAT_FAILED with the service's text and nothing written |
| C2CWebSocketHandler.C2CWebSocketHandler.CallHeartbeat | src/main/java/com/c2c/c2c/infrastructure/adapter/in/websocket/C2CWebSocketHandler.java:218 | the heartbeat service fails with its validation or USER_NOT_FOUND text and writes nothing, or refreshes presence |
| C2CWebSocketHandler.C2CWebSocketHandler.ProcessUserLeave | src/main/java/com/c2c/c2c/infrastructure/adapter/in/websocket/C2CWebSocketHandler.java:255-273 | a leave the service refuses changes nothing and sends nothing, so the session stays bound; an accepted one deletes the user's records, unbinds the user, drops the room's subscription whoever it listened for, and sends userLeft to the room's other open sessions |
| C2CWebSocketHandler.C2CWebSocketHandler.CompleteLeave | src/main/java/com/c2c/c2c/infrastructure/adapter/in/websocket/C2CWebSocketHandler.java:260-266 | the unbind, unsubscribe and broadcast tail of an accepted leave |
| C2CWebSocketHandler.C2CWebSocketHandler.CallLeaveRoom | src/main/java/com/c2c/c2c/infrastructure/adapter/in/websocket/C2CWebSocketHandler.java:258 | the leave service accepts exactly when the request is valid and the room can be rebuilt, and then deletes the user's keys; a refusal writes nothing |
| C2CWebSocketHandler.C2CWebSocketHandler.HandleLeave | src/main/java/com/c2c/c2c/infrastructure/adapter/in/websocket/C2CWebSocketHandler.java:237-250 | an unbound session is ignored; otherwise the processUserLeave outcome for the frame's room |
| C2CWebSocketHandler.C2CWebSocketHandler.CleanupSession | src/main/java/com/c2c/c2c/infrastructure/adapter/in/websocket/C2CWebSocketHandler.java:294-300 | an unbound session changes nothing; a bound one gets the processUserLeave outcome for the user's recorded room, and is unbound when that leave is accepted |
| C2CWebSocketHandler.C2CWebSocketHandler.OnRoomMessage | src/main/java/com/c2c/c2c/infrastructure/adapter/in/websocket/C2CWebSocketHandler.java:325-340 | a message from the listener's own user sends nothing; otherwise a message frame goes to that user's session when it is open |
| C2CWebSocketHandler.C2CWebSocketHandler.DeliverFromBroker | src/main/java/com/c2c/c2c/infrastructure/adapter/in/websocket/C2CWebSocketHandler.java:324-341 | an undecodable payload sends nothing; a decoded message goes to the channel's listener, whose room id is the one the channel name carries, and is sent to that listener's session unless the listener is the author |
| C2CWebSocketHandler.C2CWebSocketHandler.HandleMessage | src/main/java/com/c2c/c2c/infrastructure/adapter/in/websocket/C2CWebSocketHandler.java:72-79 | a text frame gets the handleTextMessage outcome; any other frame gets one UNSUPPORTED_MESSAGE error and changes no registry or store |
| C2CWebSocketHandler.C2CWebSocketHandler.HandleNonText | src/main/java/com/c2c/c2c/infrastructure/adapter/in/websocket/C2CWebSocketHandler.java:75-78 | exactly one UNSUPPORTED_MESSAGE "지원하지 않는 메시지 타입입니다" frame to the session, if it is open, and nothing else changes |
| C2CWebSocketHandler.C2CWebSocketHandler.HandleTextMessage | src/main/java/com/c2c/c2c/infrastructure/adapter/in/websocket/C2CWebSocketHandler.java:84-120 | a frame that does not parse gets PROTOCOL_ERROR with the parser's text and changes nothing; the JSON text null gets INTERNAL_ERROR "서버 내부 오류가 발생했습니다" and changes nothing; a parsed frame is dispatched on its type |
| C2CWebSocketHandler.C2CWebSocketHandler.Dispatch | src/main/java/com/c2c/c2c/infrastructure/adapter/in/websocket/C2CWebSocketHandler.java:96-106 | join, msg, ping and leave go to their handlers, and every server-to-client type gets UNSUPPORTED_MESSAGE and changes nothing |
| C2CWebSocketHandler.C2CWebSocketHandler.DispatchJoin | src/main/java/com/c2c/c2c/infrastructure/adapter/in/websocket/C2CWebSocketHandler.java:97 | the join branch has the HandleJoin outcome |
| C2CWebSocketHandler.C2CWebSocketHandler.DispatchSend | src/main/java/com/c2c/c2c/infrastructure/adapter/in/websocket/C2CWebSocketHandler.java:98 | the msg branch has the HandleMessageSend outcome and touches no registry or store |
| C2CWebSocketHandler.C2CWebSocketHandler.DispatchPing | src/main/java/com/c2c/c2c/infrastructure/adapter/in/websocket/C2CWebSocketHandler.java:99 | the ping branch has the HandlePing outcome whatever else the frame carries |
| C2CWebSocketHandler.C2CWebSocketHandler.DispatchLeave | src/main/java/com/c2c/c2c/infrastructure/adapter/in/websocket/C2CWebSocketHandler.java:100 | the leave branch has the HandleLeave outcome |
| C2CWebSocketHandler.C2CWebSocketHandler.DispatchUnsupported | src/main/java/com/c2c/c2c/infrastructure/adapter/in/websocket/C2CWebSocketHandler.java:101-104 | any other type gets UNSUPPORTED_MESSAGE and changes nothing |
| ClientCommon.JsTrimStart | src/main/resources/static/js/c2c-common.js:102 | the result is a suffix of the input, everything cut is JavaScript whitespace, and it does not start with whitespace |
| ClientCommon.JsTrimEnd | src/main/resources/static/js/c2c-common.js:102 | the result is a prefix of the input, everything cut is JavaScript whitespace, and it does not end with whitespace |
| ClientCommon.JsTrimKeeps | src/main/resources/static/js/c2c-common.js:102 | a string with no whitespace at either end is its own trim |
| ClientCommon.ValidateNickname | src/main/resources/static/js/c2c-common.js:97-125 | a missing or blank name gets "닉네임을 입력해주세요"; accepted exactly when the trimmed name has at most 20 UTF-16 units, matches the pattern with JavaScript's whitespace class and contains none of the forbidden names; the accepted value is the trimmed name |
| ClientCommon.ValidateMessage | src/main/resources/static/js/c2c-common.js:130-142 | a missing or blank text gets "메시지를 입력해주세요"; a trimmed text over 2048 UTF-16 units gets "메시지가 너무 깁니다 (최대 2KB)"; accepted exactly otherwise, with the non-empty trimmed text as value |
| ClientCommon.ValidateRoomId | src/main/resources/static/js/c2c-common.js:147-159 | a missing or blank code gets "방 코드를 입력해주세요"; accepted exactly when the trimmed code has 3 to 20 UTF-16 units, otherwise "방 코드는 3-20자여야 합니다"; the accepted value is the trimmed code |
| ClientCommon.AcceptedValueIsTrimmed | src/main/resources/static/js/c2c-common.js:97-159 | trimming is idempotent, and validating an accepted value again gives the same verdict and value, for all three validators |
| ClientCommon.TrimsAgree | src/main/resources/static/js/c2c-common.js:102 | on text whose whitespace is only what both languages count as whitespace, JavaScript's trim equals Java's (src/main/java/com/c2c/c2c/infrastructure/adapter/in/web/validation/NicknameValidator.java:29) |
| ClientCommon.StartTrimsAgree | src/main/resources/static/js/c2c-common.js:102 | the leading halves of the two trims agree on such text |
| ClientCommon.EndTrimsAgree | src/main/resources/static/js/c2c-common.js:102 | the trailing halves of the two trims agree on such text |
| ClientCommon.ForbiddenListsAgree | src/main/resources/static/js/c2c-common.js:115-116 | the browser's forbidden list is the server's list (src/main/java/com/c2c/c2c/infrastructure/adapter/in/web/validation/NicknameValidator.java:18-21) |
| ClientCommon.PatternsAgree | src/main/resources/static/js/c2c-common.js:109-110 | on such text the browser's pattern and the server's (src/main/java/com/c2c/c2c/infrastructure/adapter/in/web/validation/NicknameValidator.java:15) accept the same strings |
| ClientCommon.TrimKeepsShared | src/main/resources/static/js/c2c-common.js:102 | trimming such text leaves text of the same kind |
| ClientCommon.SliceKeepsShared | src/main/resources/static/js/c2c-common.js:102 | every slice of such text is text of the same kind |
| ClientCommon.Utf16LengthPositive | src/main/resources/static/js/c2c-common.js:104 | a string has at least one UTF-16 unit exactly when it is not empty |
| ClientCommon.NicknameRulesAgree | src/main/resources/static/js/c2c-common.js:97-125 | on such text the browser accepts a nickname exactly when the server's validator does (src/main/java/com/c2c/c2c/infrastructure/adapter/in/web/validation/NicknameValidator.java:24-59) |
| ClientCommon.NbspSampleHasNoForbiddenName | src/main/resources/static/js/c2c-common.js:115-121 | "a", no-break space, "b" contains no forbidden name under either list |
| ClientCommon.NbspSampleTrims | src/main/resources/static/js/c2c-common.js:102 | the sample is its own trim in both languages and has three UTF-16 units |
| ClientCommon.NbspSampleJsTrims | src/main/resources/static/js/c2c-common.js:102 | JavaScript's trim leaves the sample unchanged |
| ClientCommon.NbspSampleJavaTrims | src/main/java/com/c2c/c2c/infrastructure/adapter/in/web/validation/NicknameValidator.java:29 | Java's trim leaves the sample unchanged |
| ClientCommon.NbspSampleLength | src/main/resources/static/js/c2c-common.js:104 | the sample is three UTF-16 units long |
| ClientCommon.NoBreakSpaceSplitsTheRules | src/main/resources/static/js/c2c-common.js:109-110 | the browser accepts the no-break-space name while the server refuses it with the pattern message (src/main/java/com/c2c/c2c/infrastructure/adapter/in/web/validation/NicknameValidator.java:40-45), because JavaScript's \s includes U+00A0 and Java's does not |
| ClientCommon.NbspPassesClient | src/main/resources/static/js/c2c-common.js:97-125 | the browser accepts the sample as written |
| ClientCommon.NbspFailsServer | src/main/java/com/c2c/c2c/infrastructure/adapter/in/web/validation/NicknameValidator.java:40-45 | the server refuses the sample with the pattern message |
| ClientCommon.RepeatedLengths | src/main/resources/static/js/c2c-common.js:137 | n copies of a character take n times its UTF-8 width in bytes, and n UTF-16 units when it lies in the basic plane |
| ClientCommon.MessageLimitsDiffer | src/main/resources/static/js/c2c-common.js:137 | 683 Hangul syllables pass the browser's 2048-unit limit while taking more than the server's 2048 UTF-8 bytes (src/main/java/com/c2c/c2c/domain/model/Message.java:30) |
| ClientCommon.MinutesAsTwoDigits | src/main/resources/static/js/c2c-common.js:387 | padding the minutes gives exactly their two decimal digits |
| ClientCommon.FormatTime | src/main/resources/static/js/c2c-common.js:385-391 | the text is the period "오전" before noon and "오후" after, a space, the 12-hour clock value, a colon and two minute digits |
| ClientCommon.DisplayHour | src/main/resources/static/js/c2c-common.js:389 | the display hour lies in 1..12 and agrees with the hour modulo 12 |
| ClientCommon.NatToStringInjective | src/main/resources/static/js/c2c-common.js:390 | distinct numbers print differently |
| ClientCommon.FormatTimeInjective | src/main/resources/static/js/c2c-common.js:385-391 | two times of day that format the same are the same hour and minute |
| ClientCommon.HoursFromDisplay | src/main/resources/static/js/c2c-common.js:388-390 | equal texts have equal hours |
| ClientCommon.HourFromHalf | src/main/resources/static/js/c2c-common.js:388-389 | the display hour and the half of the day determine the hour |
| ClientCommon.PeriodDetermines | src/main/resources/static/js/c2c-common.js:388 | equal periods mean the same half of the day |
| ClientCommon.MinutesFromDisplay | src/main/resources/static/js/c2c-common.js:387-390 | equal texts have equal minutes |
| ClientCommon.DigitInjective | src/main/resources/static/js/c2c-common.js:387 | distinct digits print differently |
| ClientCommon.Pow2 | src/main/resources/static/js/c2c-common.js:343 | every power of two is at least 1 |
| ClientCommon.ReconnectDelay | src/main/resources/static/js/c2c-common.js:342-345 | the delay is 1000 times 2 to the attempts, capped at 30000 |
| ClientCommon.Pow2Monotone | src/main/resources/static/js/c2c-common.js:343 | powers of two grow with the exponent |
| ClientCommon.ReconnectDelayMonotone | src/main/resources/static/js/c2c-common.js:342-345 | more attempts never shorten the delay |
| ClientCommon.ReconnectDelayCapped | src/main/resources/static/js/c2c-common.js:342-345 | from the fifth attempt on the delay is the 30000 cap |
| ClientCommon.BackoffSchedule | src/main/resources/static/js/c2c-common.js:340-352 | the five attempts wait 2000, 4000, 8000, 16000 and 30000 ms |
| ClientCommon.ClosesSaturate | src/main/resources/static/js/c2c-common.js:277-286 | repeated closes raise the attempt count one at a time up to five and no further |
| ClientCommon.ReconnectingSocket.constructor | src/main/resources/static/js/c2c-common.js:219-224 | no attempts, not connected, no room or user |
| ClientCommon.ReconnectingSocket.Connect | src/main/resources/static/js/c2c-common.js:229-245 | the room and user are recorded; a failing socket constructor schedules a reconnect, one more attempt with its delay, otherwise nothing is scheduled |
| ClientCommon.ReconnectingSocket.OnOpen | src/main/resources/static/js/c2c-common.js:251-256 | connected, with the attempt count reset to zero |
| ClientCommon.ReconnectingSocket.OnClose | src/main/resources/static/js/c2c-common.js:277-286 | disconnected; a reconnect is scheduled exactly when fewer than five attempts were made, with the delay for the new count |
| ClientCommon.ReconnectingSocket.ScheduleReconnect | src/main/resources/static/js/c2c-common.js:340-352 | one more attempt, and the delay for the new count |
| ClientCommon.ReconnectingSocket.OnReconnectTimer | src/main/resources/static/js/c2c-common.js:347-351 | the timer runs connect, with the remembered room and user, exactly when at most five attempts were made; otherwise nothing changes |

## Left out

- I/O: Redis, the WebSocket container, JSON text and the browser DOM are modelled by their state (maps, sets, frame logs) and by `Decoder` parameters. Jackson serialisation in `sendMessage` is taken to succeed.
- Clocks and `UUID.randomUUID` become parameters. A timer callback (`setTimeout`, a scheduled job) becomes a method the caller invokes, such as `OnReconnectTimer`; when it fires is not modelled.
- Concurrency is not modelled: `ConcurrentHashMap`, Redis listener threads and the order of frames from several servers. Each handler call runs alone.
- Logging and UI status updates are left out, because they change no modelled state.
- In `handleTextMessage` the generic `INTERNAL_ERROR` catch branch is modelled only for the one exception a modelled path raises there: the NullPointerException of parsing the JSON text `null`. The `C2CException` catch branch is not modelled, because no modelled handler path throws a `C2CException` into it.
- The non-text frame branch of `handleMessage` is `HandleNonText`. `handleTransportError` and `afterConnectionClosed` both end in the session cleanup, which `CleanupSession` models. The WebSocket close itself is not modelled.
- A broker payload that is the JSON text `null` is not modelled: the broker's decoder yields a message or a failure.
- A session's `isOpen` is the membership of its id in `Transport.open`. Sessions are never closed during a call.
- `CreateRoomService.createRoom` calls a `Room` constructor that does not exist in the domain class, so only the room id generation is modelled.
- `RoomService.joinRoom`'s TTL-removal branch (the `removeTTL` call for a room scheduled for deletion) is omitted from the model. It is dead: `GetOrCreateRoom` ensures the room it returns is not scheduled for deletion, because a room read back by `findById` never carries a deletion time. The store update of the remaining steps is modelled.
- `RoomRedisRepository.save` writes nothing. The model keeps that, so joining and leaving through the application services leave the Redis room set as it was.
- `ConnectionStateManager` is modelled on its own. The handler does not call it.
- The error-info/JPA classes, the REST controllers, `WebSocketConfig`, `RedisConfig`, `C2CProperties` and `chat-page.js` are not part of this model.
- A failure to JSON-encode a message in `RedisMessageBroker.publish` is not modelled, because the broker's encoder is a parameter that always yields text.
- RoomService.RoomService.CleanupExpiredRooms: states that the store is unchanged and that an unreadable room ends the run, but not which unreadable room that is, because `Set` iteration order is unspecified.
- UserRedisRepository.UserRedisRepository.FindOnlineUsers: for a user id that itself contains ":presence", states only that the result holds the ids extracted from live keys, not that the id is recovered.
- UserRedisRepository.UserRedisRepository.FindTimeoutUsers: for a user id that itself contains ":session", states only that the listed id is extracted from a live session key, not that the id is recovered, because `replace` removes every copy of the suffix.
- UserService.UserService.GetOnlineUsers: states only that every online user whose id does not contain ":presence" is listed. The other direction is the repository's.
- The client socket's `ws:`/`wss:` URL choice, its heartbeat timer and its frame handlers are left out, because they only drive the UI and the network.
- JavaScript string length and Java `String.length` are both modelled in UTF-16 units. `toLowerCase` is modelled as the ASCII case mapping, which is what it does on the characters the nickname pattern admits.

## Findings

| source | as written | input that shows it | evidently intended | confidence | as-written member | corrected member |
|---|---|---|---|---|---|---|
| src/main/java/com/c2c/c2c/application/service/JoinRoomService.java:48-49 | `new User(userId, nickname, emoji)` leaves `joinedAt` null, and `UserRedisRepository.save` (src/main/java/com/c2c/c2c/infrastructure/adapter/out/redis/UserRedisRepository.java:49) calls `getJoinedAt().toString()`, so every valid join throws a NullPointerException after writing the session hash's other fields | any JoinRoomRequest with a room id and a user id | the user is stored with the join time set to now, and the join proceeds to the room lookup | not executed | JoinRoomService.JoinRoomService.JoinRoomAsWritten | JoinRoomService.JoinRoomService.JoinRoom |

The handler uses the corrected join.
