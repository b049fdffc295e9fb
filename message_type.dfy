/** The wire type discriminators (the "t" field) of the WebSocket protocol. */
module MessageType {
  import opened Wrappers
  import opened Faults

  datatype MessageType =
    | JOIN | MSG | PING | LEAVE
    | JOINED | MESSAGE | PONG | USER_JOINED | USER_LEFT | ERROR
  {
    function GetValue(): string
    {
      match this
      case JOIN => "join"
      case MSG => "msg"
      case PING => "ping"
      case LEAVE => "leave"
      case JOINED => "joined"
      case MESSAGE => "message"
      case PONG => "pong"
      case USER_JOINED => "userJoined"
      case USER_LEFT => "userLeft"
      case ERROR => "error"
    }

    /** The four types a client sends: join, msg, ping and leave. */
    predicate IsClientToServer()
      ensures IsClientToServer() <==> GetValue() in {"join", "msg", "ping", "leave"}
    {
      this == JOIN || this == MSG || this == PING || this == LEAVE
    }

    /** The six types the server sends; every type is on exactly one side. */
    predicate IsServerToClient()
      ensures IsServerToClient() <==> GetValue() in {"joined", "message", "pong", "userJoined", "userLeft", "error"}
    {
      !IsClientToServer()
    }
  }

  /** values(), in declaration order. */
  function Values(): (vs: seq<MessageType>)
    ensures |vs| == 10
    ensures forall t: MessageType :: t in vs
  {
    ValuesComplete();
    [JOIN, MSG, PING, LEAVE, JOINED, MESSAGE, PONG, USER_JOINED, USER_LEFT, ERROR]
  }

  lemma ValuesComplete()
    ensures forall t: MessageType ::
      t in [JOIN, MSG, PING, LEAVE, JOINED, MESSAGE, PONG, USER_JOINED, USER_LEFT, ERROR]
  {
    var vs := [JOIN, MSG, PING, LEAVE, JOINED, MESSAGE, PONG, USER_JOINED, USER_LEFT, ERROR];
    forall t: MessageType ensures t in vs {
      match t
      case JOIN => assert vs[0] == t;
      case MSG => assert vs[1] == t;
      case PING => assert vs[2] == t;
      case LEAVE => assert vs[3] == t;
      case JOINED => assert vs[4] == t;
      case MESSAGE => assert vs[5] == t;
      case PONG => assert vs[6] == t;
      case USER_JOINED => assert vs[7] == t;
      case USER_LEFT => assert vs[8] == t;
      case ERROR => assert vs[9] == t;
    }
  }

  /** The search of fromValue over a suffix of values(). */
  function FindValue(types: seq<MessageType>, value: string): (r: Option<MessageType>)
    ensures r.Some? ==> r.value in types && r.value.GetValue() == value
    ensures r.None? ==> forall t :: t in types ==> t.GetValue() != value
  {
    if types == [] then None
    else if types[0].GetValue() == value then Some(types[0])
    else FindValue(types[1..], value)
  }

  /** fromValue: the first type whose wire value equals the string, else IllegalArgumentException. */
  function FromValue(value: string): (r: Result<MessageType, Fault>)
    ensures r.Success? <==> exists t: MessageType :: t.GetValue() == value
    ensures r.Success? ==> r.value.GetValue() == value
    ensures r.Failure? ==> r.error == IllegalArgument("Unknown message type: " + value)
  {
    match FindValue(Values(), value)
    case Some(t) => Success(t)
    case None => Failure(IllegalArgument("Unknown message type: " + value))
  }

  /** The ten wire strings are pairwise distinct, so a wire string names at most one type. */
  lemma ValuesDistinct(a: MessageType, b: MessageType)
    ensures a.GetValue() == b.GetValue() ==> a == b
  {
    if a != b {
      match a {
        case MSG => assert a.GetValue()[1] == 's';
        case MESSAGE => assert a.GetValue()[1] == 'e';
        case _ =>
      }
      match b {
        case MSG => assert b.GetValue()[1] == 's';
        case MESSAGE => assert b.GetValue()[1] == 'e';
        case _ =>
      }
    }
  }

  /** fromValue inverts getValue. */
  lemma FromValueGetValue(t: MessageType)
    ensures FromValue(t.GetValue()) == Success(t)
  {
    var r := FromValue(t.GetValue());
    ValuesDistinct(r.value, t);
  }

  /** "msg" (client to server) and "message" (server to client) are different types. */
  lemma MsgIsNotMessage()
    ensures FromValue("msg") == Success(MSG) && FromValue("message") == Success(MESSAGE)
    ensures MSG.IsClientToServer() && MESSAGE.IsServerToClient()
  {
    FromValueGetValue(MSG);
    FromValueGetValue(MESSAGE);
  }
}
