/**
 * Redis Pub/Sub fan-out: one channel "chan:{roomId}" per room and at most
 * one handler per channel. The JSON codec is opaque (`encode`/`decode`
 * parameters) and the listener container is taken to mirror the handler
 * registry, one listener per registered channel.
 */
module RedisMessageBroker {
  import opened Wrappers
  import opened Strings
  import opened Faults
  import opened Message

  const CHANNEL_PREFIX: string := "chan:"

  function GetChannelKey(roomId: string): (channel: string)
    ensures StartsWith(channel, CHANNEL_PREFIX)
  {
    CHANNEL_PREFIX + roomId
  }

  /** substring(5): Java rejects a channel shorter than the prefix. */
  function ExtractRoomIdFromChannel(channel: string): (roomId: string)
    requires |channel| >= |CHANNEL_PREFIX|
    ensures |roomId| == |channel| - |CHANNEL_PREFIX|
    ensures StartsWith(channel, CHANNEL_PREFIX) ==> GetChannelKey(roomId) == channel
  {
    channel[|CHANNEL_PREFIX|..]
  }

  /** Extraction inverts key construction for every room id. */
  lemma ExtractInvertsChannelKey(roomId: string)
    ensures ExtractRoomIdFromChannel(GetChannelKey(roomId)) == roomId
  {
    assert GetChannelKey(roomId)[5..] == roomId;
  }

  /** And key construction inverts extraction on every channel carrying the prefix. */
  lemma ChannelKeyInvertsExtract(channel: string)
    requires StartsWith(channel, CHANNEL_PREFIX)
    ensures GetChannelKey(ExtractRoomIdFromChannel(channel)) == channel
  {
    assert channel == channel[..5] + channel[5..];
  }

  /** Distinct rooms never share a channel. */
  lemma ChannelKeyInjective(a: string, b: string)
    ensures GetChannelKey(a) == GetChannelKey(b) ==> a == b
  {
    ExtractInvertsChannelKey(a);
    ExtractInvertsChannelKey(b);
  }

  /**
   * The listener's onMessage: decode the payload and hand it, with the
   * room id of its channel, to the handler. A decode failure is logged and
   * dropped.
   */
  function OnMessage(channel: string, json: string, decode: string -> Result<Message, string>): (r: Option<(string, Message)>)
    requires StartsWith(channel, CHANNEL_PREFIX)
    ensures r.None? <==> decode(json).Failure?
    ensures r.Some? ==> GetChannelKey(r.value.0) == channel && r.value.1 == decode(json).value
  {
    ChannelKeyInvertsExtract(channel);
    match decode(json)
    case Success(m) => Some((ExtractRoomIdFromChannel(channel), m))
    case Failure(_) => None
  }

  /** A message published to room r comes back to r's handler with r as its room id. */
  lemma DeliveryNamesTheRoom(roomId: string, json: string, decode: string -> Result<Message, string>)
    requires decode(json).Success?
    ensures OnMessage(GetChannelKey(roomId), json, decode) == Some((roomId, decode(json).value))
  {
    ExtractInvertsChannelKey(roomId);
  }

  class RedisMessageBroker<H> {
    /** channelHandlers: channel key -> handler. */
    var channelHandlers: map<string, H>
    /** What convertAndSend put on the wire, as (channel, json) pairs, oldest first. */
    var published: seq<(string, string)>
    var containerRunning: bool

    /** Every registered key was built by GetChannelKey. */
    predicate Valid()
      reads this
    {
      forall channel :: channel in channelHandlers ==> StartsWith(channel, CHANNEL_PREFIX)
    }

    /** The handler a room's messages go to, if it is subscribed. */
    function HandlerOf(roomId: string): (h: Option<H>)
      reads this
      ensures h.Some? <==> GetChannelKey(roomId) in channelHandlers
    {
      var channel := GetChannelKey(roomId);
      if channel in channelHandlers then Some(channelHandlers[channel]) else None
    }

    /** The constructor starts the listener container if it is not running. */
    constructor ()
      ensures Valid() && channelHandlers == map[] && published == [] && containerRunning
    {
      channelHandlers := map[];
      published := [];
      containerRunning := true;
    }

    /** publish: serialise, then send on the room's channel; any failure becomes a RuntimeException. */
    method Publish(roomId: string, message: Message, encode: Message -> Result<string, string>,
                   sendError: Option<string>) returns (err: Option<Fault>)
      modifies this
      ensures encode(message).Failure? ==> err == Some(Runtime("메시지 발행 실패: " + encode(message).error))
      ensures encode(message).Success? && sendError.Some? ==> err == Some(Runtime("메시지 발행 실패: " + sendError.value))
      ensures err.None? <==> encode(message).Success? && sendError.None?
      ensures err.None? ==> published == old(published) + [(GetChannelKey(roomId), encode(message).value)]
      ensures err.Some? ==> published == old(published)
      ensures channelHandlers == old(channelHandlers) && containerRunning == old(containerRunning)
    {
      var channel := GetChannelKey(roomId);
      match encode(message)
      case Failure(e) =>
        err := Some(Runtime("메시지 발행 실패: " + e));
      case Success(json) =>
        if sendError.Some? {
          err := Some(Runtime("메시지 발행 실패: " + sendError.value));
        } else {
          published := published + [(channel, json)];
          err := None;
        }
    }

    /** subscribe: an existing subscription is dropped first, so the new handler replaces it. */
    method Subscribe(roomId: string, handler: H)
      requires Valid()
      modifies this
      ensures Valid()
      ensures channelHandlers == old(channelHandlers)[GetChannelKey(roomId) := handler]
      ensures HandlerOf(roomId) == Some(handler)
      ensures published == old(published) && containerRunning == old(containerRunning)
    {
      var channel := GetChannelKey(roomId);
      if channel in channelHandlers {
        Unsubscribe(roomId);
      }
      channelHandlers := channelHandlers[channel := handler];
    }

    /** unsubscribe: removes the room's channel; an unknown room is a no-op. */
    method Unsubscribe(roomId: string)
      requires Valid()
      modifies this
      ensures Valid()
      ensures channelHandlers == old(channelHandlers) - {GetChannelKey(roomId)}
      ensures HandlerOf(roomId).None?
      ensures published == old(published) && containerRunning == old(containerRunning)
    {
      var channel := GetChannelKey(roomId);
      if channel in channelHandlers {
        channelHandlers := channelHandlers - {channel};
      }
    }

    /** unsubscribeAll: unsubscribe every registered room, then clear. */
    method UnsubscribeAll()
      requires Valid()
      modifies this
      ensures Valid() && channelHandlers == map[]
      ensures published == old(published) && containerRunning == old(containerRunning)
    {
      var channels := channelHandlers.Keys;
      while channels != {}
        invariant Valid()
        invariant channels == channelHandlers.Keys
        invariant published == old(published) && containerRunning == old(containerRunning)
        decreases |channels|
      {
        var channel :| channel in channels;
        var roomId := ExtractRoomIdFromChannel(channel);
        ChannelKeyInvertsExtract(channel);
        Unsubscribe(roomId);
        channels := channels - {channel};
      }
      channelHandlers := map[];
    }

    /** reconnect: restart the container, then re-subscribe every pair of a snapshot. */
    method Reconnect()
      requires Valid()
      modifies this
      ensures Valid() && channelHandlers == old(channelHandlers)
      ensures published == old(published) && containerRunning
    {
      // stop() when running, then start(): the container ends up running
      containerRunning := true;
      var snapshot := channelHandlers;
      channelHandlers := map[];
      var pending := snapshot.Keys;
      while pending != {}
        invariant Valid()
        invariant pending <= snapshot.Keys
        invariant forall c :: c in channelHandlers <==> c in snapshot && c !in pending
        invariant forall c :: c in channelHandlers ==> channelHandlers[c] == snapshot[c]
        invariant published == old(published) && containerRunning
        decreases |pending|
      {
        var channel :| channel in pending;
        ChannelKeyInvertsExtract(channel);
        Subscribe(ExtractRoomIdFromChannel(channel), snapshot[channel]);
        pending := pending - {channel};
      }
      assert channelHandlers.Keys == snapshot.Keys;
    }
  }
}
