/**
 * Parsing and serialising protocol envelopes. The JSON codec itself is
 * opaque: `decode` and `encode` stand for the object mapper, returning the
 * codec's error text on failure. The decoder yields None for the JSON
 * literal `null`, which readValue turns into a null reference.
 */
module ProtocolParser {
  import opened Wrappers
  import opened Strings
  import opened MessageType
  import opened C2CMessage

  type Decoder = string -> Result<Option<C2CMessage>, string>
  type Encoder = C2CMessage -> Result<string, string>

  const SERIALIZE_ERROR_JSON: string :=
    "{\"t\":\"error\",\"code\":\"SERIALIZE_ERROR\",\"message\":\"메시지 직렬화 실패\"}"

  /** The envelope serializeSafely substitutes for one it cannot serialise. */
  function SerializeErrorEnvelope(): C2CMessage
  {
    Error(Some("SERIALIZE_ERROR"), Some("메시지 직렬화 실패"))
  }

  /** The type discriminator is present, non-blank and one of the ten wire values. */
  predicate Recognised(m: C2CMessage)
  {
    !NullOrBlank(m.msgType) && FromValue(m.msgType.value).Success?
  }

  /**
   * What parse throws: a ProtocolParseException with its text, or the
   * NullPointerException of calling getType() on a null envelope, which
   * the catch of JsonProcessingException does not convert.
   */
  datatype ParseFailure = ProtocolParseError(text: string) | NullEnvelope

  /** The envelope a successful decode produced, null included. */
  predicate DecodesTo(decode: Decoder, json: string, m: C2CMessage)
  {
    decode(json) == Success(Some(m))
  }

  /** parse: the checks in order, each with its exception. */
  function Parse(decode: Decoder, json: Option<string>): (r: Result<C2CMessage, ParseFailure>)
    ensures NullOrBlank(json) ==> r == Failure(ProtocolParseError("빈 메시지입니다"))
    ensures !NullOrBlank(json) && decode(json.value).Failure? ==>
      r == Failure(ProtocolParseError("JSON 파싱 실패: " + decode(json.value).error))
    ensures !NullOrBlank(json) && decode(json.value) == Success(None) ==> r == Failure(NullEnvelope)
    ensures r == Failure(NullEnvelope) ==> !NullOrBlank(json) && decode(json.value) == Success(None)
    ensures !NullOrBlank(json) && decode(json.value).Success? && decode(json.value).value.Some? &&
            NullOrBlank(decode(json.value).value.value.msgType) ==>
      r == Failure(ProtocolParseError("메시지 타입(t)이 없습니다"))
    ensures r.Success? <==> !NullOrBlank(json) && exists m :: DecodesTo(decode, json.value, m) && Recognised(m)
    ensures r.Success? ==> DecodesTo(decode, json.value, r.value)
  {
    if NullOrBlank(json) then Failure(ProtocolParseError("빈 메시지입니다"))
    else match decode(json.value)
      case Failure(e) => Failure(ProtocolParseError("JSON 파싱 실패: " + e))
      case Success(None) => Failure(NullEnvelope)
      case Success(Some(message)) =>
        if NullOrBlank(message.msgType) then Failure(ProtocolParseError("메시지 타입(t)이 없습니다"))
        else if FromValue(message.msgType.value).Failure? then
          Failure(ProtocolParseError("알 수 없는 메시지 타입: " + message.msgType.value))
        else
          assert DecodesTo(decode, json.value, message);
          Success(message)
  }

  /** Every envelope parse returns has a type fromValue accepts. */
  lemma ParsedIsRecognised(decode: Decoder, json: Option<string>)
    requires Parse(decode, json).Success?
    ensures var m := Parse(decode, json).value;
      m.msgType.Some? && FromValue(m.msgType.value).Success? &&
      FromValue(m.msgType.value).value.GetValue() == m.msgType.value
  {
  }

  /** An unknown but non-blank type is reported with the type text itself. */
  lemma UnknownTypeReported(decode: Decoder, json: string, m: C2CMessage)
    requires !IsBlank(json) && DecodesTo(decode, json, m)
    requires m.msgType.Some? && !IsBlank(m.msgType.value)
    requires forall k: MessageType :: k.GetValue() != m.msgType.value
    ensures Parse(decode, Some(json)) == Failure(ProtocolParseError("알 수 없는 메시지 타입: " + m.msgType.value))
  {
  }

  /** serialize: a failure carries the ProtocolSerializeException text. */
  function Serialize(encode: Encoder, message: Option<C2CMessage>): (r: Result<string, string>)
    ensures message.None? ==> r == Failure("null 메시지는 직렬화할 수 없습니다")
    ensures message.Some? && NullOrBlank(message.value.msgType) ==> r == Failure("메시지 타입(t)이 없습니다")
    ensures r.Success? <==> message.Some? && !NullOrBlank(message.value.msgType) && encode(message.value).Success?
    ensures r.Success? ==> r.value == encode(message.value).value
  {
    if message.None? then Failure("null 메시지는 직렬화할 수 없습니다")
    else if NullOrBlank(message.value.msgType) then Failure("메시지 타입(t)이 없습니다")
    else match encode(message.value)
      case Failure(e) => Failure("JSON 직렬화 실패: " + e)
      case Success(json) => Success(json)
  }

  /**
   * parseSafely: null exactly when parse throws ProtocolParseException; the
   * NullPointerException of a null envelope is not caught and propagates.
   */
  function ParseSafely(decode: Decoder, json: Option<string>): (r: Result<Option<C2CMessage>, ParseFailure>)
    ensures r.Failure? <==> Parse(decode, json) == Failure(NullEnvelope)
    ensures r.Failure? ==> r.error == NullEnvelope
    ensures r == Success(None) <==> Parse(decode, json).Failure? && Parse(decode, json).error.ProtocolParseError?
    ensures Parse(decode, json).Success? <==> r.Success? && r.value.Some?
    ensures r.Success? && r.value.Some? ==> r.value.value == Parse(decode, json).value
  {
    match Parse(decode, json)
    case Success(m) => Success(Some(m))
    case Failure(NullEnvelope) => Failure(NullEnvelope)
    case Failure(ProtocolParseError(_)) => Success(None)
  }

  /**
   * serializeSafely never fails: it serialises the message, else the
   * SERIALIZE_ERROR envelope, else the fixed error JSON.
   */
  function SerializeSafely(encode: Encoder, message: Option<C2CMessage>): (r: string)
    ensures Serialize(encode, message).Success? ==> r == Serialize(encode, message).value
    ensures Serialize(encode, message).Failure? && encode(SerializeErrorEnvelope()).Success? ==>
      r == encode(SerializeErrorEnvelope()).value
    ensures Serialize(encode, message).Failure? && encode(SerializeErrorEnvelope()).Failure? ==>
      r == SERIALIZE_ERROR_JSON
  {
    match Serialize(encode, message)
    case Success(json) => json
    case Failure(_) =>
      match encode(SerializeErrorEnvelope())
      case Success(json) => json
      case Failure(_) => SERIALIZE_ERROR_JSON
  }

  /** The substitute envelope has the "error" type and the SERIALIZE_ERROR code, so serialize itself would accept it. */
  lemma SerializeErrorEnvelopeWellFormed()
    ensures Recognised(SerializeErrorEnvelope())
    ensures SerializeErrorEnvelope().code == Some("SERIALIZE_ERROR")
    ensures FromValue(SerializeErrorEnvelope().msgType.value) == Success(ERROR)
  {
    var m := SerializeErrorEnvelope();
    assert m.msgType == Some("error");
    OfTypeRecognised(ERROR);
    assert FromValue("error") == Success(ERROR);
    assert !IsBlank("error") by { assert "error"[0] == 'e'; }
  }

  /**
   * Round trip: when the codec inverts itself on an envelope with a
   * recognised type, parse(serialize(m)) gives m back.
   */
  lemma ParseSerializeRoundTrip(decode: Decoder, encode: Encoder, m: C2CMessage)
    requires Recognised(m)
    requires encode(m).Success? && !IsBlank(encode(m).value)
    requires DecodesTo(decode, encode(m).value, m)
    ensures Serialize(encode, Some(m)).Success?
    ensures Parse(decode, Some(Serialize(encode, Some(m)).value)) == Success(m)
    ensures ParseSafely(decode, Some(SerializeSafely(encode, Some(m)))) == Success(Some(m))
  {
  }

  /** Conversely a parsed envelope always passes serialize's own checks, so only the codec can make it fail. */
  lemma ParsedIsSerialisable(decode: Decoder, encode: Encoder, json: Option<string>)
    requires Parse(decode, json).Success?
    ensures Serialize(encode, Some(Parse(decode, json).value)).Success? <==>
      encode(Parse(decode, json).value).Success?
  {
  }
}
