/**
 * Payload decoding (internal/core/handler/room_socket/room_socket_transformer.go;
 * the handler's own `joinRoom` / `updateEstimatedPoint` decode the same way).
 * The payload must be a JSON object; its re-marshalled bytes are then
 * unmarshalled into the payload struct, so an absent key or `null` yields "",
 * a string is taken, and any other type under the key is an error. Every
 * failure returns the zero payload beside the error.
 */
module Transformer {
  import opened Wrappers
  import opened Json

  datatype JoinRoomPayload = JoinRoomPayload(name: string)
  datatype EstimatedPointPayload = EstimatedPointPayload(value: string)

  /** Why a payload was refused: not an object, or a field of the wrong JSON type. */
  datatype TransformError = InvalidFormat | UnmarshalFailed

  /** Go's `(data, err)` pair. */
  datatype Transformed<T> = Transformed(data: T, err: Option<TransformError>)

  function TransformPayloadToEstimatedPoint(payload: Json): (r: Transformed<EstimatedPointPayload>)
    ensures !payload.JObject? ==> r == Transformed(EstimatedPointPayload(""), Some(InvalidFormat))
    ensures r.err.Some? ==> r.data == EstimatedPointPayload("")
    ensures r.err.None? ==> payload.JObject? && StringField(payload.fields, "value") == Some(r.data.value)
    ensures payload.JObject? && StringField(payload.fields, "value").Some? ==> r.err.None?
  {
    if !payload.JObject? then Transformed(EstimatedPointPayload(""), Some(InvalidFormat))
    else match StringField(payload.fields, "value")
      case None => Transformed(EstimatedPointPayload(""), Some(UnmarshalFailed))
      case Some(v) => Transformed(EstimatedPointPayload(v), None)
  }

  function TransformPayloadToJoinRoom(payload: Json): (r: Transformed<JoinRoomPayload>)
    ensures !payload.JObject? ==> r == Transformed(JoinRoomPayload(""), Some(InvalidFormat))
    ensures r.err.Some? ==> r.data == JoinRoomPayload("")
    ensures r.err.None? ==> payload.JObject? && StringField(payload.fields, "name") == Some(r.data.name)
    ensures payload.JObject? && StringField(payload.fields, "name").Some? ==> r.err.None?
  {
    if !payload.JObject? then Transformed(JoinRoomPayload(""), Some(InvalidFormat))
    else match StringField(payload.fields, "name")
      case None => Transformed(JoinRoomPayload(""), Some(UnmarshalFailed))
      case Some(n) => Transformed(JoinRoomPayload(n), None)
  }

  /** The payloads as a client sends them. */
  function EncodeEstimatedPoint(p: EstimatedPointPayload): Json
  {
    JObject(map["value" := JString(p.value)])
  }

  function EncodeJoinRoom(p: JoinRoomPayload): Json
  {
    JObject(map["name" := JString(p.name)])
  }

  /** Decoding what a client encodes gives back the payload, without error. */
  lemma EstimatedPointRoundTrip(p: EstimatedPointPayload)
    ensures TransformPayloadToEstimatedPoint(EncodeEstimatedPoint(p)) == Transformed(p, None)
  {
  }

  lemma JoinRoomRoundTrip(p: JoinRoomPayload)
    ensures TransformPayloadToJoinRoom(EncodeJoinRoom(p)) == Transformed(p, None)
  {
  }

  /** Keys other than the payload's own field are ignored. */
  lemma ExtraKeysIgnored(fields: map<string, Json>, key: string, extra: Json)
    requires key != "value" && key != "name"
    ensures TransformPayloadToEstimatedPoint(JObject(fields[key := extra])) == TransformPayloadToEstimatedPoint(JObject(fields))
    ensures TransformPayloadToJoinRoom(JObject(fields[key := extra])) == TransformPayloadToJoinRoom(JObject(fields))
  {
  }
}
