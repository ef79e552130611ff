/**
 * Room creation over HTTP (`CreateNewRoomHandler` in
 * internal/core/handler/room/room_handler.go; `CreateNewRoomHandler` in
 * internal/core/core.go and `createNewRoomHandler` in main.go are its
 * earlier revisions): decode the body into the request record, insist on
 * all three fields, and build the room the state machine starts from.
 */
module RoomHandler {
  import opened Wrappers
  import opened Json
  import opened Entity
  import opened Results
  import opened RoomDomain

  const INVALID_REQUEST_BODY: string := "Invalid request body"
  const MISSING_REQUIRED_FIELDS: string := "Missing required fields"

  /** The body's JSON keys. */
  const ROOM_NAME_KEY: string := "room_name"
  const HOSTING_ID_KEY: string := "hosting_id"
  const DESK_CONFIG_KEY: string := "desk_config"
  /**
   * main.go's tag for `DeskConfig` lacks its opening quote, so Go ignores
   * the tag and matches the field by its own name.
   */
  const LEGACY_DESK_CONFIG_KEY: string := "DeskConfig"

  datatype RoomRequest = RoomRequest(roomName: string, hostingId: string, deskConfig: string)

  /** A 400 with its error text, or the new room's id and creation time (and the room written). */
  datatype Response =
    | BadRequest(error: string)
    | Created(roomId: RoomId, createdAt: Timestamp, room: Room)

  /** The key each revision reads `DeskConfig` from. */
  function DeskConfigKey(rev: Revision): (key: string)
    ensures key == DESK_CONFIG_KEY <==> rev == Current
  {
    if rev == Current then DESK_CONFIG_KEY else LEGACY_DESK_CONFIG_KEY
  }

  /**
   * `json.Unmarshal` of the body into the request record: the body must
   * parse and be an object or `null`; each field that is present must be a
   * string or `null`.
   */
  function DecodeRoomRequest(body: Document, rev: Revision): (r: Option<RoomRequest>)
    ensures body.Unparseable? ==> r.None?
    ensures body == Parsed(JNull) ==> r == Some(RoomRequest("", "", ""))
    ensures body.Parsed? && !body.value.JNull? && !body.value.JObject? ==> r.None?
    ensures body.Parsed? && body.value.JObject? ==>
      var fields := body.value.fields;
      && (r.Some? <==>
            StringField(fields, ROOM_NAME_KEY).Some? && StringField(fields, HOSTING_ID_KEY).Some?
            && StringField(fields, DeskConfigKey(rev)).Some?)
      && (r.Some? ==>
            && Some(r.value.roomName) == StringField(fields, ROOM_NAME_KEY)
            && Some(r.value.hostingId) == StringField(fields, HOSTING_ID_KEY)
            && Some(r.value.deskConfig) == StringField(fields, DeskConfigKey(rev)))
  {
    match body
    case Unparseable => None
    case Parsed(JNull) => Some(RoomRequest("", "", ""))
    case Parsed(JObject(fields)) =>
      var name := StringField(fields, ROOM_NAME_KEY);
      var host := StringField(fields, HOSTING_ID_KEY);
      var desk := StringField(fields, DeskConfigKey(rev));
      if name.Some? && host.Some? && desk.Some? then Some(RoomRequest(name.value, host.value, desk.value))
      else None
    case Parsed(_) => None
  }

  /** The room a valid request creates: voting, no members, no result, created and updated `now`. */
  function InitialRoom(request: RoomRequest, now: Timestamp): Room
  {
    Room(request.roomName, [], VOTING, map[], now, now, [], request.deskConfig)
  }

  /**
   * `CreateNewRoomHandler`: 400 "Invalid request body" when the body does not
   * decode, 400 "Missing required fields" when a field is empty, otherwise
   * the new room under `roomId` (the generated id) stamped `now`.
   */
  function CreateNewRoom(body: Document, roomId: RoomId, now: Timestamp, rev: Revision): (resp: Response)
    ensures DecodeRoomRequest(body, rev).None? <==> resp == BadRequest(INVALID_REQUEST_BODY)
    ensures resp == BadRequest(MISSING_REQUIRED_FIELDS) <==>
      var r := DecodeRoomRequest(body, rev);
      r.Some? && (r.value.roomName == "" || r.value.hostingId == "" || r.value.deskConfig == "")
    ensures resp.BadRequest? ==> resp.error in {INVALID_REQUEST_BODY, MISSING_REQUIRED_FIELDS}
    ensures resp.Created? ==>
      var r := DecodeRoomRequest(body, rev).value;
      && resp.roomId == roomId
      && resp.room.name == r.roomName != ""
      && resp.room.deskConfig == r.deskConfig != ""
      && r.hostingId != ""
      && resp.room.status == VOTING
      && resp.room.members == [] && resp.room.memberIds == [] && resp.room.result == map[]
      && resp.room.createdAt == resp.room.updatedAt == resp.createdAt == now
      && Consistent(resp.room)
  {
    match DecodeRoomRequest(body, rev)
    case None => BadRequest(INVALID_REQUEST_BODY)
    case Some(request) =>
      if request.roomName == "" || request.hostingId == "" || request.deskConfig == "" then
        BadRequest(MISSING_REQUIRED_FIELDS)
      else
        var room := InitialRoom(request, now);
        assert Tally(room.members) == map[] by {
          assert Estimates(room.members) == {};
        }
        Created(roomId, now, room)
  }

  /** The body a client sends for `request` under the revision's keys. */
  function EncodeRoomRequest(request: RoomRequest, rev: Revision): Json
  {
    JObject(map[ROOM_NAME_KEY := JString(request.roomName), HOSTING_ID_KEY := JString(request.hostingId),
                DeskConfigKey(rev) := JString(request.deskConfig)])
  }

  /** Every request decodes back from the body its own revision's keys encode. */
  lemma RoomRequestRoundTrip(request: RoomRequest, rev: Revision)
    ensures DecodeRoomRequest(Parsed(EncodeRoomRequest(request, rev)), rev) == Some(request)
  {
    var fields := EncodeRoomRequest(request, rev).fields;
    assert fields[ROOM_NAME_KEY] == JString(request.roomName);
    assert fields[HOSTING_ID_KEY] == JString(request.hostingId);
    assert fields[DeskConfigKey(rev)] == JString(request.deskConfig);
  }

  /** A complete request sent with its revision's keys creates exactly the initial room. */
  lemma CompleteRequestCreatesRoom(request: RoomRequest, roomId: RoomId, now: Timestamp, rev: Revision)
    requires request.roomName != "" && request.hostingId != "" && request.deskConfig != ""
    ensures CreateNewRoom(Parsed(EncodeRoomRequest(request, rev)), roomId, now, rev)
         == Created(roomId, now, InitialRoom(request, now))
  {
    RoomRequestRoundTrip(request, rev);
  }

  /** A body that omits any of the three keys is refused as incomplete. */
  lemma MissingKeyRefused(fields: map<string, Json>, roomId: RoomId, now: Timestamp, rev: Revision)
    requires ROOM_NAME_KEY !in fields || HOSTING_ID_KEY !in fields || DeskConfigKey(rev) !in fields
    requires forall k :: k in fields ==> fields[k].JString?
    ensures CreateNewRoom(Parsed(JObject(fields)), roomId, now, rev) == BadRequest(MISSING_REQUIRED_FIELDS)
  {
  }

  // ---------------------------------------------------------------------------
  // main.go's malformed tag

  /** The body the client sends: the documented keys. */
  const SampleBody: Json :=
    JObject(map[ROOM_NAME_KEY := JString("R"), HOSTING_ID_KEY := JString("h"), DESK_CONFIG_KEY := JString("d")])

  /**
   * In main.go the documented `desk_config` key never reaches `DeskConfig`,
   * so a complete request is refused as incomplete, while the later
   * revisions create the room.
   */
  lemma LegacyRefusesDeskConfigKey(roomId: RoomId, now: Timestamp)
    ensures CreateNewRoom(Parsed(SampleBody), roomId, now, Legacy) == BadRequest(MISSING_REQUIRED_FIELDS)
    ensures CreateNewRoom(Parsed(SampleBody), roomId, now, Current).Created?
  {
    var fields := SampleBody.fields;
    assert LEGACY_DESK_CONFIG_KEY !in fields;
    assert fields[ROOM_NAME_KEY] == JString("R");
    assert fields[HOSTING_ID_KEY] == JString("h");
    assert fields[DESK_CONFIG_KEY] == JString("d");
  }
}
