/**
 * The websocket room session (`SocketRoomHandler` in internal/core/handler/
 * room_socket/room_socket_handler.go; `SocketRoomHandler` in
 * internal/core/core.go and `handleRoomSocket` in main.go are its earlier
 * revisions). Each inbound frame is decoded, the room is fetched afresh,
 * the action is applied to that copy, the copy is written back and
 * broadcast, or an error token goes back to the sender alone.
 */
module RoomSocket {
  import opened Wrappers
  import opened Json
  import opened Entity
  import opened Membership
  import opened Results
  import opened RoomDomain
  import opened Transformer
  import opened Store

  // Action and reply tokens
  const JOIN_ROOM: string := "JOIN_ROOM"
  const UPDATE_ACTIVE_USER: string := "UPDATE_ACTIVE_USER"
  const UPDATE_ESTIMATED_VALUE: string := "UPDATE_ESTIMATED_VALUE"
  const REVEAL_CARDS: string := "REVEAL_CARDS"
  const RESET_ROOM: string := "RESET_ROOM"
  const JOIN_ROOM_FAILED: string := "JOIN_ROOM_FAILED"
  const NOT_FOUND_USER: string := "NOT_FOUND_USER"
  const ROOM_NOT_FOUND: string := "Room not found"

  const KnownActions: set<string> := {JOIN_ROOM, UPDATE_ACTIVE_USER, UPDATE_ESTIMATED_VALUE, REVEAL_CARDS, RESET_ROOM}

  /** The inbound envelope `{action, payload}`; an absent or null payload is `JNull`. */
  datatype MessageAction = MessageAction(action: string, payload: Json)

  /** What the server writes to a connection. */
  datatype ServerMessage = UpdateRoom(room: Room) | NeedToJoin | ErrorReply(error: string)

  /** What the effect of one action on the fetched snapshot is. */
  datatype Effect =
    | Commit(room: Room, write: Write)   // persist with `write`, then broadcast UPDATE_ROOM
    | Reject(token: string)              // reply with the error token to the sender only
    | Ignore                             // unrecognised action: nothing at all

  /** The result tally each revision computes. */
  function TallyFor(rev: Revision, members: seq<Member>): map<string, int>
  {
    if rev == Current then Tally(members) else TallyAll(members)
  }

  /** The fields the RESET_ROOM update names. */
  function ResetFields(rev: Revision): set<Field>
  {
    if rev == Current then {StatusField, UpdatedAtField, MembersField, ResultField}
    else {StatusField, UpdatedAtField, ResultField}
  }

  /**
   * `json.Unmarshal` of a frame into `MessageAction`: the frame must parse,
   * and be an object (or `null`, which leaves both fields empty); an
   * `action` that is present must be a string or null, and a `payload` that
   * is present must decode into `interface{}`, so every number in it must
   * fit a `float64`.
   */
  function DecodeEnvelope(text: Document): (r: Option<MessageAction>)
    ensures r.None? <==>
      || text.Unparseable?
      || (!text.value.JObject? && !text.value.JNull?)
      || (text.value.JObject? && StringField(text.value.fields, "action").None?)
      || (text.value.JObject? && "payload" in text.value.fields && !DecodesAsInterface(text.value.fields["payload"]))
    ensures text == Parsed(JNull) ==> r == Some(MessageAction("", JNull))
    ensures r.Some? && text.value.JObject? ==> Some(r.value.action) == StringField(text.value.fields, "action")
    ensures r.Some? && text.value.JObject? ==>
      r.value.payload == if "payload" in text.value.fields then text.value.fields["payload"] else JNull
  {
    match text
    case Unparseable => None
    case Parsed(JNull) => Some(MessageAction("", JNull))
    case Parsed(JObject(fields)) =>
      var payload := if "payload" in fields then fields["payload"] else JNull;
      (match StringField(fields, "action")
       case None => None
       case Some(action) => if DecodesAsInterface(payload) then Some(MessageAction(action, payload)) else None)
    case Parsed(_) => None
  }

  /** The envelope a client sends for `msg`. */
  function EncodeEnvelope(msg: MessageAction): Json
  {
    JObject(map["action" := JString(msg.action), "payload" := msg.payload])
  }

  /**
   * An envelope a client encodes decodes back to the same action and
   * payload exactly when every number in the payload fits a `float64`.
   */
  lemma EnvelopeRoundTrip(msg: MessageAction)
    ensures DecodeEnvelope(Parsed(EncodeEnvelope(msg))) == if DecodesAsInterface(msg.payload) then Some(msg) else None
  {
    var fields := EncodeEnvelope(msg).fields;
    assert fields["action"] == JString(msg.action);
    assert fields["payload"] == msg.payload;
  }

  /** The envelope carrying `action` with the payload `{key: 1e<exponent>}`. */
  function NumberEnvelope(action: string, key: string, exponent: int): Json
  {
    JObject(map["action" := JString(action), "payload" := JObject(map[key := JNumber(false, 1, exponent)])])
  }

  /**
   * An envelope whose payload holds a number of 10^342 or more is an
   * unmarshal error whatever its action, while one holding 10^-342 or less
   * decodes, because underflow is not an error.
   */
  lemma OutOfRangePayloadRefused(action: string, key: string, exponent: int)
    requires exponent >= 342
    ensures DecodeEnvelope(Parsed(NumberEnvelope(action, key, exponent))) == None
    ensures DecodeEnvelope(Parsed(NumberEnvelope(action, key, -exponent))).Some?
  {
    var huge := NumberEnvelope(action, key, exponent).fields;
    assert !DecodesAsInterface(huge["payload"]) by {
      HugeLiteralOverflows(1, exponent);
      assert huge["payload"].fields[key] == JNumber(false, 1, exponent);
    }
    var tiny := NumberEnvelope(action, key, -exponent).fields;
    assert DecodesAsInterface(tiny["payload"]) by {
      SmallLiteralFits(1, -exponent);
      assert tiny["payload"].fields == map[key := JNumber(false, 1, -exponent)];
    }
    assert StringField(tiny, "action") == Some(action) by {
      assert tiny["action"] == JString(action);
    }
  }

  /**
   * The reference semantics of one action by `uid` on the freshly fetched
   * `room`, following the handler's `switch` case by case.
   */
  function Step(room: Room, uid: UserId, msg: MessageAction, now: Timestamp, rev: Revision): (effect: Effect)
    ensures effect.Ignore? <==> msg.action !in KnownActions
    ensures effect.Reject? ==>
      || (msg.action == JOIN_ROOM && effect.token == JOIN_ROOM_FAILED)
      || (msg.action in {UPDATE_ACTIVE_USER, UPDATE_ESTIMATED_VALUE} && effect.token == NOT_FOUND_USER)
    ensures msg.action in {REVEAL_CARDS, RESET_ROOM} ==> effect.Commit?
    ensures effect.Commit? ==> effect.write == (if msg.action == RESET_ROOM then UpdateFields(ResetFields(rev)) else SetDoc)
  {
    var isUserInRoom := IsUserInRoom(uid, room.members);
    if msg.action == JOIN_ROOM then
      var p := TransformPayloadToJoinRoom(msg.payload);
      if !isUserInRoom && p.err.None? then Commit(JoinRoom(room, NewMember(uid, p.data.name, now), now), SetDoc)
      else Reject(JOIN_ROOM_FAILED)
    else if msg.action == UPDATE_ACTIVE_USER then
      var index := FindMemberIndex(room.members, uid);
      if isUserInRoom && index != -1 then Commit(MarkActive(room, index, now), SetDoc)
      else Reject(NOT_FOUND_USER)
    else if msg.action == UPDATE_ESTIMATED_VALUE then
      var index := FindMemberIndex(room.members, uid);
      var p := TransformPayloadToEstimatedPoint(msg.payload);
      if isUserInRoom && index != -1 && p.err.None? then
        var updated := UpdateEstimatedValue(room, index, p.data.value, now);
        Commit(updated.(result := TallyFor(rev, updated.members)), SetDoc)
      else Reject(NOT_FOUND_USER)
    else if msg.action == REVEAL_CARDS then
      Commit(RevealCards(room, if isUserInRoom then FindMemberIndex(room.members, uid) else -1, now), SetDoc)
    else if msg.action == RESET_ROOM then
      Commit(Restart(room, now), UpdateFields(ResetFields(rev)))
    else Ignore
  }

  // ---------------------------------------------------------------------------
  // The handler's own code for one action, on its local copy of the room

  /** The RESET_ROOM loop that clears every member's estimate. */
  method ClearEstimates(members: seq<Member>) returns (cleared: seq<Member>)
    ensures cleared == ClearedEstimates(members)
  {
    cleared := members;
    for index := 0 to |cleared|
      invariant |cleared| == |members|
      invariant forall i :: 0 <= i < index ==> cleared[i] == members[i].(estimatedValue := "")
      invariant forall i :: index <= i < |members| ==> cleared[i] == members[i]
    {
      cleared := cleared[index := cleared[index].(estimatedValue := "")];
    }
  }

  /** The body of the `switch`: mutates the fetched copy and decides what to write and send. */
  method Dispatch(room: Room, uid: UserId, msg: MessageAction, now: Timestamp, rev: Revision) returns (effect: Effect)
    ensures effect == Step(room, uid, msg, now, rev)
  {
    var roomInfo := room;
    var isUserInRoom := IsUserInRoom(uid, roomInfo.members);
    if msg.action == JOIN_ROOM {
      var p := TransformPayloadToJoinRoom(msg.payload);
      if !isUserInRoom && p.err.None? {
        roomInfo := roomInfo.(members := roomInfo.members + [Member(uid, p.data.name, now, "")]);
        roomInfo := roomInfo.(memberIds := roomInfo.memberIds + [uid]);
        roomInfo := roomInfo.(updatedAt := now);
        effect := Commit(roomInfo, SetDoc);
      } else {
        effect := Reject(JOIN_ROOM_FAILED);
      }
    } else if msg.action == UPDATE_ACTIVE_USER {
      if isUserInRoom {
        var index := FindMemberIndex(roomInfo.members, uid);
        if index != -1 {
          roomInfo := roomInfo.(members := roomInfo.members[index := roomInfo.members[index].(lastActiveAt := now)]);
          effect := Commit(roomInfo, SetDoc);
        } else {
          effect := Reject(NOT_FOUND_USER);
        }
      } else {
        effect := Reject(NOT_FOUND_USER);
      }
    } else if msg.action == UPDATE_ESTIMATED_VALUE {
      if isUserInRoom {
        var index := FindMemberIndex(roomInfo.members, uid);
        var p := TransformPayloadToEstimatedPoint(msg.payload);
        if index != -1 && p.err.None? {
          var member := roomInfo.members[index].(estimatedValue := p.data.value, lastActiveAt := now);
          roomInfo := roomInfo.(members := roomInfo.members[index := member]);
          var result;
          if rev == Current {
            result := GetResult(roomInfo.members);
          } else {
            result := GetResultCountingEmpty(roomInfo.members);
          }
          roomInfo := roomInfo.(result := result);
          roomInfo := roomInfo.(updatedAt := now);
          effect := Commit(roomInfo, SetDoc);
        } else {
          effect := Reject(NOT_FOUND_USER);
        }
      } else {
        effect := Reject(NOT_FOUND_USER);
      }
    } else if msg.action == REVEAL_CARDS {
      if isUserInRoom {
        var index := FindMemberIndex(roomInfo.members, uid);
        if index != -1 {
          roomInfo := roomInfo.(members := roomInfo.members[index := roomInfo.members[index].(lastActiveAt := now)]);
        }
      }
      roomInfo := roomInfo.(updatedAt := now);
      roomInfo := roomInfo.(status := REVEALED_CARDS);
      effect := Commit(roomInfo, SetDoc);
    } else if msg.action == RESET_ROOM {
      var cleared := ClearEstimates(roomInfo.members);
      roomInfo := roomInfo.(members := cleared);
      roomInfo := roomInfo.(status := VOTING);
      roomInfo := roomInfo.(updatedAt := now);
      roomInfo := roomInfo.(result := map[]);
      effect := Commit(roomInfo, UpdateFields(ResetFields(rev)));
    } else {
      effect := Ignore;
    }
  }

  // ---------------------------------------------------------------------------
  // What each action does to the room

  /**
   * JOIN_ROOM fails, with JOIN_ROOM_FAILED, exactly when the uid is already a
   * member or the payload does not decode; otherwise it appends one member
   * with an empty estimate and extends MemberIDs with the uid.
   */
  lemma JoinRoomOutcome(room: Room, uid: UserId, payload: Json, now: Timestamp, rev: Revision)
    ensures var effect := Step(room, uid, MessageAction(JOIN_ROOM, payload), now, rev);
      var decoded := TransformPayloadToJoinRoom(payload);
      && (effect == Reject(JOIN_ROOM_FAILED) <==>
            (exists i :: 0 <= i < |room.members| && room.members[i].id == uid) || decoded.err.Some?)
      && (effect.Commit? ==>
            && effect.room.members == room.members + [Member(uid, decoded.data.name, now, "")]
            && effect.room.memberIds == room.memberIds + [uid]
            && effect.room.updatedAt == now
            && effect.room.(members := room.members, memberIds := room.memberIds, updatedAt := room.updatedAt) == room)
  {
  }

  /**
   * UPDATE_ACTIVE_USER refreshes only the actor's activity time (neither the
   * room's update time, its status nor its result change); a non-member gets
   * NOT_FOUND_USER.
   */
  lemma UpdateActiveUserOutcome(room: Room, uid: UserId, payload: Json, now: Timestamp, rev: Revision)
    ensures var effect := Step(room, uid, MessageAction(UPDATE_ACTIVE_USER, payload), now, rev);
      && (effect == Reject(NOT_FOUND_USER) <==> forall i :: 0 <= i < |room.members| ==> room.members[i].id != uid)
      && (effect.Commit? ==>
            var k := FindMemberIndex(room.members, uid);
            && 0 <= k < |room.members| && room.members[k].id == uid
            && |effect.room.members| == |room.members|
            && effect.room.members[k] == room.members[k].(lastActiveAt := now)
            && (forall j :: 0 <= j < |room.members| && j != k ==> effect.room.members[j] == room.members[j])
            && effect.room.(members := room.members) == room)
  {
  }

  /**
   * UPDATE_ESTIMATED_VALUE sets the actor's estimate and activity time only,
   * recomputes the result from all members and stamps the room; a missing
   * actor or an undecodable payload gets NOT_FOUND_USER.
   */
  lemma UpdateEstimatedValueOutcome(room: Room, uid: UserId, payload: Json, now: Timestamp, rev: Revision)
    ensures var effect := Step(room, uid, MessageAction(UPDATE_ESTIMATED_VALUE, payload), now, rev);
      var decoded := TransformPayloadToEstimatedPoint(payload);
      && (effect == Reject(NOT_FOUND_USER) <==>
            (forall i :: 0 <= i < |room.members| ==> room.members[i].id != uid) || decoded.err.Some?)
      && (effect.Commit? ==>
            var k := FindMemberIndex(room.members, uid);
            && 0 <= k < |room.members| && room.members[k].id == uid
            && |effect.room.members| == |room.members|
            && effect.room.members[k] == room.members[k].(estimatedValue := decoded.data.value, lastActiveAt := now)
            && (forall j :: 0 <= j < |room.members| && j != k ==> effect.room.members[j] == room.members[j])
            && effect.room.result == TallyFor(rev, effect.room.members)
            && effect.room.updatedAt == now
            && effect.room.(members := room.members, result := room.result, updatedAt := room.updatedAt) == room)
  {
  }

  /**
   * REVEAL_CARDS always succeeds: status REVEALED_CARDS and update time `now`
   * for any caller; the only member change is the actor's activity time, and
   * only when the actor is a member (otherwise the found index is -1).
   */
  lemma RevealCardsOutcome(room: Room, uid: UserId, payload: Json, now: Timestamp, rev: Revision)
    ensures var effect := Step(room, uid, MessageAction(REVEAL_CARDS, payload), now, rev);
      && effect.Commit?
      && effect.room.status == REVEALED_CARDS && effect.room.updatedAt == now
      && effect.room.result == room.result
      && EstimatesOf(effect.room.members) == EstimatesOf(room.members)
      && IdsOf(effect.room.members) == IdsOf(room.members)
      && |effect.room.members| == |room.members|
      && (var k := FindMemberIndex(room.members, uid);
          forall j :: 0 <= j < |room.members| ==>
            effect.room.members[j] == (if j == k then room.members[j].(lastActiveAt := now) else room.members[j]))
      && effect.room.(members := room.members, status := room.status, updatedAt := room.updatedAt) == room
  {
    var effect := Step(room, uid, MessageAction(REVEAL_CARDS, payload), now, rev);
    assert EstimatesOf(effect.room.members) == EstimatesOf(room.members);
    assert IdsOf(effect.room.members) == IdsOf(room.members);
  }

  /**
   * RESET_ROOM needs no membership: every estimate is cleared, status VOTING,
   * empty result, update time `now`; members are otherwise kept and no other
   * field of the room changes.
   */
  lemma ResetRoomOutcome(room: Room, uid: UserId, payload: Json, now: Timestamp, rev: Revision)
    ensures var effect := Step(room, uid, MessageAction(RESET_ROOM, payload), now, rev);
      && effect.Commit?
      && IdsOf(effect.room.members) == IdsOf(room.members)
      && (forall i :: 0 <= i < |effect.room.members| ==> effect.room.members[i] == room.members[i].(estimatedValue := ""))
      && effect.room.status == VOTING && effect.room.result == map[] && effect.room.updatedAt == now
      && |effect.room.members| == |room.members|
      && effect.room.(members := room.members, status := room.status, result := room.result, updatedAt := room.updatedAt) == room
  {
    var effect := Step(room, uid, MessageAction(RESET_ROOM, payload), now, rev);
    assert IdsOf(effect.room.members) == IdsOf(room.members);
  }

  // ---------------------------------------------------------------------------
  // The room invariant across actions and writes

  /** In the later revisions a committed action keeps the room invariant. */
  lemma StepKeepsConsistent(room: Room, uid: UserId, msg: MessageAction, now: Timestamp)
    requires Consistent(room)
    ensures var effect := Step(room, uid, msg, now, Current);
      effect.Commit? ==> Consistent(effect.room)
  {
    var isUserInRoom := IsUserInRoom(uid, room.members);
    var index := FindMemberIndex(room.members, uid);
    if msg.action == JOIN_ROOM {
      var p := TransformPayloadToJoinRoom(msg.payload);
      if !isUserInRoom && p.err.None? {
        JoinKeepsConsistent(room, NewMember(uid, p.data.name, now), now);
      }
    } else if msg.action == UPDATE_ACTIVE_USER {
      if isUserInRoom && index != -1 {
        MarkActiveKeepsConsistent(room, index, now);
      }
    } else if msg.action == UPDATE_ESTIMATED_VALUE {
      var p := TransformPayloadToEstimatedPoint(msg.payload);
      if isUserInRoom && index != -1 && p.err.None? {
        UpdateEstimateKeepsConsistent(room, index, p.data.value, now);
      }
    } else if msg.action == REVEAL_CARDS {
      RevealKeepsConsistent(room, if isUserInRoom then index else -1, now);
    } else if msg.action == RESET_ROOM {
      RestartKeepsConsistent(room, now);
    }
  }

  /**
   * In the later revisions the document written is exactly the snapshot
   * that is broadcast: every field an action changes is among those its
   * write names.
   */
  lemma CurrentPersistsSnapshot(room: Room, uid: UserId, msg: MessageAction, now: Timestamp)
    ensures var effect := Step(room, uid, msg, now, Current);
      effect.Commit? ==> Persist(room, effect.room, effect.write) == effect.room
  {
    var effect := Step(room, uid, msg, now, Current);
    if effect.Commit? && msg.action == RESET_ROOM {
      assert ChangedFields(room, effect.room) <= ResetFields(Current);
      OverlayCoversChanges(room, effect.room, ResetFields(Current));
    }
  }

  /**
   * main.go as written: its RESET_ROOM update omits `Members`, so the stored
   * document keeps the previous round's estimates beside an empty result,
   * while the broadcast snapshot shows them cleared.
   */
  lemma LegacyResetKeepsStaleEstimates()
    ensures
      var room := Room("Sprint", [Member("u1", "Ada", "t0", "5")], REVEALED_CARDS, map["5" := 1], "t0", "t0", ["u1"], "fibonacci");
      var effect := Step(room, "u1", MessageAction(RESET_ROOM, JNull), "t1", Legacy);
      var stored := Persist(room, effect.room, effect.write);
      && effect.Commit?
      && effect.room.members[0].estimatedValue == ""
      && stored.members[0].estimatedValue == "5"
      && stored.result == map[] && stored.status == VOTING
      && stored != effect.room
      && !Consistent(stored) && Consistent(room)
  {
    var room := Room("Sprint", [Member("u1", "Ada", "t0", "5")], REVEALED_CARDS, map["5" := 1], "t0", "t0", ["u1"], "fibonacci");
    assert Estimates(room.members) == {"5"} by {
      assert room.members[..0] == [];
    }
    assert Count(room.members, "5") == 1 by {
      assert room.members[..0] == [];
    }
    assert Tally(room.members) == map["5" := 1];
    assert IdsOf(room.members) == ["u1"];
    var effect := Step(room, "u1", MessageAction(RESET_ROOM, JNull), "t1", Legacy);
    var stored := Persist(room, effect.room, effect.write);
    assert stored.members == room.members && stored.result == map[];
    assert "5" in Tally(stored.members);
  }
}
