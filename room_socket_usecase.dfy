/**
 * The use-case layer behind the later websocket handler
 * (internal/core/usecase/room_socket/room_socket.go): each operation fetches
 * the room, changes its copy with a domain transition and writes back only
 * some fields with a partial update
 * (internal/repository/room/room_repository.go). On a write error the
 * operation returns the zero room with the error; otherwise the changed copy.
 */
module RoomSocketUseCase {
  import opened Wrappers
  import opened Entity
  import opened Membership
  import RoomDomain
  import opened Store

  /** `UpdateNewJoiner` writes these fields. */
  const JoinerFields: set<Field> := {MembersField, MemberIdsField, UpdatedAtField}
  /** The repository's `UpdateEstimatedValue` writes these fields. */
  const EstimateFields: set<Field> := {MembersField, ResultField, UpdatedAtField}
  /** `SetRevealCards` writes these fields. */
  const RevealFields: set<Field> := {MembersField, StatusField, UpdatedAtField}
  /** The repository's `ResetRoom` writes these fields. */
  const ResetUpdateFields: set<Field> := {StatusField, UpdatedAtField, MembersField, ResultField}

  // ---------------------------------------------------------------------------
  // The four operations

  /**
   * `JoinRoom`: appends a new member. The member's activity time, the room's
   * update time and the update time the repository writes are three separate
   * clock reads: `joinedAt`, `now` and `writtenAt`. No membership check is
   * made here; the caller makes it.
   */
  method JoinRoom(store: RoomStore, name: string, id: UserId, roomId: RoomId,
                  joinedAt: Timestamp, now: Timestamp, writtenAt: Timestamp, writeFails: bool)
    returns (room: Room, err: Option<StoreError>)
    requires roomId in store.rooms
    modifies store
    ensures var joined := RoomDomain.JoinRoom(old(store.rooms[roomId]), RoomDomain.NewMember(id, name, joinedAt), now);
      && (err.Some? <==> writeFails)
      && (err.Some? ==> room == ZeroRoom && store.rooms == old(store.rooms))
      && (err.None? ==> room == joined && store.rooms == old(store.rooms)[roomId := joined.(updatedAt := writtenAt)])
  {
    var roomInfo := store.Fetch(roomId);
    var newMember := RoomDomain.NewMember(id, name, joinedAt);
    roomInfo := RoomDomain.JoinRoom(roomInfo, newMember, now);
    JoinWriteStoresJoiner(old(store.rooms[roomId]), newMember, now, writtenAt);
    err := store.Put(roomId, roomInfo.(updatedAt := writtenAt), UpdateFields(JoinerFields), writeFails);
    if err.Some? {
      return ZeroRoom, err;
    }
    room := roomInfo;
  }

  /**
   * `UpdateEstimatedValue`: sets the estimate of the member at `index`,
   * recomputes the result and writes members, result and update time.
   */
  method UpdateEstimatedValue(store: RoomStore, index: nat, value: string, roomId: RoomId,
                              now: Timestamp, writeFails: bool)
    returns (room: Room, err: Option<StoreError>)
    requires roomId in store.rooms && index < |store.rooms[roomId].members|
    modifies store
    ensures var updated := RoomDomain.UpdateResult(RoomDomain.UpdateEstimatedValue(old(store.rooms[roomId]), index, value, now));
      && (err.Some? <==> writeFails)
      && (err.Some? ==> room == ZeroRoom && store.rooms == old(store.rooms))
      && (err.None? ==> room == updated && store.rooms == old(store.rooms)[roomId := room])
  {
    var roomInfo := store.Fetch(roomId);
    roomInfo := RoomDomain.UpdateEstimatedValue(roomInfo, index, value, now);
    roomInfo := RoomDomain.UpdateResult(roomInfo);
    EstimateWriteStoresRoom(old(store.rooms[roomId]), index, value, now);
    err := store.Put(roomId, roomInfo, UpdateFields(EstimateFields), writeFails);
    if err.Some? {
      return ZeroRoom, err;
    }
    room := roomInfo;
  }

  /** `RevealCards`: shows the cards and writes members, status and update time. */
  method RevealCards(store: RoomStore, actorIndex: int, roomId: RoomId, now: Timestamp, writeFails: bool)
    returns (room: Room, err: Option<StoreError>)
    requires roomId in store.rooms && -1 <= actorIndex < |store.rooms[roomId].members|
    modifies store
    ensures var revealed := RoomDomain.RevealCards(old(store.rooms[roomId]), actorIndex, now);
      && (err.Some? <==> writeFails)
      && (err.Some? ==> room == ZeroRoom && store.rooms == old(store.rooms))
      && (err.None? ==> room == revealed && store.rooms == old(store.rooms)[roomId := room])
  {
    var roomInfo := store.Fetch(roomId);
    roomInfo := RoomDomain.RevealCards(roomInfo, actorIndex, now);
    RevealWriteStoresRoom(old(store.rooms[roomId]), actorIndex, now);
    err := store.Put(roomId, roomInfo, UpdateFields(RevealFields), writeFails);
    if err.Some? {
      return ZeroRoom, err;
    }
    room := roomInfo;
  }

  /** `ResetRoom`: starts a new round and writes status, update time, members and result. */
  method ResetRoom(store: RoomStore, roomId: RoomId, now: Timestamp, writeFails: bool)
    returns (room: Room, err: Option<StoreError>)
    requires roomId in store.rooms
    modifies store
    ensures var restarted := RoomDomain.Restart(old(store.rooms[roomId]), now);
      && (err.Some? <==> writeFails)
      && (err.Some? ==> room == ZeroRoom && store.rooms == old(store.rooms))
      && (err.None? ==> room == restarted && store.rooms == old(store.rooms)[roomId := room])
  {
    var roomInfo := store.Fetch(roomId);
    roomInfo := roomInfo.(updatedAt := now);
    roomInfo := RoomDomain.Restart(roomInfo, now);
    ResetWriteStoresRoom(old(store.rooms[roomId]), now);
    err := store.Put(roomId, roomInfo, UpdateFields(ResetUpdateFields), writeFails);
    if err.Some? {
      return ZeroRoom, err;
    }
    room := roomInfo;
  }

  // ---------------------------------------------------------------------------
  // Each partial update covers every field its transition changes

  /** The joiner update carries every field a join changes, so the document becomes the joined room. */
  lemma JoinWriteStoresJoiner(room: Room, member: Member, now: Timestamp, writtenAt: Timestamp)
    ensures var joined := RoomDomain.JoinRoom(room, member, now).(updatedAt := writtenAt);
      && ChangedFields(room, joined) <= JoinerFields
      && Overlay(room, joined, JoinerFields) == joined
  {
    OverlayCoversChanges(room, RoomDomain.JoinRoom(room, member, now).(updatedAt := writtenAt), JoinerFields);
  }

  /** The estimate update carries every field an estimate and its recount change. */
  lemma EstimateWriteStoresRoom(room: Room, index: nat, value: string, now: Timestamp)
    requires index < |room.members|
    ensures var updated := RoomDomain.UpdateResult(RoomDomain.UpdateEstimatedValue(room, index, value, now));
      && ChangedFields(room, updated) <= EstimateFields
      && Overlay(room, updated, EstimateFields) == updated
  {
    OverlayCoversChanges(room, RoomDomain.UpdateResult(RoomDomain.UpdateEstimatedValue(room, index, value, now)), EstimateFields);
  }

  /** The reveal update carries every field a reveal changes. */
  lemma RevealWriteStoresRoom(room: Room, actorIndex: int, now: Timestamp)
    requires -1 <= actorIndex < |room.members|
    ensures var revealed := RoomDomain.RevealCards(room, actorIndex, now);
      && ChangedFields(room, revealed) <= RevealFields
      && Overlay(room, revealed, RevealFields) == revealed
  {
    OverlayCoversChanges(room, RoomDomain.RevealCards(room, actorIndex, now), RevealFields);
  }

  /** The reset update carries every field a restart changes. */
  lemma ResetWriteStoresRoom(room: Room, now: Timestamp)
    ensures var restarted := RoomDomain.Restart(room, now);
      && ChangedFields(room, restarted) <= ResetUpdateFields
      && Overlay(room, restarted, ResetUpdateFields) == restarted
  {
    OverlayCoversChanges(room, RoomDomain.Restart(room, now), ResetUpdateFields);
  }

  // ---------------------------------------------------------------------------
  // The stored room keeps its invariant

  /**
   * A join written by the joiner update keeps the stored room consistent
   * when the id is new: the result field is not written, and a member
   * without an estimate leaves the tally as it was.
   */
  lemma JoinedDocumentConsistent(room: Room, id: UserId, name: string, joinedAt: Timestamp, now: Timestamp,
                                 writtenAt: Timestamp)
    requires RoomDomain.Consistent(room) && !IsUserInRoom(id, room.members)
    ensures RoomDomain.Consistent(RoomDomain.JoinRoom(room, RoomDomain.NewMember(id, name, joinedAt), now).(updatedAt := writtenAt))
  {
    RoomDomain.JoinKeepsConsistent(room, RoomDomain.NewMember(id, name, joinedAt), now);
  }

  /**
   * The use case does not check membership: a second join with an id
   * already present leaves two members with that id in the stored room.
   */
  lemma RepeatedJoinDuplicatesMember(room: Room, id: UserId, name: string, joinedAt: Timestamp, now: Timestamp)
    requires IsUserInRoom(id, room.members)
    ensures !UniqueIds(RoomDomain.JoinRoom(room, RoomDomain.NewMember(id, name, joinedAt), now).members)
  {
    var k := FindMemberIndex(room.members, id);
    var ms := RoomDomain.JoinRoom(room, RoomDomain.NewMember(id, name, joinedAt), now).members;
    assert ms[k].id == ms[|room.members|].id;
  }
}
