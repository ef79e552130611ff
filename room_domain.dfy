/**
 * The room transitions. The websocket handler (internal/core/handler/
 * room_socket/room_socket_handler.go) performs them inline on its fetched
 * copy; the use-case layer (internal/core/usecase/room_socket/room_socket.go)
 * calls them as `domain.Room` methods (`JoinRoom`, `UpdateEstimatedValue`,
 * `UpdateResult`, `RevealCards`, `Restart`, `NewMember`), whose bodies are
 * not part of this model and are specified here by the handler's semantics.
 */
module RoomDomain {
  import opened Entity
  import opened Membership
  import opened Results

  /**
   * The room invariant: member ids are unique, `MemberIDs` mirrors the
   * member sequence, and `Result` is the tally of the members' estimates.
   */
  predicate Consistent(room: Room)
  {
    && UniqueIds(room.members)
    && room.memberIds == IdsOf(room.members)
    && room.result == Tally(room.members)
  }

  /** A fresh member: no estimate yet. */
  function NewMember(id: UserId, name: string, now: Timestamp): (m: Member)
    ensures m.id == id && m.name == name && m.lastActiveAt == now && m.estimatedValue == ""
  {
    Member(id, name, now, "")
  }

  /** Appends the member and its id; the room's update time becomes `now`. */
  function JoinRoom(room: Room, member: Member, now: Timestamp): Room
  {
    room.(members := room.members + [member], memberIds := room.memberIds + [member.id], updatedAt := now)
  }

  /** Refreshes the activity time of the member at `index` (UPDATE_ACTIVE_USER). */
  function MarkActive(room: Room, index: nat, now: Timestamp): Room
    requires index < |room.members|
  {
    room.(members := room.members[index := room.members[index].(lastActiveAt := now)])
  }

  /** Sets the estimate of the member at `index`, refreshing its activity time and the room's. */
  function UpdateEstimatedValue(room: Room, index: nat, value: string, now: Timestamp): Room
    requires index < |room.members|
  {
    room.(members := room.members[index := room.members[index].(estimatedValue := value, lastActiveAt := now)],
          updatedAt := now)
  }

  /** Recomputes `Result` from the members (later revisions' getResult). */
  function UpdateResult(room: Room): Room
  {
    room.(result := Tally(room.members))
  }

  /**
   * Shows the cards: status REVEALED_CARDS and update time `now` whoever acts;
   * the actor's activity time is refreshed only when `actorIndex` is a
   * member's index (-1 stands for a non-member).
   */
  function RevealCards(room: Room, actorIndex: int, now: Timestamp): Room
    requires -1 <= actorIndex < |room.members|
  {
    var members := if actorIndex == -1 then room.members
                   else room.members[actorIndex := room.members[actorIndex].(lastActiveAt := now)];
    room.(members := members, status := REVEALED_CARDS, updatedAt := now)
  }

  /** Every member with its estimate cleared. */
  function ClearedEstimates(members: seq<Member>): (cleared: seq<Member>)
  {
    seq(|members|, i requires 0 <= i < |members| => members[i].(estimatedValue := ""))
  }

  /** Starts a new round: estimates cleared, status VOTING, empty result. */
  function Restart(room: Room, now: Timestamp): Room
  {
    room.(members := ClearedEstimates(room.members), status := VOTING, updatedAt := now, result := map[])
  }

  // ---------------------------------------------------------------------------
  // What each transition changes, and that each keeps the invariant

  /** A join adds exactly one member at the end and keeps the invariant when the id is new. */
  lemma JoinKeepsConsistent(room: Room, member: Member, now: Timestamp)
    requires Consistent(room)
    requires !IsUserInRoom(member.id, room.members) && member.estimatedValue == ""
    ensures var r := JoinRoom(room, member, now);
      && |r.members| == |room.members| + 1
      && r.members[..|room.members|] == room.members && r.members[|room.members|] == member
      && Consistent(r)
  {
    var ms := room.members + [member];
    assert IdsOf(ms) == IdsOf(room.members) + [member.id];
    TallySnoc(room.members, member);
    assert ms[..|room.members|] == room.members;
  }

  /** Touching a member changes only its activity time and keeps the invariant. */
  lemma MarkActiveKeepsConsistent(room: Room, index: nat, now: Timestamp)
    requires Consistent(room) && index < |room.members|
    ensures var r := MarkActive(room, index, now);
      && EstimatesOf(r.members) == EstimatesOf(room.members)
      && Consistent(r)
  {
    var r := MarkActive(room, index, now);
    assert IdsOf(r.members) == IdsOf(room.members);
    assert EstimatesOf(r.members) == EstimatesOf(room.members);
    TallyDependsOnEstimatesOnly(r.members, room.members);
  }

  /** Setting an estimate and recomputing the result keeps the invariant. */
  lemma UpdateEstimateKeepsConsistent(room: Room, index: nat, value: string, now: Timestamp)
    requires Consistent(room) && index < |room.members|
    ensures Consistent(UpdateResult(UpdateEstimatedValue(room, index, value, now)))
  {
    var r := UpdateEstimatedValue(room, index, value, now);
    assert IdsOf(r.members) == IdsOf(room.members);
  }

  /** Revealing never touches an estimate, so the invariant survives without recounting. */
  lemma RevealKeepsConsistent(room: Room, actorIndex: int, now: Timestamp)
    requires Consistent(room) && -1 <= actorIndex < |room.members|
    ensures var r := RevealCards(room, actorIndex, now);
      && EstimatesOf(r.members) == EstimatesOf(room.members)
      && Consistent(r)
  {
    var r := RevealCards(room, actorIndex, now);
    assert IdsOf(r.members) == IdsOf(room.members);
    assert EstimatesOf(r.members) == EstimatesOf(room.members);
    TallyDependsOnEstimatesOnly(r.members, room.members);
  }

  /** A restart keeps the members and their ids, clears every estimate and keeps the invariant. */
  lemma RestartKeepsConsistent(room: Room, now: Timestamp)
    requires Consistent(room)
    ensures var r := Restart(room, now);
      && IdsOf(r.members) == IdsOf(room.members)
      && (forall i :: 0 <= i < |r.members| ==> r.members[i].estimatedValue == "")
      && Consistent(r)
  {
    var r := Restart(room, now);
    assert IdsOf(r.members) == IdsOf(room.members);
    TallyOfUnvoted(r.members);
  }
}
