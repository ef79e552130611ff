/**
 * Membership search (internal/core/usecase/room/room.go; the same search is
 * `FindMemberIndex` in internal/core/usecase/room_socket/room_socket.go,
 * `findMemberIndex` / `foundUser` in internal/core/core.go and main.go).
 * Both are read-only linear scans with early return.
 */
module Membership {
  import opened Entity

  /** `IsUserInRoom`: true iff some member carries `userId`. */
  function IsUserInRoom(userId: UserId, members: seq<Member>): (found: bool)
    ensures found <==> exists i :: 0 <= i < |members| && members[i].id == userId
  {
    if members == [] then false
    else members[0].id == userId || IsUserInRoom(userId, members[1..])
  }

  /** `FindMemberIndex`: the index of the first member carrying `targetId`, or -1 when there is none. */
  function FindMemberIndex(members: seq<Member>, targetId: UserId): (index: int)
    ensures -1 <= index < |members|
    ensures index == -1 <==> forall j :: 0 <= j < |members| ==> members[j].id != targetId
    ensures 0 <= index ==> members[index].id == targetId
    ensures 0 <= index ==> forall j :: 0 <= j < index ==> members[j].id != targetId
  {
    if members == [] then -1
    else if members[0].id == targetId then 0
    else
      var k := FindMemberIndex(members[1..], targetId);
      if k == -1 then -1 else k + 1
  }

  /** The two searches agree: a member is present iff the index search finds one. */
  lemma InRoomIffIndexFound(userId: UserId, members: seq<Member>)
    ensures IsUserInRoom(userId, members) <==> FindMemberIndex(members, userId) != -1
  {
  }

  /** With unique ids the index found is the only position holding that id. */
  lemma FoundIndexIsUnique(members: seq<Member>, targetId: UserId, j: int)
    requires UniqueIds(members)
    requires 0 <= j < |members| && members[j].id == targetId
    ensures FindMemberIndex(members, targetId) == j
  {
  }
}
