/**
 * The room document store, reduced to the contract the engine relies on:
 * an existence check, a fetch, a whole-document `Set` and a partial
 * `Update` that overwrites only the listed fields
 * (internal/repository/room/room_repository.go; Firestore itself is not
 * part of this model).
 */
module Store {
  import opened Wrappers
  import opened Entity

  datatype StoreError = WriteFailed | DocumentNotFound

  /** A write: the whole snapshot (`Set`) or only some of its fields (`Update`). */
  datatype Write = SetDoc | UpdateFields(fields: set<Field>)

  /** The document left in place of `stored` when `snapshot` is written with `w`. */
  function Persist(stored: Room, snapshot: Room, w: Write): Room
  {
    match w
    case SetDoc => snapshot
    case UpdateFields(fields) => Overlay(stored, snapshot, fields)
  }

  class RoomStore {
    var rooms: map<RoomId, Room>

    constructor (initial: map<RoomId, Room>)
      ensures rooms == initial
    {
      rooms := initial;
    }

    method Exists(id: RoomId) returns (found: bool)
      ensures found <==> id in rooms
    {
      found := id in rooms;
    }

    /** `GetRoomInfo`: the source aborts the process when the room is missing, so callers check first. */
    method Fetch(id: RoomId) returns (room: Room)
      requires id in rooms
      ensures room == rooms[id]
    {
      room := rooms[id];
    }

    /**
     * Writes `snapshot` under `id`. A `Set` creates or replaces the document;
     * an `Update` of a missing document fails. `fails` stands for a storage
     * error reported by the backend, after which nothing is written.
     */
    method Put(id: RoomId, snapshot: Room, w: Write, fails: bool) returns (err: Option<StoreError>)
      modifies this
      ensures err.Some? <==> fails || (w.UpdateFields? && id !in old(rooms))
      ensures err.Some? ==> rooms == old(rooms)
      ensures err.None? && id in old(rooms) ==> rooms == old(rooms)[id := Persist(old(rooms)[id], snapshot, w)]
      ensures err.None? && id !in old(rooms) ==> rooms == old(rooms)[id := snapshot]
    {
      if fails {
        err := Some(WriteFailed);
      } else if id in rooms {
        rooms := rooms[id := Persist(rooms[id], snapshot, w)];
        err := None;
      } else if w.SetDoc? {
        rooms := rooms[id := snapshot];
        err := None;
      } else {
        err := Some(DocumentNotFound);
      }
    }
  }
}
