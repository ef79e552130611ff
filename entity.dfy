/**
 * The room and member records (internal/core/domain/room_entity.go,
 * member_entity.go; the same structs in internal/core/entity.go and main.go).
 * Timestamps are opaque RFC 3339 strings supplied by the caller.
 */
module Entity {

  type Timestamp = string
  type RoomId = string
  type UserId = string

  /** The two status tokens the engine writes. */
  const VOTING: string := "VOTING"
  const REVEALED_CARDS: string := "REVEALED_CARDS"

  datatype Member = Member(id: UserId, name: string, lastActiveAt: Timestamp, estimatedValue: string)

  datatype Room = Room(
    name: string,
    members: seq<Member>,
    status: string,
    result: map<string, int>,
    createdAt: Timestamp,
    updatedAt: Timestamp,
    memberIds: seq<UserId>,
    deskConfig: string)

  /**
   * Which revision of the engine: `Legacy` is main.go (its getResult counts
   * empty estimates, its reset write omits `Members`, its request type has
   * a malformed `desk_config` tag); `Current` is internal/core/core.go and
   * the handler and use-case packages, which behave alike.
   */
  datatype Revision = Legacy | Current

  /** The zero value `domain.Room{}` returned beside an error (a nil map reads as empty). */
  const ZeroRoom: Room := Room("", [], "", map[], "", "", [], "")

  /** The ids of the members, in member order. */
  function IdsOf(members: seq<Member>): seq<UserId>
  {
    seq(|members|, i requires 0 <= i < |members| => members[i].id)
  }

  /** The estimates of the members, in member order. */
  function EstimatesOf(members: seq<Member>): seq<string>
  {
    seq(|members|, i requires 0 <= i < |members| => members[i].estimatedValue)
  }

  predicate UniqueIds(members: seq<Member>)
  {
    forall i, j :: 0 <= i < j < |members| ==> members[i].id != members[j].id
  }

  /** The document fields a partial store update can name (firestore.Update paths). */
  datatype Field =
    | NameField | MembersField | StatusField | ResultField
    | CreatedAtField | UpdatedAtField | MemberIdsField | DeskConfigField

  /** Every field: a whole-document `Set`. */
  const AllFields: set<Field> :=
    {NameField, MembersField, StatusField, ResultField, CreatedAtField, UpdatedAtField, MemberIdsField, DeskConfigField}

  /**
   * The document a partial update leaves behind: every listed field is taken
   * from `src`, every other field keeps its stored value in `base`.
   */
  function Overlay(base: Room, src: Room, fields: set<Field>): (r: Room)
    ensures AllFields <= fields ==> r == src
    ensures fields == {} ==> r == base
  {
    Room(
      if NameField in fields then src.name else base.name,
      if MembersField in fields then src.members else base.members,
      if StatusField in fields then src.status else base.status,
      if ResultField in fields then src.result else base.result,
      if CreatedAtField in fields then src.createdAt else base.createdAt,
      if UpdatedAtField in fields then src.updatedAt else base.updatedAt,
      if MemberIdsField in fields then src.memberIds else base.memberIds,
      if DeskConfigField in fields then src.deskConfig else base.deskConfig)
  }

  /** The fields in which two snapshots differ. */
  function ChangedFields(a: Room, b: Room): (fs: set<Field>)
    ensures fs == {} <==> a == b
  {
    (if a.name != b.name then {NameField} else {})
    + (if a.members != b.members then {MembersField} else {})
    + (if a.status != b.status then {StatusField} else {})
    + (if a.result != b.result then {ResultField} else {})
    + (if a.createdAt != b.createdAt then {CreatedAtField} else {})
    + (if a.updatedAt != b.updatedAt then {UpdatedAtField} else {})
    + (if a.memberIds != b.memberIds then {MemberIdsField} else {})
    + (if a.deskConfig != b.deskConfig then {DeskConfigField} else {})
  }

  /**
   * A partial update persists a mutated snapshot exactly when it lists every
   * field the mutation changed.
   */
  lemma OverlayCoversChanges(base: Room, src: Room, fields: set<Field>)
    ensures Overlay(base, src, fields) == src <==> ChangedFields(base, src) <= fields
  {
    if Overlay(base, src, fields) == src {
      forall f | f in ChangedFields(base, src) ensures f in fields {
        match f
        case NameField => assert Overlay(base, src, fields).name == src.name;
        case MembersField => assert Overlay(base, src, fields).members == src.members;
        case StatusField => assert Overlay(base, src, fields).status == src.status;
        case ResultField => assert Overlay(base, src, fields).result == src.result;
        case CreatedAtField => assert Overlay(base, src, fields).createdAt == src.createdAt;
        case UpdatedAtField => assert Overlay(base, src, fields).updatedAt == src.updatedAt;
        case MemberIdsField => assert Overlay(base, src, fields).memberIds == src.memberIds;
        case DeskConfigField => assert Overlay(base, src, fields).deskConfig == src.deskConfig;
      }
    }
  }
}
