/**
 * One websocket connection's life (`SocketRoomHandler`,
 * internal/core/handler/room_socket/room_socket_handler.go:111-233): check
 * the room exists, register the connection under the room, greet it, then
 * read frames until a read fails or a frame does not decode, and finally
 * deregister. Each frame carries what the environment supplies for it: the
 * time, whether the store write fails, and which connections' sends fail.
 */
module Session {
  import opened Wrappers
  import opened Json
  import opened Entity
  import opened Membership
  import opened RoomDomain
  import opened Store
  import opened Registry
  import opened RoomSocket

  datatype Frame =
    | Inbound(text: Document, now: Timestamp, storeFails: bool, failedSends: set<ConnId>)
    | ReadFailed

  /** A message written: to the calling connection alone, or to a room's audience. */
  datatype Sent =
    | ToCaller(msg: ServerMessage)
    | ToRoom(msg: ServerMessage, delivered: set<ConnId>, failed: set<ConnId>)

  datatype Progress = Stop | Continue(stored: Room, sent: seq<Sent>)

  /** The outcome of a run of frames: the stored room, the messages written, the frames acted on. */
  datatype Run = Run(stored: Room, sent: seq<Sent>, consumed: nat)

  /** What the connection is sent on connect: the snapshot, and NEED_TO_JOIN for a non-member. */
  function Greeting(room: Room, uid: UserId): seq<Sent>
  {
    [ToCaller(UpdateRoom(room))] + (if IsUserInRoom(uid, room.members) then [] else [ToCaller(NeedToJoin)])
  }

  /**
   * One iteration of the read loop against the stored room. The handler
   * ignores the store's error, so a failed write still broadcasts.
   */
  function FrameStep(stored: Room, roomId: RoomId, uid: UserId, frame: Frame, rev: Revision,
                     clients: map<ConnId, RoomId>): (p: Progress)
    ensures p.Continue? ==> |p.sent| <= 1
    ensures p.Continue? ==> forall i :: 0 <= i < |p.sent| && p.sent[i].ToRoom? ==>
      p.sent[i].delivered + p.sent[i].failed <= Audience(clients, roomId)
  {
    match frame
    case ReadFailed => Stop
    case Inbound(text, now, storeFails, failedSends) =>
      match DecodeEnvelope(text)
      case None => Stop
      case Some(msg) =>
        match Step(stored, uid, msg, now, rev)
        case Commit(room, w) =>
          var audience := Audience(clients, roomId);
          Continue(if storeFails then stored else Persist(stored, room, w),
                   [ToRoom(UpdateRoom(room), audience - failedSends, audience * failedSends)])
        case Reject(token) => Continue(stored, [ToCaller(ErrorReply(token))])
        case Ignore => Continue(stored, [])
  }

  /** The read loop over a sequence of frames, as a function. */
  function Replay(stored: Room, roomId: RoomId, uid: UserId, frames: seq<Frame>, rev: Revision,
                  clients: map<ConnId, RoomId>): (run: Run)
    ensures run.consumed <= |frames|
    decreases |frames|
  {
    if frames == [] then Run(stored, [], 0)
    else match FrameStep(stored, roomId, uid, frames[0], rev, clients)
      case Stop => Run(stored, [], 0)
      case Continue(next, sent) =>
        var rest := Replay(next, roomId, uid, frames[1..], rev, clients);
        Run(rest.stored, sent + rest.sent, rest.consumed + 1)
  }

  /** What remains of `run` once `consumed` frames have been acted on, leaving `stored` and `replies`. */
  ghost predicate Resumes(run: Run, stored: Room, replies: seq<Sent>, consumed: nat, roomId: RoomId, uid: UserId,
                          frames: seq<Frame>, rev: Revision, clients: map<ConnId, RoomId>)
    requires consumed <= |frames|
  {
    var rest := Replay(stored, roomId, uid, frames[consumed..], rev, clients);
    run == Run(rest.stored, replies + rest.sent, consumed + rest.consumed)
  }

  /** A frame that continues moves the resumption point one frame on. */
  lemma ResumesAdvance(run: Run, stored: Room, replies: seq<Sent>, consumed: nat, roomId: RoomId, uid: UserId,
                       frames: seq<Frame>, rev: Revision, clients: map<ConnId, RoomId>)
    requires consumed < |frames|
    requires Resumes(run, stored, replies, consumed, roomId, uid, frames, rev, clients)
    requires FrameStep(stored, roomId, uid, frames[consumed], rev, clients).Continue?
    ensures var p := FrameStep(stored, roomId, uid, frames[consumed], rev, clients);
      Resumes(run, p.stored, replies + p.sent, consumed + 1, roomId, uid, frames, rev, clients)
  {
    assert frames[consumed..][1..] == frames[consumed + 1..];
  }

  /** A frame that stops, or the end of the frames, ends the run where it is. */
  lemma ResumesEnd(run: Run, stored: Room, replies: seq<Sent>, consumed: nat, roomId: RoomId, uid: UserId,
                   frames: seq<Frame>, rev: Revision, clients: map<ConnId, RoomId>)
    requires consumed <= |frames|
    requires Resumes(run, stored, replies, consumed, roomId, uid, frames, rev, clients)
    requires consumed < |frames| ==> FrameStep(stored, roomId, uid, frames[consumed], rev, clients).Stop?
    ensures run == Run(stored, replies, consumed)
  {
  }

  /** Before any frame, the run resumes from its start. */
  lemma ResumesStart(stored: Room, roomId: RoomId, uid: UserId, frames: seq<Frame>, rev: Revision,
                     clients: map<ConnId, RoomId>)
    ensures Resumes(Replay(stored, roomId, uid, frames, rev, clients), stored, [], 0, roomId, uid, frames, rev, clients)
  {
    assert frames[0..] == frames;
  }

  /**
   * One pass of the read loop: stop on a failed read or an undecodable
   * envelope; otherwise fetch the room, dispatch, write and broadcast, or
   * reply to the caller.
   */
  method HandleFrame(store: RoomStore, registry: ConnectionRegistry, roomId: RoomId, uid: UserId,
                     frame: Frame, rev: Revision) returns (stop: bool, sent: seq<Sent>)
    requires roomId in store.rooms
    modifies store
    ensures var p := FrameStep(old(store.rooms[roomId]), roomId, uid, frame, rev, registry.clients);
      && (stop <==> p.Stop?)
      && (stop ==> store.rooms == old(store.rooms) && sent == [])
      && (!stop ==> store.rooms == old(store.rooms)[roomId := p.stored] && sent == p.sent)
  {
    stop, sent := true, [];
    if frame.ReadFailed? {
      return;
    }
    var received := DecodeEnvelope(frame.text);
    if received.None? {
      return;
    }
    stop := false;
    var room := store.Fetch(roomId);
    var effect := Dispatch(room, uid, received.value, frame.now, rev);
    match effect {
      case Commit(snapshot, w) =>
        var _ := store.Put(roomId, snapshot, w, frame.storeFails);
        var delivered, failed := registry.Broadcast(roomId, frame.failedSends);
        sent := [ToRoom(UpdateRoom(snapshot), delivered, failed)];
      case Reject(token) =>
        sent := [ToCaller(ErrorReply(token))];
      case Ignore =>
    }
  }

  /** The read loop: handles frames until one stops it or none are left. */
  method ReadLoop(store: RoomStore, registry: ConnectionRegistry, roomId: RoomId, uid: UserId,
                  frames: seq<Frame>, rev: Revision) returns (replies: seq<Sent>, consumed: nat)
    requires roomId in store.rooms
    modifies store
    ensures var run := Replay(old(store.rooms[roomId]), roomId, uid, frames, rev, registry.clients);
      && store.rooms == old(store.rooms)[roomId := run.stored]
      && replies == run.sent
      && consumed == run.consumed
  {
    ghost var run := Replay(store.rooms[roomId], roomId, uid, frames, rev, registry.clients);
    ResumesStart(store.rooms[roomId], roomId, uid, frames, rev, registry.clients);
    replies, consumed := [], 0;
    while consumed < |frames|
      invariant consumed <= |frames|
      invariant roomId in store.rooms
      invariant store.rooms == old(store.rooms)[roomId := store.rooms[roomId]]
      invariant Resumes(run, store.rooms[roomId], replies, consumed, roomId, uid, frames, rev, registry.clients)
      decreases |frames| - consumed
    {
      ghost var stored := store.rooms[roomId];
      var stop, out := HandleFrame(store, registry, roomId, uid, frames[consumed], rev);
      if stop {
        break;
      }
      ResumesAdvance(run, stored, replies, consumed, roomId, uid, frames, rev, registry.clients);
      replies := replies + out;
      consumed := consumed + 1;
    }
    ResumesEnd(run, store.rooms[roomId], replies, consumed, roomId, uid, frames, rev, registry.clients);
  }

  /**
   * `SocketRoomHandler` for connection `conn` asking for `roomId` as `uid`.
   * It works on the shared store and registry; returns what it wrote and
   * how many frames it acted on.
   */
  method Serve(store: RoomStore, registry: ConnectionRegistry, conn: ConnId, roomId: RoomId, uid: UserId,
               frames: seq<Frame>, rev: Revision) returns (sent: seq<Sent>, consumed: nat)
    requires conn !in registry.clients
    modifies store, registry
    ensures registry.clients == old(registry.clients)
    ensures roomId !in old(store.rooms) ==>
      sent == [ToCaller(ErrorReply(ROOM_NOT_FOUND))] && consumed == 0 && store.rooms == old(store.rooms)
    ensures roomId in old(store.rooms) ==>
      var initial := old(store.rooms)[roomId];
      var run := Replay(initial, roomId, uid, frames, rev, old(registry.clients)[conn := roomId]);
      && store.rooms == old(store.rooms)[roomId := run.stored]
      && sent == Greeting(initial, uid) + run.sent
      && consumed == run.consumed
  {
    var found := store.Exists(roomId);
    if !found {
      sent, consumed := [ToCaller(ErrorReply(ROOM_NOT_FOUND))], 0;
      return;
    }
    registry.Register(conn, roomId);
    var roomInfo := store.Fetch(roomId);
    sent := [ToCaller(UpdateRoom(roomInfo))];
    var isUserInRoom := IsUserInRoom(uid, roomInfo.members);
    if !isUserInRoom {
      sent := sent + [ToCaller(NeedToJoin)];
    }
    var replies;
    replies, consumed := ReadLoop(store, registry, roomId, uid, frames, rev);
    sent := sent + replies;
    registry.Deregister(conn);
    assert registry.clients == old(registry.clients);
  }

  /** In the later revisions the stored room keeps its invariant through any run of frames. */
  lemma {:induction false} ReplayKeepsConsistent(stored: Room, roomId: RoomId, uid: UserId, frames: seq<Frame>,
                                                 clients: map<ConnId, RoomId>)
    requires Consistent(stored)
    ensures Consistent(Replay(stored, roomId, uid, frames, Current, clients).stored)
    decreases |frames|
  {
    if frames != [] {
      match FrameStep(stored, roomId, uid, frames[0], Current, clients)
      case Stop =>
      case Continue(next, sent) =>
        var frame := frames[0];
        var msg := DecodeEnvelope(frame.text).value;
        StepKeepsConsistent(stored, uid, msg, frame.now);
        CurrentPersistsSnapshot(stored, uid, msg, frame.now);
        ReplayKeepsConsistent(next, roomId, uid, frames[1..], clients);
    }
  }

  /** A frame that is rejected or ignored leaves the stored room as it was and broadcasts nothing. */
  lemma RejectedFrameChangesNothing(stored: Room, roomId: RoomId, uid: UserId, frame: Frame, rev: Revision,
                                    clients: map<ConnId, RoomId>)
    requires frame.Inbound? && DecodeEnvelope(frame.text).Some?
    requires !Step(stored, uid, DecodeEnvelope(frame.text).value, frame.now, rev).Commit?
    ensures var p := FrameStep(stored, roomId, uid, frame, rev, clients);
      && p.Continue? && p.stored == stored
      && forall i :: 0 <= i < |p.sent| ==> p.sent[i].ToCaller?
  {
  }

  /**
   * A frame whose payload holds a number too large for `float64` ends the
   * read loop: nothing after it is acted on, the store is not written and
   * nothing is sent.
   */
  lemma OutOfRangePayloadEndsSession(stored: Room, roomId: RoomId, uid: UserId, frames: seq<Frame>, rev: Revision,
                                     clients: map<ConnId, RoomId>, action: string, key: string, exponent: int)
    requires exponent >= 342
    requires frames != [] && frames[0].Inbound? && frames[0].text == Parsed(NumberEnvelope(action, key, exponent))
    ensures Replay(stored, roomId, uid, frames, rev, clients) == Run(stored, [], 0)
  {
    OutOfRangePayloadRefused(action, key, exponent);
  }

  /** Every UPDATE_ROOM in `sent` went only to connections bound to `roomId`. */
  predicate StaysInRoom(sent: seq<Sent>, clients: map<ConnId, RoomId>, roomId: RoomId)
  {
    forall i :: 0 <= i < |sent| && sent[i].ToRoom? ==> sent[i].delivered + sent[i].failed <= Audience(clients, roomId)
  }

  /** Every UPDATE_ROOM a run writes reaches only connections bound to the room. */
  lemma {:induction false} BroadcastsStayInRoom(stored: Room, roomId: RoomId, uid: UserId, frames: seq<Frame>,
                                                rev: Revision, clients: map<ConnId, RoomId>)
    ensures StaysInRoom(Replay(stored, roomId, uid, frames, rev, clients).sent, clients, roomId)
    decreases |frames|
  {
    if frames != [] {
      match FrameStep(stored, roomId, uid, frames[0], rev, clients)
      case Stop =>
      case Continue(next, sent) =>
        BroadcastsStayInRoom(next, roomId, uid, frames[1..], rev, clients);
        var rest := Replay(next, roomId, uid, frames[1..], rev, clients);
        var all := sent + rest.sent;
        forall i | 0 <= i < |all| && all[i].ToRoom?
          ensures all[i].delivered + all[i].failed <= Audience(clients, roomId)
        {
          if i >= |sent| {
            assert all[i] == rest.sent[i - |sent|];
          }
        }
    }
  }
}
