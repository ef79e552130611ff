# Planning-poker room engine in Dafny

This project models the room engine of the planning-poker service
(raksitnongbua/planning-poker-service, Go) and proves properties of it.

A room holds:

- an ordered list of members, each with an id, a name, a last-active time and an estimate;
- a parallel `MemberIDs` list;
- a status, `VOTING` or `REVEALED_CARDS`;
- a result tally (estimate → number of holders);
- creation and update times;
- a desk configuration.

Clients talk to a room over a websocket. The five actions are `JOIN_ROOM`, `UPDATE_ACTIVE_USER`,
`UPDATE_ESTIMATED_VALUE`, `REVEAL_CARDS` and `RESET_ROOM`. Each action fetches a fresh copy of the
room, changes it and writes it back. The new room is then broadcast to every connection bound to
the same room, or an error token goes back to the sender alone.

The engine exists in three revisions:

- `main.go`, the earliest;
- `internal/core/core.go`;
- the handler and use-case packages under `internal/core`.

The model follows the latest revision. `Revision = Legacy | Current` selects where the earliest
one differs:

- its tally counts empty estimates under the key `""`;
- its reset write leaves out `Members`;
- its request type reads `DeskConfig` from a different key.

| file | module | what it holds |
|---|---|---|
| `wrappers.dfy` | `Wrappers` | `Option` |
| `json.dfy` | `Json` | abstract JSON values (RFC 8259), numbers as exact decimals; decoding a string struct field; the `float64` range of numbers decoded into `interface{}` |
| `entity.dfy` | `Entity` | `Member`, `Room`, `Revision`, field sets and partial overwrite (`Overlay`) |
| `membership.dfy` | `Membership` | `IsUserInRoom`, `FindMemberIndex` |
| `results.dfy` | `Results` | `getResult` as loops (`GetResult`, `GetResultCountingEmpty`) against the reference tallies `Tally` / `TallyAll` |
| `room_domain.dfy` | `RoomDomain` | the room transitions, the room invariant `Consistent`, preservation lemmas |
| `transformer.dfy` | `Transformer` | payload decoding for `JOIN_ROOM` / `UPDATE_ESTIMATED_VALUE` |
| `store.dfy` | `Store` | the document store as a class over `map<RoomId, Room>` with `Set` and partial `Update` |
| `registry.dfy` | `Registry` | the connection registry as a class over `map<ConnId, RoomId>`; the broadcast loop |
| `room_socket.dfy` | `RoomSocket` | the action `switch`: reference function `Step` and the imperative `Dispatch` proved equal to it |
| `session.dfy` | `Session` | one websocket connection's life: connect, greet, read loop, disconnect |
| `room_socket_usecase.dfy` | `RoomSocketUseCase` | the fetch → mutate → partial write use cases |
| `room_handler.dfy` | `RoomHandler` | room creation over HTTP: body decoding, validation, initial room |

The room invariant `RoomDomain.Consistent` has three parts:

- member ids are unique;
- `MemberIDs` equals the member id sequence;
- `Result` equals the tally of the estimates.

`Consistent` is an invariant of the current revision only. There every action keeps it, and the
stored room keeps it through any sequence of frames on a connection. The earliest revision does not
keep it. Its estimate update stores a tally with a `""` key whenever some member has not voted. Its
reset stores a document that differs from the snapshot it broadcasts (see Findings).

## Model

| member | source | states |
|---|---|---|
| Json.StringField | internal/core/handler/room_socket/room_socket_transformer.go:21-24 | decoding one string struct field: absent key or null gives "", a JSON string is taken, any other type is an error |
| Entity.Overlay | internal/repository/room/room_repository.go:64-90 | a partial update that names every field yields the source room; one that names none leaves the stored room |
| Entity.ChangedFields | internal/repository/room/room_repository.go:64-90 | the set of differing fields is empty iff the two rooms are equal |
| Entity.OverlayCoversChanges | internal/repository/room/room_repository.go:64-90 | a partial update stores exactly the new room iff it names every field that changed |
| Membership.IsUserInRoom | internal/core/usecase/room/room.go:5-12 | true iff some member's id equals the user id |
| Membership.FindMemberIndex | internal/core/usecase/room/room.go:14-21 | -1 iff no member has the id; otherwise a valid index whose member has the id, with no earlier member having it (also `FindMemberIndex` at internal/core/usecase/room_socket/room_socket.go:11-19 and `findMemberIndex` at main.go:82-89) |
| Membership.InRoomIffIndexFound | internal/core/usecase/room/room.go:5-21 | `IsUserInRoom(u, ms)` holds iff `FindMemberIndex(ms, u) != -1` |
| Membership.FoundIndexIsUnique | internal/core/usecase/room/room.go:14-21 | with unique ids, the index found is the only position holding that id |
| Results.GetResult | internal/core/handler/room_socket/room_socket_handler.go:102-110 | the map-building loop computes the reference tally of non-empty estimates (same loop at internal/core/core.go:222-230) |
| Results.GetResultCountingEmpty | main.go:245-251 | the earliest revision's loop computes the tally of all estimates, "" included |
| Results.TallyMeaning | internal/core/handler/room_socket/room_socket_handler.go:102-110 | keys are exactly the non-empty estimates some member holds; each maps to its number of holders (at least 1); "" is never a key |
| Results.TallyIsTallyAllWithoutEmpty | internal/core/core.go:222-230 | the later tally is the earliest tally with the "" key removed |
| Results.TallyDependsOnEstimatesOnly | internal/core/handler/room_socket/room_socket_handler.go:102-110 | two member lists with the same estimates in order have the same tallies |
| Results.TallyOfUnvoted | internal/core/handler/room_socket/room_socket_handler.go:215-221 | when no member has an estimate, the tally is empty |
| Results.SumOfTally | internal/core/core.go:222-230 | the counts sum to the number of members with a non-empty estimate |
| Results.SumOfTallyAll | main.go:245-251 | the earliest revision's counts sum to the number of members |
| Results.LegacyTallyCountsUnvoted | main.go:245-251 | one member without an estimate gives the result {"": 1} in the earliest revision and the empty result in the later ones |
| RoomDomain.NewMember | internal/core/handler/room_socket/room_socket_handler.go:51-52 | a new member has the given id, name and activity time and no estimate |
| RoomDomain.JoinKeepsConsistent | internal/core/handler/room_socket/room_socket_handler.go:50-53 | a join by a new id appends exactly that member at the end and keeps the room invariant |
| RoomDomain.MarkActiveKeepsConsistent | internal/core/handler/room_socket/room_socket_handler.go:172-180 | touching a member leaves all estimates and the invariant intact |
| RoomDomain.UpdateEstimateKeepsConsistent | internal/core/handler/room_socket/room_socket_handler.go:187-195 | setting one estimate and recomputing the result keeps the invariant |
| RoomDomain.RevealKeepsConsistent | internal/core/handler/room_socket/room_socket_handler.go:202-213 | revealing changes no estimate, so the invariant holds without a recount |
| RoomDomain.RestartKeepsConsistent | internal/core/handler/room_socket/room_socket_handler.go:215-230 | a reset keeps the ids, clears every estimate and keeps the invariant |
| Transformer.TransformPayloadToEstimatedPoint | internal/core/handler/room_socket/room_socket_transformer.go:8-27 | a non-object is InvalidFormat; every failure returns the zero payload; success means an object whose "value" decodes to the returned value; every decodable object succeeds |
| Transformer.TransformPayloadToJoinRoom | internal/core/handler/room_socket/room_socket_transformer.go:29-47 | the same four facts for "name" |
| Transformer.EstimatedPointRoundTrip | internal/core/handler/room_socket/room_socket_transformer.go:8-27 | decoding the object a client encodes returns the payload with no error |
| Transformer.JoinRoomRoundTrip | internal/core/handler/room_socket/room_socket_transformer.go:29-47 | decoding the object a client encodes returns the payload with no error |
| Transformer.ExtraKeysIgnored | internal/core/handler/room_socket/room_socket_transformer.go:14-26 | keys other than the payload's own field do not affect the outcome |
| Store.RoomStore.Exists | internal/repository/room/room_repository.go:45-49 | true iff a document exists under the id |
| Store.RoomStore.Fetch | internal/repository/room/room_repository.go:51-62 | returns the stored document |
| Store.RoomStore.Put | internal/repository/room/room_repository.go:64-90 | on an error nothing changes. A `Set` stores the snapshot. An `Update` overwrites only the named fields and fails on a missing document. No other document changes |
| Registry.Audience | internal/core/handler/room_socket/room_socket_handler.go:61-65 | exactly the registered connections tagged with the room |
| Registry.ConnectionRegistry.Register | internal/core/handler/room_socket/room_socket_handler.go:122-126 | the connection is added with its room tag; nothing else changes |
| Registry.ConnectionRegistry.Deregister | internal/core/handler/room_socket/room_socket_handler.go:128-134 | the connection is removed; nothing else changes |
| Registry.ConnectionRegistry.Broadcast | internal/core/handler/room_socket/room_socket_handler.go:57-73 | every connection tagged with the room is tried. Those whose write fails are reported and the rest are delivered. No other connection is written to (same loop at internal/core/core.go:132-148 and main.go:155-171) |
| Registry.RegisterElsewhereKeepsAudience | internal/core/handler/room_socket/room_socket_handler.go:122-126 | registering a connection for another room leaves this room's audience unchanged |
| RoomSocket.DecodeEnvelope | internal/core/handler/room_socket/room_socket_handler.go:153-157 | decoding fails exactly when the text does not parse, when it is neither an object nor null, when "action" is present and neither a string nor null, or when "payload" holds a number anywhere inside it whose magnitude rounds past the largest `float64`. null gives an empty action and a null payload. For an object, the action is the decoded "action" field ("" when absent or null), and the payload is the value under "payload" (null when absent) |
| RoomSocket.EnvelopeRoundTrip | internal/core/handler/room_socket/room_socket_handler.go:153-157 | an envelope a client encodes decodes back to the same action and payload exactly when every number in the payload fits a `float64` |
| RoomSocket.OutOfRangePayloadRefused | internal/core/handler/room_socket/room_socket_handler.go:153-157 | a payload holding 1e342 or more makes the envelope fail to decode whatever the action; 1e-342 or less decodes |
| Json.HugeLiteralOverflows | internal/core/handler/room_socket/room_socket_handler.go:20-23 | a number of magnitude 10^342 or more does not fit the `float64` an `interface{}` payload decodes it into |
| Json.SmallLiteralFits | internal/core/handler/room_socket/room_socket_handler.go:20-23 | a number of magnitude at most 1, however small, fits: underflow rounds to zero and is no error |
| RoomSocket.Step | internal/core/handler/room_socket/room_socket_handler.go:161-231 | unknown actions do nothing; JOIN_ROOM rejects only with JOIN_ROOM_FAILED; the update actions reject only with NOT_FOUND_USER; reveal and reset always commit; only reset is a partial write |
| RoomSocket.ClearEstimates | internal/core/handler/room_socket/room_socket_handler.go:216-218 | the loop clears every member's estimate and changes nothing else |
| RoomSocket.Dispatch | internal/core/handler/room_socket/room_socket_handler.go:158-231 | the in-place mutation of the fetched copy, branch by branch, has exactly the effect `Step` specifies (also internal/core/core.go:279-351 and main.go:300-371) |
| RoomSocket.JoinRoomOutcome | internal/core/handler/room_socket/room_socket_handler.go:162-171 | a join is refused iff the uid is already a member or the payload does not decode. Otherwise exactly one member (uid, name, no estimate) is appended, uid is appended to `MemberIDs`, and only the update time also changes |
| RoomSocket.UpdateActiveUserOutcome | internal/core/handler/room_socket/room_socket_handler.go:172-186 | refused iff the uid is not a member; otherwise only the actor's activity time changes, not the update time, the status or the result |
| RoomSocket.UpdateEstimatedValueOutcome | internal/core/handler/room_socket/room_socket_handler.go:187-201 | refused iff the uid is absent or the payload does not decode. Otherwise only the actor's estimate and activity time change, the result is recomputed and the update time is set |
| RoomSocket.RevealCardsOutcome | internal/core/handler/room_socket/room_socket_handler.go:202-213 | always commits, with status REVEALED_CARDS and update time now. The member list keeps its length. Every member is unchanged except the actor, if a member, whose activity time becomes now. No other field of the room changes |
| RoomSocket.ResetRoomOutcome | internal/core/handler/room_socket/room_socket_handler.go:215-230 | always commits. Every member keeps everything but its estimate, which is cleared. The status is VOTING, the result is empty and the update time is now. No other field of the room changes |
| RoomSocket.StepKeepsConsistent | internal/core/handler/room_socket/room_socket_handler.go:161-231 | in the current revision every committed action keeps the room invariant |
| RoomSocket.CurrentPersistsSnapshot | internal/core/handler/room_socket/room_socket_handler.go:222-228 | in the current revision every write, the reset's partial update included, stores exactly the snapshot that is broadcast |
| RoomSocket.LegacyResetKeepsStaleEstimates | main.go:356-368 | the earliest reset write leaves the old estimates in the store beside an empty result, breaking the invariant |
| Session.FrameStep | internal/core/handler/room_socket/room_socket_handler.go:146-231 | one frame sends at most one message, and a broadcast reaches only connections tagged with the room |
| Session.Replay | internal/core/handler/room_socket/room_socket_handler.go:146-232 | the read loop acts on at most the frames offered |
| Session.HandleFrame | internal/core/handler/room_socket/room_socket_handler.go:147-231 | a failed read or an undecodable envelope stops the loop and changes nothing. Otherwise the store and the messages are as `FrameStep` specifies |
| Session.ReadLoop | internal/core/handler/room_socket/room_socket_handler.go:146-232 | the loop leaves the store and the messages exactly as `Replay` specifies |
| Session.Serve | internal/core/handler/room_socket/room_socket_handler.go:111-233 | a missing room gets "Room not found" and nothing else happens. Otherwise the caller is greeted (UPDATE_ROOM, then NEED_TO_JOIN for a non-member) and the frames are replayed. The connection is deregistered at the end (also internal/core/core.go:232-353, main.go:253-373) |
| Session.ReplayKeepsConsistent | internal/core/handler/room_socket/room_socket_handler.go:146-232 | in the current revision the stored room keeps the invariant through any run of frames |
| Session.OutOfRangePayloadEndsSession | internal/core/handler/room_socket/room_socket_handler.go:153-157 | a frame whose payload holds a number too large for `float64` ends the read loop with no write and no message |
| Session.RejectedFrameChangesNothing | internal/core/handler/room_socket/room_socket_handler.go:169-200 | a rejected or ignored action leaves the stored room unchanged and broadcasts nothing |
| Session.BroadcastsStayInRoom | internal/core/handler/room_socket/room_socket_handler.go:57-73 | every UPDATE_ROOM a run writes reaches only connections tagged with the room |
| RoomSocketUseCase.JoinRoom | internal/core/usecase/room_socket/room_socket.go:21-34 | joins on a freshly fetched copy. A write error gives the zero room and the error. Otherwise the joined room is returned and stored, with the update time the repository writes |
| RoomSocketUseCase.UpdateEstimatedValue | internal/core/usecase/room_socket/room_socket.go:36-50 | sets the estimate and then recomputes the result before the write. A write error gives the zero room. Otherwise the returned room is exactly the stored room |
| RoomSocketUseCase.RevealCards | internal/core/usecase/room_socket/room_socket.go:52-64 | a write error gives the zero room; otherwise the revealed room is returned and is exactly what is stored |
| RoomSocketUseCase.ResetRoom | internal/core/usecase/room_socket/room_socket.go:66-78 | update time and restart use the same now. A write error gives the zero room. Otherwise the restarted room is returned and is exactly what is stored |
| RoomSocketUseCase.JoinWriteStoresJoiner | internal/repository/room/room_repository.go:70-74 | the joiner update names every field a join changes |
| RoomSocketUseCase.EstimateWriteStoresRoom | internal/repository/room/room_repository.go:64-68 | the estimate update names every field an estimate and its recount change |
| RoomSocketUseCase.RevealWriteStoresRoom | internal/repository/room/room_repository.go:76-80 | the reveal update names every field a reveal changes |
| RoomSocketUseCase.ResetWriteStoresRoom | internal/repository/room/room_repository.go:82-90 | the reset update names every field a restart changes |
| RoomSocketUseCase.JoinedDocumentConsistent | internal/core/usecase/room_socket/room_socket.go:21-34 | for a new id, the stored joined room keeps the invariant even though the result is not written |
| RoomSocketUseCase.RepeatedJoinDuplicatesMember | internal/core/usecase/room_socket/room_socket.go:21-28 | the use case does not check membership: joining an existing id duplicates it |
| RoomHandler.DeskConfigKey | main.go:26-30 | only the current revision reads the desk configuration from "desk_config" |
| RoomHandler.DecodeRoomRequest | internal/core/handler/room/room_handler.go:17-21 | the body must parse and be an object or null. Each field is decoded from its key. It fails iff some present field is neither a string nor null |
| RoomHandler.CreateNewRoom | internal/core/handler/room/room_handler.go:16-42 | "Invalid request body" iff the body does not decode. "Missing required fields" iff a field is empty. Otherwise the room has the request's name and desk configuration, VOTING, no members, an empty result and created = updated = response time = now, and it satisfies the invariant (also internal/core/core.go:95-121) |
| RoomHandler.RoomRequestRoundTrip | internal/core/handler/room/room_handler.go:17-21 | a request decodes back from the body encoded with its revision's keys |
| RoomHandler.CompleteRequestCreatesRoom | internal/core/handler/room/room_handler.go:24-41 | a complete request creates exactly the initial room |
| RoomHandler.MissingKeyRefused | internal/core/handler/room/room_handler.go:24-26 | a body lacking any of the three keys is refused as incomplete |
| RoomHandler.LegacyRefusesDeskConfigKey | main.go:26-30 | the earliest revision refuses a complete body with the documented keys; the current one creates the room |

## Left out

- Concurrency: the `clientsMu` mutex and the read-modify-write race between connections (last write wins) are not modelled. Each action is one atomic step on the store.
- Socket I/O: websocket reads and writes are not modelled. A frame is an input; a failed read, an undecodable envelope and failed sends are given with the frame.
- JSON byte encoding is not modelled. Parsing yields an abstract JSON value or `Unparseable`. A number is kept as its exact decimal value. The only conversion the engine makes is to `float64` inside the envelope's payload, and its overflow limit is modelled. Rounding to `float64` is not modelled, because a payload number is never compared or stored. Go's case-insensitive matching of object keys to struct fields is left out: keys match exactly.
- Marshalling errors: re-marshalling a decoded JSON object cannot fail, so that error branch of the transformers is not modelled.
- The clock is an input: every reading is a parameter.
- RoomSocket.Step: uses one time `now` for the whole action. The handler reads the clock separately for the joiner's and the estimator's activity time (room_socket_handler.go:52, 97). core.go and main.go read it at every stamp.
- RoomHandler.CreateNewRoom: core.go and main.go read the clock separately for CreatedAt, UpdatedAt and the response. The model follows room_handler.go, which reads it once.
- Store.RoomStore.Fetch: requires the room to exist. `GetRoomInfo` ends the process with `log.Fatalf` otherwise.
- RoomSocketUseCase.UpdateEstimatedValue: requires `index` to be a position in the room's members. This assumes the caller passes an index that `FindMemberIndex` (room_socket.go:11-19) returned for a member. What `domain.Room.UpdateEstimatedValue` does with any other index is not part of this model.
- RoomSocketUseCase.RevealCards: requires `-1 <= actorIndex < len(Members)`. This assumes `actorIndex` is what `FindMemberIndex` returned, -1 for a non-member. What `domain.Room.RevealCards` does with any other index is not part of this model.
- The bodies of the domain methods the use cases call (`JoinRoom`, `UpdateEstimatedValue`, `UpdateResult`, `RevealCards`, `Restart`, `NewMember` on `domain.Room`) are not part of this model. Neither is `roomService.GetRoomInfo` (room_socket.go:22), which is not in internal/core/usecase/room/room.go. The model specifies these methods by the handler's inline code for the same steps (room_socket_handler.go:50-53, 187-195, 202-213, 215-221), not by their own bodies. `RevealCards` does not recount the result, because the handler's reveal does not.
- The handler package's `JoinRoomPayload` and `EstimatedPointPayload` structs are not part of this model. They are taken to carry the same JSON tags as core.go:40-46 and main.go:62-68, "name" and "value". The Transformer functions and the JOIN_ROOM and UPDATE_ESTIMATED_VALUE branches of `RoomSocket.Step` read those keys.
- The store write in `CreateNewRoomHandler` is not modelled. Its result is ignored by the source, and the response does not depend on it.
- Firestore is not modelled beyond a map of documents with `Set` and field-wise `Update`. Which writes fail is an input.
- Id generation (`GenerateUniqueRoomID`, uuids) is not modelled: the room id is a parameter.
- The recent-rooms query, `StructToMap`, session decryption and guest sign-in are not part of this model.

## Findings

| source | as written | input that shows it | evidently intended | confidence | as-written member | corrected member |
|---|---|---|---|---|---|---|
| main.go:365-368 | the RESET_ROOM update writes Status, UpdatedAt and Result but not Members | room "Sprint" with one member u1 holding "5"; RESET_ROOM | the cleared estimates are written together with the empty result, as in core.go:344-348 | high (not executed) | RoomSocket.LegacyResetKeepsStaleEstimates | RoomSocket.CurrentPersistsSnapshot |
| main.go:29 | the tag `json:desk_config"` lacks its opening quote, so the key is the field name "DeskConfig" | body {"room_name":"R","hosting_id":"h","desk_config":"d"} is refused with "Missing required fields" | "desk_config" is read, as in core.go:25 | high (not executed) | RoomHandler.LegacyRefusesDeskConfigKey | RoomHandler.CompleteRequestCreatesRoom |
| main.go:245-251 | getResult counts members without an estimate under the key "" | one member with estimate "" gives the result {"": 1} | empty estimates are skipped, as in core.go:225 | medium (not executed) | Results.LegacyTallyCountsUnvoted | Results.TallyMeaning |
