/**
 * The connection registry and broadcast (the package-level `clients` map of
 * internal/core/handler/room_socket/room_socket_handler.go, with each
 * connection's `roomId` tag; the same in internal/core/core.go and main.go).
 * The mutex around it is not modelled: every operation is one atomic step.
 */
module Registry {
  import opened Entity

  /** An opaque connection identity (the `*websocket.Conn` pointer). */
  type ConnId = nat

  /** The connections tagged with `roomId`. */
  function Audience(clients: map<ConnId, RoomId>, roomId: RoomId): (audience: set<ConnId>)
    ensures forall c :: c in audience <==> c in clients && clients[c] == roomId
  {
    set c | c in clients && clients[c] == roomId
  }

  class ConnectionRegistry {
    /** Each live connection and the room it was bound to on connect. */
    var clients: map<ConnId, RoomId>

    constructor ()
      ensures clients == map[]
    {
      clients := map[];
    }

    method Register(conn: ConnId, roomId: RoomId)
      modifies this
      ensures clients == old(clients)[conn := roomId]
    {
      clients := clients[conn := roomId];
    }

    method Deregister(conn: ConnId)
      modifies this
      ensures clients == old(clients) - {conn}
    {
      clients := clients - {conn};
    }

    /**
     * `broadcastMessage`: visits every registered connection, skips those
     * tagged with another room, and writes to the rest; a write that fails
     * (the connections in `failing`) is logged and the loop goes on.
     * Returns the connections reached and those whose write failed.
     */
    method Broadcast(roomId: RoomId, failing: set<ConnId>) returns (delivered: set<ConnId>, failed: set<ConnId>)
      ensures delivered == Audience(clients, roomId) - failing
      ensures failed == Audience(clients, roomId) * failing
      ensures forall c :: c in delivered + failed ==> c in clients && clients[c] == roomId
    {
      var pending := clients.Keys;
      delivered, failed := {}, {};
      while pending != {}
        invariant pending <= clients.Keys
        invariant delivered == Audience(clients, roomId) - failing - pending
        invariant failed == Audience(clients, roomId) * failing - pending
        decreases pending
      {
        var client :| client in pending;
        if clients[client] == roomId {
          if client in failing {
            failed := failed + {client};
          } else {
            delivered := delivered + {client};
          }
        }
        pending := pending - {client};
      }
    }
  }

  /** Registering a connection for another room leaves a room's audience as it was. */
  lemma RegisterElsewhereKeepsAudience(clients: map<ConnId, RoomId>, conn: ConnId, other: RoomId, roomId: RoomId)
    requires other != roomId && conn !in Audience(clients, roomId)
    ensures Audience(clients[conn := other], roomId) == Audience(clients, roomId)
  {
  }
}
