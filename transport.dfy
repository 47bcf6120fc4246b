/**
 * The socket.io side of room membership: which transport rooms each live
 * socket is in. `socket.join`, `socket.leave` and the transport's own
 * clean-up on disconnect change it; `io.to(r)` and `socket.to(r)` read it to
 * pick the recipients of an emit. It is separate from, and can disagree with,
 * the server's own `roomUsers` registry.
 */
module Transport {
  import opened Common

  /** For each live socket, the transport rooms it is in. */
  type IoRooms = map<ConnId, set<RoomId>>

  /** `io.to(r)`: every live socket in transport room `r`. */
  function Everyone(io: IoRooms, r: RoomId): (to: set<ConnId>)
    ensures to <= io.Keys
  {
    set c | c in io && r in io[c]
  }

  /**
   * `socket.to(r)`: the live sockets in transport room `r` minus every socket
   * in the transport room named after the sender's id. That room holds the
   * sender unless it has left it, and any other socket that joined it; when
   * it holds the sender alone, the recipients are room `r` without the sender.
   */
  function Others(io: IoRooms, r: RoomId, sender: ConnId): (to: set<ConnId>)
    ensures to <= Everyone(io, r)
    ensures sender in io && sender in io[sender] ==> sender !in to
  {
    Everyone(io, r) - Everyone(io, sender)
  }

  /** When the room named after the sender holds the sender alone, `socket.to(r)` is room `r` without the sender. */
  lemma SenderAlone(io: IoRooms, r: RoomId, sender: ConnId)
    requires Everyone(io, sender) == {sender}
    ensures Others(io, r, sender) == Everyone(io, r) - {sender}
  {
  }

  /** A new socket starts in the transport room named after its own id, and in no other. */
  function Connect(io: IoRooms, id: ConnId): (io': IoRooms)
    requires id !in io
    ensures io'.Keys == io.Keys + {id}
    ensures Everyone(io', id) == Everyone(io, id) + {id}
  {
    var io' := io[id := {id}];
    assert Everyone(io', id) == Everyone(io, id) + {id};
    io'
  }

  /** `socket.join(r)`: the socket becomes a recipient of room `r` and of nothing else new. */
  function Enter(io: IoRooms, id: ConnId, r: RoomId): (io': IoRooms)
    requires id in io
    ensures io'.Keys == io.Keys
    ensures Everyone(io', r) == Everyone(io, r) + {id}
  {
    var io' := io[id := io[id] + {r}];
    assert Everyone(io', r) == Everyone(io, r) + {id};
    io'
  }

  /** `socket.leave(r)`: the socket stops receiving room `r`; other rooms are as before. */
  function Exit(io: IoRooms, id: ConnId, r: RoomId): (io': IoRooms)
    requires id in io
    ensures io'.Keys == io.Keys
    ensures Everyone(io', r) == Everyone(io, r) - {id}
  {
    var io' := io[id := io[id] - {r}];
    assert Everyone(io', r) == Everyone(io, r) - {id};
    io'
  }

  /**
   * A disconnecting socket leaves every transport room at once, before the
   * server's `disconnect` handler runs.
   */
  function Drop(io: IoRooms, id: ConnId): (io': IoRooms)
    ensures io'.Keys == io.Keys - {id}
  {
    io - {id}
  }

  /** Connecting, joining or leaving room `r` changes no other room's recipients. */
  lemma OtherRoomsKeepRecipients(io: IoRooms, id: ConnId, r: RoomId, q: RoomId)
    requires id in io && q != r
    ensures Everyone(Enter(io, id, r), q) == Everyone(io, q)
    ensures Everyone(Exit(io, id, r), q) == Everyone(io, q)
  {
  }

  /** A new socket is a recipient of its own room only. */
  lemma ConnectTouchesOwnRoomOnly(io: IoRooms, id: ConnId, q: RoomId)
    requires id !in io && q != id
    ensures Everyone(Connect(io, id), q) == Everyone(io, q)
  {
  }

  /** A disconnected socket is no longer a recipient of any room; the others stay. */
  lemma DropEverywhere(io: IoRooms, id: ConnId, q: RoomId)
    ensures Everyone(Drop(io, id), q) == Everyone(io, q) - {id}
  {
  }
}
