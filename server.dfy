/**
 * The socket server of server.js: the `roomUsers` registry, each socket's
 * `currentRoom`, the transport's rooms, the `files` rows and everything the
 * handlers emit. Each `socket.on(...)` handler is one method of `Server`.
 */
module RoomServer {
  import opened Common
  import opened Registry
  import opened Transport
  import opened Protocol

  /**
   * Every live socket in a transport room (other than the room named after its
   * own id) is listed in the registry under that room. The converse fails: the
   * registry keeps ids whose sockets have gone, see `PresenceOverCounts`.
   */
  ghost predicate Listed(io: IoRooms, reg: Rooms)
  {
    forall c, r :: InRoom(io, c, r) && r != c ==> c in Members(reg, r)
  }

  /** Socket `c` is live and in transport room `r`. */
  ghost predicate InRoom(io: IoRooms, c: ConnId, r: RoomId)
  {
    c in io && r in io[c]
  }

  /**
   * The room the `disconnect` handler cleans: the socket's `currentRoom`, when
   * it is set, non-empty (the handler tests its truthiness) and still has a
   * registry entry.
   */
  function CleanupRoom(cur: map<ConnId, RoomId>, reg: Rooms, id: ConnId): (room: Option<RoomId>)
    ensures room.Some? <==> id in cur && cur[id] != "" && cur[id] in reg
    ensures room.Some? ==> room.value == cur[id]
  {
    if id in cur && Truthy(cur[id]) && cur[id] in reg then Some(cur[id]) else None
  }

  /** The registry after a disconnect: `id` leaves its current room, if it is cleaned. */
  function AfterDisconnect(reg: Rooms, cur: map<ConnId, RoomId>, id: ConnId): (reg': Rooms)
    ensures CleanupRoom(cur, reg, id).Some? ==> id !in Members(reg', cur[id])
    ensures NoEmptyRooms(reg) ==> NoEmptyRooms(reg')
  {
    match CleanupRoom(cur, reg, id)
    case None => reg
    case Some(r) => Leave(reg, id, r)
  }

  /**
   * A disconnect cleans one room at most: every room other than the cleaned
   * current room, including one the socket joined earlier and never left,
   * keeps its members.
   */
  lemma DisconnectCleansCurrentRoomOnly(reg: Rooms, cur: map<ConnId, RoomId>, id: ConnId, q: RoomId)
    requires CleanupRoom(cur, reg, id) != Some(q)
    ensures q in AfterDisconnect(reg, cur, id) <==> q in reg
    ensures Members(AfterDisconnect(reg, cur, id), q) == Members(reg, q)
  {
    match CleanupRoom(cur, reg, id)
    case None =>
    case Some(r) => OtherRoomsUntouched(reg, id, r, q);
  }

  /** `join-room` keeps every live transport member listed in the registry. */
  lemma JoinKeepsListed(io: IoRooms, reg: Rooms, id: ConnId, r: RoomId)
    requires id in io && Listed(io, reg)
    ensures Listed(Enter(io, id, r), Join(reg, id, r))
  {
    var io', reg' := Enter(io, id, r), Join(reg, id, r);
    forall c, q | InRoom(io', c, q) && q != c
      ensures c in Members(reg', q)
    {
      if q != r {
        assert InRoom(io, c, q);
        OtherRoomsUntouched(reg, id, r, q);
      } else if c != id {
        assert InRoom(io, c, q);
        assert c in Members(reg, r);
      }
    }
  }

  /**
   * `leave-room` keeps every live transport member listed: the leaver leaves
   * both, and a room still holding a live member is not deleted.
   */
  lemma LeaveKeepsListed(io: IoRooms, reg: Rooms, id: ConnId, r: RoomId)
    requires id in io && Listed(io, reg)
    ensures Listed(Exit(io, id, r), Leave(reg, id, r))
  {
    var io', reg' := Exit(io, id, r), Leave(reg, id, r);
    forall c, q | InRoom(io', c, q) && q != c
      ensures c in Members(reg', q)
    {
      assert InRoom(io, c, q);
      if q != r {
        OtherRoomsUntouched(reg, id, r, q);
      }
    }
  }

  /** A disconnect keeps every remaining live transport member listed. */
  lemma DisconnectKeepsListed(io: IoRooms, reg: Rooms, cur: map<ConnId, RoomId>, id: ConnId)
    requires Listed(io, reg)
    ensures Listed(Drop(io, id), AfterDisconnect(reg, cur, id))
  {
    var io', reg' := Drop(io, id), AfterDisconnect(reg, cur, id);
    forall c, q | InRoom(io', c, q) && q != c
      ensures c in Members(reg', q)
    {
      if CleanupRoom(cur, reg, id) != Some(q) {
        DisconnectCleansCurrentRoomOnly(reg, cur, id, q);
      }
    }
  }

  /** A subset is no larger than its superset. */
  lemma {:induction false} SubsetNoLarger(a: set<ConnId>, b: set<ConnId>)
    requires a <= b
    ensures |a| <= |b|
    decreases |b|
  {
    if a != {} {
      var x :| x in a;
      SubsetNoLarger(a - {x}, b - {x});
    }
  }

  /**
   * The presence count never under-reports: every live socket in a room's
   * transport room is counted in the registry's number for that room.
   */
  lemma LiveMembersCounted(io: IoRooms, reg: Rooms, r: RoomId)
    requires Listed(io, reg)
    ensures |Everyone(io, r) - {r}| <= Count(reg, r)
  {
    assert forall c :: c in Everyone(io, r) ==> InRoom(io, c, r);
    assert Everyone(io, r) - {r} <= Members(reg, r);
    SubsetNoLarger(Everyone(io, r) - {r}, Members(reg, r));
  }

  /**
   * It can over-report. A socket listed in room `r` that disconnects while `r`
   * is not the room the handler cleans (it made another room current without
   * leaving `r`, or its current room is "" or has no entry) stays listed in
   * `r`: right after the disconnect it receives nothing there, yet the
   * registry counts it. `DepartedStayListed` and `DepartedOverCount` carry
   * this to every later state.
   */
  lemma PresenceOverCounts(io: IoRooms, reg: Rooms, cur: map<ConnId, RoomId>, id: ConnId, r: RoomId)
    requires Listed(io, reg)
    requires id in Members(reg, r)
    requires CleanupRoom(cur, reg, id) != Some(r)
    ensures id in Members(AfterDisconnect(reg, cur, id), r)
    ensures id !in Everyone(Drop(io, id), r)
    ensures |Everyone(Drop(io, id), r) - {r}| < Count(AfterDisconnect(reg, cur, id), r)
  {
    var io', reg' := Drop(io, id), AfterDisconnect(reg, cur, id);
    DisconnectKeepsListed(io, reg, cur, id);
    DisconnectCleansCurrentRoomOnly(reg, cur, id, r);
    assert forall c :: c in Everyone(io', r) ==> InRoom(io', c, r);
    assert Everyone(io', r) - {r} <= Members(reg', r) - {id};
    SubsetNoLarger(Everyone(io', r) - {r}, Members(reg', r) - {id});
  }

  /**
   * Every id of `departed` listed in some room before is still listed there
   * after. No handler removes an id other than its own socket's.
   */
  ghost predicate DepartedStayListed(reg: Rooms, reg': Rooms, departed: set<ConnId>)
  {
    forall d, q :: d in departed && d in Members(reg, q) ==> d in Members(reg', q)
  }

  /**
   * A departed id still listed in room `r` makes the room's count exceed its
   * live sockets, in any state where the live sockets are listed.
   */
  lemma DepartedOverCount(io: IoRooms, reg: Rooms, d: ConnId, r: RoomId)
    requires Listed(io, reg)
    requires d in Members(reg, r) && d !in io
    ensures |Everyone(io, r) - {r}| < Count(reg, r)
  {
    assert forall c :: c in Everyone(io, r) ==> InRoom(io, c, r);
    assert Everyone(io, r) - {r} <= Members(reg, r) - {d};
    SubsetNoLarger(Everyone(io, r) - {r}, Members(reg, r) - {d});
  }

  /** Joining keeps every other id listed where it was. */
  lemma JoinKeepsDeparted(reg: Rooms, id: ConnId, r: RoomId, departed: set<ConnId>)
    requires id !in departed
    ensures DepartedStayListed(reg, Join(reg, id, r), departed)
  {
    forall d, q | d in departed && d in Members(reg, q)
      ensures d in Members(Join(reg, id, r), q)
    {
      OtherIdsStay(reg, id, r, d, q);
    }
  }

  /** Leaving keeps every other id listed where it was. */
  lemma LeaveKeepsDeparted(reg: Rooms, id: ConnId, r: RoomId, departed: set<ConnId>)
    requires id !in departed
    ensures DepartedStayListed(reg, Leave(reg, id, r), departed)
  {
    forall d, q | d in departed && d in Members(reg, q)
      ensures d in Members(Leave(reg, id, r), q)
    {
      OtherIdsStay(reg, id, r, d, q);
    }
  }

  /** A disconnect keeps every other id listed where it was. */
  lemma DisconnectKeepsDeparted(reg: Rooms, cur: map<ConnId, RoomId>, id: ConnId, departed: set<ConnId>)
    requires id !in departed
    ensures DepartedStayListed(reg, AfterDisconnect(reg, cur, id), departed)
  {
    match CleanupRoom(cur, reg, id)
    case None =>
    case Some(r) => LeaveKeepsDeparted(reg, id, r, departed);
  }

  class Server {
    /** `roomUsers`: room key to the ids the server lists in it. */
    var roomUsers: Rooms
    /** `socket.currentRoom` of each live socket that has joined a room. */
    var currentRoom: map<ConnId, RoomId>
    /** The transport rooms of each live socket. */
    var ioRooms: IoRooms
    /** The `files` rows. */
    var store: Store
    /** Every emit so far, oldest first. */
    var log: seq<Message>
    /**
     * Every socket id that has ever connected; socket.io never reuses one.
     * The departed sockets are `seen - ioRooms.Keys`.
     */
    ghost var seen: set<ConnId>

    ghost predicate Valid()
      reads this
    {
      && NoEmptyRooms(roomUsers)
      && Listed(ioRooms, roomUsers)
      && currentRoom.Keys <= ioRooms.Keys
      && ioRooms.Keys <= seen
    }

    /** A server with no sockets over the given `files` rows. */
    constructor (rows: Store)
      ensures Valid()
      ensures roomUsers == map[] && currentRoom == map[] && ioRooms == map[]
      ensures store == rows && log == [] && seen == {}
    {
      roomUsers, currentRoom, ioRooms := map[], map[], map[];
      store, log, seen := rows, [], {};
    }

    /** `io.on('connection')`: a new socket with a fresh id and no current room. */
    method Connect(id: ConnId)
      requires Valid() && id !in seen
      modifies this`ioRooms, this`seen
      ensures Valid()
      ensures seen == old(seen) + {id} && seen - ioRooms.Keys == old(seen - ioRooms.Keys)
      ensures ioRooms == Transport.Connect(old(ioRooms), id)
      ensures roomUsers == old(roomUsers) && currentRoom == old(currentRoom)
      ensures store == old(store) && log == old(log)
    {
      ioRooms, seen := ioRooms[id := {id}], seen + {id};
      assert ioRooms == Transport.Connect(old(ioRooms), id);
    }

    /**
     * `join-room`: join transport room `r`, make it the current room, add the
     * id to the registry, then tell the others who joined and everyone the new
     * count (which includes the sender).
     */
    method JoinRoom(id: ConnId, r: RoomId, now: Timestamp)
      requires Valid() && id in ioRooms
      modifies this`ioRooms, this`currentRoom, this`roomUsers, this`log
      ensures Valid()
      ensures ioRooms == Enter(old(ioRooms), id, r)
      ensures currentRoom == old(currentRoom)[id := r]
      ensures roomUsers == Join(old(roomUsers), id, r)
      ensures seen == old(seen) && DepartedStayListed(old(roomUsers), roomUsers, old(seen - ioRooms.Keys))
      ensures store == old(store)
      ensures log == old(log) + [Emit(Others(ioRooms, r, id), UserJoined(id, now, Count(roomUsers, r))),
                                 Emit(Everyone(ioRooms, r), UsersCount(Count(roomUsers, r)))]
      ensures id in log[|log| - 1].to
    {
      JoinKeepsListed(ioRooms, roomUsers, id, r);
      JoinKeepsDeparted(roomUsers, id, r, seen - ioRooms.Keys);
      var io := ioRooms[id := ioRooms[id] + {r}];
      var members := if r in roomUsers then roomUsers[r] else {};
      var n := |members + {id}|;
      ioRooms, currentRoom, roomUsers := io, currentRoom[id := r], roomUsers[r := members + {id}];
      log := log + [Emit(Others(io, r, id), UserJoined(id, now, n)), Emit(Everyone(io, r), UsersCount(n))];
    }

    /**
     * `leave-room`: leave transport room `r` and the registry's room `r`,
     * deleting the entry once it is empty; `currentRoom` is left as it was.
     * The others hear who left with the remaining count (0 once deleted);
     * `users-count` goes out only while the room still has an entry.
     */
    method LeaveRoom(id: ConnId, r: RoomId, now: Timestamp)
      requires Valid() && id in ioRooms
      modifies this`ioRooms, this`roomUsers, this`log
      ensures Valid()
      ensures ioRooms == Exit(old(ioRooms), id, r)
      ensures currentRoom == old(currentRoom)
      ensures roomUsers == Leave(old(roomUsers), id, r)
      ensures seen == old(seen) && DepartedStayListed(old(roomUsers), roomUsers, old(seen - ioRooms.Keys))
      ensures store == old(store)
      ensures log == old(log) + [Emit(Others(ioRooms, r, id), UserLeft(id, now, Count(roomUsers, r)))]
                              + (if r in roomUsers then [Emit(Everyone(ioRooms, r), UsersCount(Count(roomUsers, r)))] else [])
    {
      LeaveKeepsListed(ioRooms, roomUsers, id, r);
      LeaveKeepsDeparted(roomUsers, id, r, seen - ioRooms.Keys);
      var io := ioRooms[id := ioRooms[id] - {r}];
      var reg := roomUsers;
      if r in reg {
        var rest := reg[r] - {id};
        reg := if |rest| == 0 then reg - {r} else reg[r := rest];
      }
      ioRooms, roomUsers := io, reg;
      var remaining := if r in reg then |reg[r]| else 0;
      log := log + [Emit(Others(io, r, id), UserLeft(id, now, remaining))]
                 + (if r in reg then [Emit(Everyone(io, r), UsersCount(|reg[r]|))] else []);
    }

    /**
     * `content-change`: write content and title to the row `fileId`, then relay
     * `content-updated` to the room except the sender, whether or not a row
     * matched. When the write throws (`fault` holds its message) nothing is
     * written or relayed and only the sender gets an `error` event.
     */
    method ContentChange(id: ConnId, fileId: FileId, content: string, roomId: RoomId, title: string,
                         now: Timestamp, fault: Option<string>)
      requires Valid() && id in ioRooms
      modifies this`store, this`log
      ensures Valid()
      ensures roomUsers == old(roomUsers) && currentRoom == old(currentRoom) && ioRooms == old(ioRooms)
      ensures seen == old(seen)
      ensures fault.None? ==> store == Update(old(store), fileId, content, title, now)
      ensures fault.None? ==> log == old(log) + [Emit(Others(ioRooms, roomId, id), ContentUpdated(fileId, content, title, id, now))]
      ensures fault.Some? ==> store == old(store)
      ensures fault.Some? ==> log == old(log) + [Emit({id}, SaveError(SaveFailed, fault.value))]
    {
      match fault
      case None =>
        if fileId in store {
          store := store[fileId := Doc(content, title, now)];
        }
        log := log + [Emit(Others(ioRooms, roomId, id), ContentUpdated(fileId, content, title, id, now))];
      case Some(message) =>
        log := log + [Emit({id}, SaveError(SaveFailed, message))];
    }

    /** `cursor-position`: relay position and selection to the room except the sender. */
    method CursorPosition(id: ConnId, roomId: RoomId, position: Blob, selection: Blob, now: Timestamp)
      requires Valid() && id in ioRooms
      modifies this`log
      ensures Valid()
      ensures log == old(log) + [Emit(Others(ioRooms, roomId, id), CursorUpdated(position, selection, id, now))]
    {
      log := log + [Emit(Others(ioRooms, roomId, id), CursorUpdated(position, selection, id, now))];
    }

    /** `typing-start`: tell the room except the sender that the sender is typing. */
    method TypingStart(id: ConnId, roomId: RoomId, now: Timestamp)
      requires Valid() && id in ioRooms
      modifies this`log
      ensures Valid()
      ensures log == old(log) + [Emit(Others(ioRooms, roomId, id), UserTyping(id, true, now))]
    {
      log := log + [Emit(Others(ioRooms, roomId, id), UserTyping(id, true, now))];
    }

    /** `typing-stop`: tell the room except the sender that the sender stopped typing. */
    method TypingStop(id: ConnId, roomId: RoomId, now: Timestamp)
      requires Valid() && id in ioRooms
      modifies this`log
      ensures Valid()
      ensures log == old(log) + [Emit(Others(ioRooms, roomId, id), UserTyping(id, false, now))]
    {
      log := log + [Emit(Others(ioRooms, roomId, id), UserTyping(id, false, now))];
    }

    /** `ping`: answer `pong` to the sender alone. */
    method Ping(id: ConnId)
      requires Valid() && id in ioRooms
      modifies this`log
      ensures Valid()
      ensures log == old(log) + [Emit({id}, Pong)]
    {
      log := log + [Emit({id}, Pong)];
    }

    /**
     * `disconnect`: the transport has already taken the socket out of all its
     * rooms. The handler then cleans the registry for the current room only:
     * it removes the id, sends `user-left` and `users-count` with the remaining
     * count even when that is 0, and deletes the room if it is empty. Rooms the
     * socket joined earlier without leaving still list it.
     */
    method Disconnect(id: ConnId, now: Timestamp)
      requires Valid() && id in ioRooms
      modifies this`ioRooms, this`currentRoom, this`roomUsers, this`log
      ensures Valid()
      ensures ioRooms == Drop(old(ioRooms), id)
      ensures currentRoom == old(currentRoom) - {id}
      ensures roomUsers == AfterDisconnect(old(roomUsers), old(currentRoom), id)
      ensures seen == old(seen) && seen - ioRooms.Keys == old(seen - ioRooms.Keys) + {id}
      ensures DepartedStayListed(old(roomUsers), roomUsers, old(seen - ioRooms.Keys))
      ensures store == old(store)
      ensures log == old(log) + match CleanupRoom(old(currentRoom), old(roomUsers), id)
                                case None => []
                                case Some(r) =>
                                  var n := Count(roomUsers, r);
                                  [Emit(Others(ioRooms, r, id), UserLeft(id, now, n)),
                                   Emit(Everyone(ioRooms, r), UsersCount(n))]
    {
      DisconnectKeepsListed(ioRooms, roomUsers, currentRoom, id);
      var io := ioRooms - {id};
      var reg := roomUsers;
      var sent := [];
      if id in currentRoom && Truthy(currentRoom[id]) && currentRoom[id] in reg {
        var r := currentRoom[id];
        var rest := reg[r] - {id};
        sent := [Emit(Others(io, r, id), UserLeft(id, now, |rest|)), Emit(Everyone(io, r), UsersCount(|rest|))];
        reg := if |rest| == 0 then reg - {r} else reg[r := rest];
        assert CleanupRoom(currentRoom, roomUsers, id) == Some(r) && Count(reg, r) == |rest|;
      }
      assert reg == AfterDisconnect(roomUsers, currentRoom, id);
      ioRooms, currentRoom, roomUsers, log := io, currentRoom - {id}, reg, log + sent;
      DisconnectKeepsDeparted(old(roomUsers), old(currentRoom), id, old(seen - ioRooms.Keys));
    }
  }
}

/** Runs of the handlers on small, concrete inputs. */
module RoomServerScenarios {
  import opened Common
  import opened Registry
  import opened Transport
  import opened Protocol
  import opened RoomServer

  /** Sockets A, B and C connect; the row "x" exists. */
  method ThreeSockets(now: Timestamp) returns (server: Server)
    ensures fresh(server) && server.Valid()
    ensures "A" in server.ioRooms && "B" in server.ioRooms && "C" in server.ioRooms
    ensures Everyone(server.ioRooms, "demo") == {} && Everyone(server.ioRooms, "A") == {"A"}
    ensures server.store == map["x" := Doc("", "Untitled Document", now)]
  {
    server := new Server(map["x" := Doc("", "Untitled Document", now)]);
    assert Everyone(server.ioRooms, "demo") == {} && Everyone(server.ioRooms, "A") == {};
    ghost var io := server.ioRooms;
    server.Connect("A");
    ConnectTouchesOwnRoomOnly(io, "A", "demo");
    io := server.ioRooms;
    server.Connect("B");
    ConnectTouchesOwnRoomOnly(io, "B", "demo");
    ConnectTouchesOwnRoomOnly(io, "B", "A");
    io := server.ioRooms;
    server.Connect("C");
    ConnectTouchesOwnRoomOnly(io, "C", "demo");
    ConnectTouchesOwnRoomOnly(io, "C", "A");
  }

  /** Sockets A and B join room "demo"; C is connected but not in it. */
  method TwoInDemo(now: Timestamp) returns (server: Server)
    ensures fresh(server) && server.Valid()
    ensures "A" in server.ioRooms && "B" in server.ioRooms && "C" in server.ioRooms
    ensures Everyone(server.ioRooms, "demo") == {"A", "B"} && Everyone(server.ioRooms, "A") == {"A"}
    ensures server.store == map["x" := Doc("", "Untitled Document", now)]
  {
    server := ThreeSockets(now);
    ghost var io := server.ioRooms;
    server.JoinRoom("A", "demo", now);
    OtherRoomsKeepRecipients(io, "A", "demo", "A");
    io := server.ioRooms;
    server.JoinRoom("B", "demo", now);
    OtherRoomsKeepRecipients(io, "B", "demo", "A");
  }

  /** Sockets A, B and C join room "demo"; only A is in the room named "A". */
  method DemoRoom(now: Timestamp) returns (server: Server)
    ensures fresh(server) && server.Valid()
    ensures "A" in server.ioRooms && "B" in server.ioRooms
    ensures Everyone(server.ioRooms, "demo") == {"A", "B", "C"} && Everyone(server.ioRooms, "A") == {"A"}
    ensures server.store == map["x" := Doc("", "Untitled Document", now)]
  {
    server := TwoInDemo(now);
    ghost var io := server.ioRooms;
    server.JoinRoom("C", "demo", now);
    OtherRoomsKeepRecipients(io, "C", "demo", "A");
  }

  /**
   * Three sockets A, B and C join room "demo" and A changes file "x": exactly
   * B and C receive `content-updated` carrying A's content, title and id, and
   * the row for "x" holds the new content.
   */
  method EditReachesOthers(now: Timestamp) returns (update: Message, stored: Doc)
    ensures update == Emit({"B", "C"}, ContentUpdated("x", "hello", "T", "A", now))
    ensures |update.to| == 2
    ensures stored == Doc("hello", "T", now)
  {
    var server := DemoRoom(now);
    server.ContentChange("A", "x", "hello", "demo", "T", now, None);
    update := server.log[|server.log| - 1];
    stored := server.store["x"];
  }

  /**
   * A failing write: the sender alone receives one `error` event, and the row
   * is unchanged.
   */
  method FailedWriteReportsToSender(now: Timestamp) returns (reply: Message, stored: Doc, sent: nat)
    ensures reply == Message({"A"}, "error", SaveError("Failed to save content", "connection refused"))
    ensures sent == 1
    ensures stored == Doc("", "Untitled Document", now)
  {
    var server := DemoRoom(now);
    var before := |server.log|;
    server.ContentChange("A", "x", "hello", "demo", "T", now, Some("connection refused"));
    sent := |server.log| - before;
    reply := server.log[|server.log| - 1];
    stored := server.store["x"];
  }

  /** In the "demo" room of A, B and C, B also joins the room named after A's id. */
  method PeerInSenderRoom(now: Timestamp) returns (server: Server)
    ensures fresh(server) && server.Valid()
    ensures "A" in server.ioRooms
    ensures Everyone(server.ioRooms, "demo") == {"A", "B", "C"} && Everyone(server.ioRooms, "A") == {"A", "B"}
  {
    server := DemoRoom(now);
    ghost var io := server.ioRooms;
    server.JoinRoom("B", "A", now);
    OtherRoomsKeepRecipients(io, "B", "A", "demo");
  }

  /**
   * `socket.to` leaves out the whole room named after the sender's id: once B
   * has joined it, A's change in "demo" reaches C alone.
   */
  method IdRoomHidesPeer(now: Timestamp) returns (update: Message)
    ensures update == Emit({"C"}, ContentUpdated("x", "hello", "T", "A", now))
  {
    var server := PeerInSenderRoom(now);
    server.ContentChange("A", "x", "hello", "demo", "T", now, None);
    update := server.log[|server.log| - 1];
  }

  /** Sockets A and B connect; nobody has joined anything yet, and C never connected. */
  method TwoSockets(now: Timestamp) returns (server: Server)
    ensures fresh(server) && server.Valid()
    ensures "A" in server.ioRooms && "B" in server.ioRooms && "C" !in server.seen
    ensures server.roomUsers == map[] && Everyone(server.ioRooms, "r1") == {} && Everyone(server.ioRooms, "C") == {}
  {
    server := new Server(map[]);
    assert Everyone(server.ioRooms, "r1") == {} && Everyone(server.ioRooms, "C") == {};
    ghost var io := server.ioRooms;
    server.Connect("A");
    ConnectTouchesOwnRoomOnly(io, "A", "r1");
    ConnectTouchesOwnRoomOnly(io, "A", "C");
    io := server.ioRooms;
    server.Connect("B");
    ConnectTouchesOwnRoomOnly(io, "B", "r1");
    ConnectTouchesOwnRoomOnly(io, "B", "C");
  }

  /** Sockets A and B both join "r1". */
  method BothInRoom(now: Timestamp) returns (server: Server)
    ensures fresh(server) && server.Valid()
    ensures "A" in server.ioRooms && "C" !in server.seen && Everyone(server.ioRooms, "C") == {}
    ensures Members(server.roomUsers, "r1") == {"A", "B"} && Everyone(server.ioRooms, "r1") == {"A", "B"}
  {
    server := TwoSockets(now);
    ghost var io := server.ioRooms;
    server.JoinRoom("A", "r1", now);
    OtherRoomsKeepRecipients(io, "A", "r1", "C");
    io := server.ioRooms;
    server.JoinRoom("B", "r1", now);
    OtherRoomsKeepRecipients(io, "B", "r1", "C");
  }

  /** Sockets A and B are in "r1", and A has made "r2" current without leaving "r1". */
  method MovedOn(now: Timestamp) returns (server: Server)
    ensures fresh(server) && server.Valid()
    ensures "A" in server.ioRooms && "C" !in server.seen && Everyone(server.ioRooms, "C") == {}
    ensures Members(server.roomUsers, "r1") == {"A", "B"} && Everyone(server.ioRooms, "r1") == {"A", "B"}
    ensures "A" in server.currentRoom && server.currentRoom["A"] == "r2"
  {
    server := BothInRoom(now);
    ghost var io, reg := server.ioRooms, server.roomUsers;
    server.JoinRoom("A", "r2", now);
    OtherRoomsKeepRecipients(io, "A", "r2", "r1");
    OtherRoomsKeepRecipients(io, "A", "r2", "C");
    OtherRoomsUntouched(reg, "A", "r2", "r1");
  }

  /**
   * Sockets A and B join "r1", A then joins "r2" without leaving "r1", and A
   * disconnects: the registry still lists A in "r1", the transport does not.
   */
  method AbandonedRoom(now: Timestamp) returns (server: Server)
    ensures fresh(server) && server.Valid()
    ensures "C" !in server.seen && Everyone(server.ioRooms, "C") == {} && "A" in server.seen - server.ioRooms.Keys
    ensures Members(server.roomUsers, "r1") == {"A", "B"}
    ensures Everyone(server.ioRooms, "r1") == {"B"}
  {
    server := MovedOn(now);
    ghost var io, reg, cur := server.ioRooms, server.roomUsers, server.currentRoom;
    server.Disconnect("A", now);
    DropEverywhere(io, "A", "r1");
    DropEverywhere(io, "A", "C");
    DisconnectCleansCurrentRoomOnly(reg, cur, "A", "r1");
  }

  /** After `AbandonedRoom`, a new socket C joins "r1". */
  method LateJoiner(now: Timestamp) returns (server: Server)
    ensures fresh(server) && server.Valid()
    ensures Others(server.ioRooms, "r1", "C") == {"B"}
    ensures Count(server.roomUsers, "r1") == 3
    ensures |server.log| >= 2
    ensures server.log[|server.log| - 2]
         == Emit(Others(server.ioRooms, "r1", "C"), UserJoined("C", now, Count(server.roomUsers, "r1")))
  {
    server := AbandonedRoom(now);
    ghost var io := server.ioRooms;
    server.Connect("C");
    ConnectTouchesOwnRoomOnly(io, "C", "r1");
    io := server.ioRooms;
    server.JoinRoom("C", "r1", now);
    OtherRoomsKeepRecipients(io, "C", "r1", "C");
    assert Members(server.roomUsers, "r1") == {"A", "B", "C"};
  }

  /**
   * When C joins the room A abandoned, only B hears of it, yet `totalUsers` is
   * 3: the registry still counts the departed A.
   */
  method StaleMemberInflatesCount(now: Timestamp) returns (notice: Message)
    ensures notice == Emit({"B"}, UserJoined("C", now, 3))
  {
    var server := LateJoiner(now);
    notice := server.log[|server.log| - 2];
  }
}
