/**
 * The room registry of server.js: the process-wide `roomUsers` Map from a
 * room key to the Set of connection ids the server believes are in it.
 * The functions below give the registry's value after each kind of update;
 * the handlers of `RoomServer.Server` are proved to produce exactly these.
 */
module Registry {
  import opened Common

  type Rooms = map<RoomId, set<ConnId>>

  /** The members of room `r`; a room without an entry has none. */
  function Members(reg: Rooms, r: RoomId): set<ConnId>
  {
    if r in reg then reg[r] else {}
  }

  /** `membershipCount(r)`: the size of the room's set, 0 when there is no entry. */
  function Count(reg: Rooms, r: RoomId): (n: nat)
    ensures r !in reg ==> n == 0
    ensures n == 0 ==> r !in reg || reg[r] == {}
  {
    |Members(reg, r)|
  }

  /** Every entry holds a non-empty set: an empty room has been deleted. */
  ghost predicate NoEmptyRooms(reg: Rooms)
  {
    forall r :: r in reg ==> reg[r] != {}
  }

  /**
   * `join-room`: create the room's set if absent, then add `id`. Only room `r`
   * changes; re-joining does not change the count, since membership is a set.
   */
  function Join(reg: Rooms, id: ConnId, r: RoomId): (reg': Rooms)
    ensures r in reg' && id in reg'[r]
    ensures Members(reg, r) <= Members(reg', r)
    ensures Count(reg', r) == if id in Members(reg, r) then Count(reg, r) else Count(reg, r) + 1
    ensures reg'.Keys == reg.Keys + {r}
    ensures NoEmptyRooms(reg) ==> NoEmptyRooms(reg')
  {
    var s := Members(reg, r);
    assert id in s ==> s + {id} == s;
    assert id !in s ==> |s + {id}| == |s| + 1;
    reg[r := s + {id}]
  }

  /**
   * `leave-room`: when room `r` has an entry, remove `id` from it and delete
   * the entry once it is empty; with no entry the registry is unchanged.
   * Only room `r` changes.
   */
  function Leave(reg: Rooms, id: ConnId, r: RoomId): (reg': Rooms)
    ensures Members(reg', r) == Members(reg, r) - {id}
    ensures r in reg' <==> Members(reg, r) - {id} != {}
    ensures r !in reg ==> reg' == reg
    ensures Count(reg', r) == if id in Members(reg, r) then Count(reg, r) - 1 else Count(reg, r)
    ensures NoEmptyRooms(reg) ==> NoEmptyRooms(reg')
  {
    if r !in reg then reg
    else
      var s := reg[r] - {id};
      assert id in reg[r] ==> |s| == |reg[r]| - 1;
      if s == {} then reg - {r} else reg[r := s]
  }

  /** `join-room` and `leave-room` on room `r` leave every other room as it was. */
  lemma OtherRoomsUntouched(reg: Rooms, id: ConnId, r: RoomId, q: RoomId)
    requires q != r
    ensures (q in Join(reg, id, r) <==> q in reg) && Members(Join(reg, id, r), q) == Members(reg, q)
    ensures (q in Leave(reg, id, r) <==> q in reg) && Members(Leave(reg, id, r), q) == Members(reg, q)
  {
  }

  /** Joining twice is joining once. */
  lemma JoinIdempotent(reg: Rooms, id: ConnId, r: RoomId)
    ensures Join(Join(reg, id, r), id, r) == Join(reg, id, r)
  {
  }

  /** Leaving twice is leaving once. */
  lemma LeaveIdempotent(reg: Rooms, id: ConnId, r: RoomId)
    ensures Leave(Leave(reg, id, r), id, r) == Leave(reg, id, r)
  {
    if r in reg {
      var s := reg[r] - {id};
      assert s - {id} == s;
    }
  }

  /**
   * A join by a connection that was not in the room, followed by its leave,
   * restores the registry exactly: a room the join created is deleted again.
   */
  lemma LeaveUndoesJoin(reg: Rooms, id: ConnId, r: RoomId)
    requires NoEmptyRooms(reg)
    requires id !in Members(reg, r)
    ensures Leave(Join(reg, id, r), id, r) == reg
  {
    var reg' := Leave(Join(reg, id, r), id, r);
    if r in reg {
      assert reg[r] + {id} - {id} == reg[r];
    }
    forall q | q != r
      ensures (q in reg' <==> q in reg) && (q in reg ==> reg'[q] == reg[q])
    {
      OtherRoomsUntouched(reg, id, r, q);
      OtherRoomsUntouched(Join(reg, id, r), id, r, q);
    }
  }

  /** Joins and leaves by `id` never add or remove any other id, in any room. */
  lemma OtherIdsStay(reg: Rooms, id: ConnId, r: RoomId, d: ConnId, q: RoomId)
    requires d != id
    ensures d in Members(Join(reg, id, r), q) <==> d in Members(reg, q)
    ensures d in Members(Leave(reg, id, r), q) <==> d in Members(reg, q)
  {
    if q != r {
      OtherRoomsUntouched(reg, id, r, q);
    }
  }

  /** One explicit membership operation on a single room. */
  datatype Op = JoinOp(conn: ConnId) | LeaveOp(conn: ConnId)

  /** Apply one operation to room `r`. */
  function Step(reg: Rooms, r: RoomId, op: Op): Rooms
  {
    match op
    case JoinOp(c) => Join(reg, c, r)
    case LeaveOp(c) => Leave(reg, c, r)
  }

  /** Apply a sequence of join-room/leave-room operations on room `r`, in order. */
  function ApplyAll(reg: Rooms, r: RoomId, ops: seq<Op>): Rooms
  {
    if ops == [] then reg else Step(ApplyAll(reg, r, ops[..|ops| - 1]), r, ops[|ops| - 1])
  }

  /**
   * Reference definition, independent of the registry: `c` is in the room after
   * `ops` when the last operation naming `c` is a join, or, if none names it,
   * when `c` was in the room to begin with.
   */
  predicate JoinedLast(initial: set<ConnId>, ops: seq<Op>, c: ConnId)
  {
    if ops == [] then c in initial
    else if ops[|ops| - 1].conn == c then ops[|ops| - 1].JoinOp?
    else JoinedLast(initial, ops[..|ops| - 1], c)
  }

  /** The connections an operation sequence mentions. */
  function Named(ops: seq<Op>): set<ConnId>
  {
    set i | 0 <= i < |ops| :: ops[i].conn
  }

  /**
   * The room's membership after any sequence of joins and leaves is exactly the
   * set of connections whose last operation was a join.
   */
  lemma {:induction false} MembersAfterOps(reg: Rooms, r: RoomId, ops: seq<Op>, c: ConnId)
    ensures c in Members(ApplyAll(reg, r, ops), r) <==> JoinedLast(Members(reg, r), ops, c)
    decreases |ops|
  {
    if ops != [] {
      MembersAfterOps(reg, r, ops[..|ops| - 1], c);
    }
  }

  /**
   * The presence count after any sequence of joins and leaves on room `r` is
   * the number of distinct connections currently joined: re-joins are not
   * counted twice and a room emptied by leaves counts 0.
   */
  lemma CountAfterOps(reg: Rooms, r: RoomId, ops: seq<Op>)
    ensures Count(ApplyAll(reg, r, ops), r) == |CurrentlyJoined(Members(reg, r), ops)|
  {
    var after := Members(ApplyAll(reg, r, ops), r);
    var expected := CurrentlyJoined(Members(reg, r), ops);
    forall c | c in after
      ensures c in expected
    {
      MembersAfterOps(reg, r, ops, c);
      NamedOrInitial(Members(reg, r), ops, c);
    }
    forall c | c in expected
      ensures c in after
    {
      MembersAfterOps(reg, r, ops, c);
    }
    assert after == expected;
  }

  /** The connections whose last operation in `ops` is a join (or that were there and are not named). */
  function CurrentlyJoined(initial: set<ConnId>, ops: seq<Op>): set<ConnId>
  {
    set c | c in initial + Named(ops) && JoinedLast(initial, ops, c)
  }

  /** A connection in the room afterwards was there before or is named by an operation. */
  lemma {:induction false} NamedOrInitial(initial: set<ConnId>, ops: seq<Op>, c: ConnId)
    requires JoinedLast(initial, ops, c)
    ensures c in initial + Named(ops)
    decreases |ops|
  {
    if ops != [] {
      var init := ops[..|ops| - 1];
      if ops[|ops| - 1].conn == c {
        assert c == ops[|ops| - 1].conn;
      } else {
        NamedOrInitial(initial, init, c);
        if c !in initial {
          var k :| 0 <= k < |init| && init[k].conn == c;
          assert ops[k] == init[k];
        }
      }
    }
  }
}
