/**
  The relay's room registry (server.js:27-28): a map from a room id to the
  set of socket ids in it. The functions here give the registry after each
  of the three handlers that change it, `join-room` (server.js:35-40),
  `leave-room` (server.js:96-103) and `disconnect` (server.js:108-116);
  the relay's `Server` class is proved to follow them.
 */
module Rooms {

  type RoomId = string
  type SocketId = string
  type Registry = map<RoomId, set<SocketId>>

  /** The members of a room; a room not in the map has none. */
  function Members(m: Registry, r: RoomId): set<SocketId> {
    if r in m then m[r] else {}
  }

  /** `join-room`: create the room when absent, then add the socket. */
  function Join(m: Registry, r: RoomId, s: SocketId): (m': Registry)
    ensures m'.Keys == m.Keys + {r}
    ensures s in m'[r]
    ensures Members(m', r) == Members(m, r) + {s}
    ensures forall q :: q in m && q != r ==> m'[q] == m[q]
  {
    m[r := Members(m, r) + {s}]
  }

  /** `leave-room`: remove the socket from a known room, and drop the room
      once its set is empty; an unknown room leaves the map as it is. */
  function Leave(m: Registry, r: RoomId, s: SocketId): (m': Registry)
    ensures r !in m ==> m' == m
    ensures Members(m', r) == Members(m, r) - {s}
    ensures r in m' <==> Members(m, r) - {s} != {}
    ensures forall q :: q != r ==> (q in m' <==> q in m)
    ensures forall q :: q in m && q != r ==> m'[q] == m[q]
  {
    if r !in m then m
    else if m[r] - {s} == {} then m - {r}
    else m[r := m[r] - {s}]
  }

  /** The rooms a socket is in. */
  function RoomsOf(m: Registry, s: SocketId): set<RoomId> {
    set q | q in m && s in m[q]
  }

  /** `disconnect`: remove the socket from every room; rooms left empty
      stay in the map. */
  function Drop(m: Registry, s: SocketId): (m': Registry)
    ensures m'.Keys == m.Keys
  {
    map q | q in m :: m[q] - {s}
  }

  /** No room in the map has an empty member set. */
  predicate NoEmptyRoom(m: Registry) {
    forall q :: q in m ==> m[q] != {}
  }

  // ----- join-room -----

  /** Joining again changes nothing: membership is a set. */
  lemma JoinIdempotent(m: Registry, r: RoomId, s: SocketId)
    ensures Join(Join(m, r, s), r, s) == Join(m, r, s)
  {
  }

  /** Joining never leaves an empty room behind. */
  lemma JoinKeepsNoEmptyRoom(m: Registry, r: RoomId, s: SocketId)
    requires NoEmptyRoom(m)
    ensures NoEmptyRoom(Join(m, r, s))
  {
  }

  /** Nothing stops one socket from being in two rooms at once. */
  lemma TwoRoomsAtOnce(s: SocketId)
    ensures var m := Join(Join(map[], "r1", s), "r2", s);
      s in m["r1"] && s in m["r2"]
  {
  }

  // ----- leave-room -----

  /** No leak: joining a room that did not exist and then leaving it gives
      back the registry as it was. */
  lemma LeaveUndoesFirstJoin(m: Registry, r: RoomId, s: SocketId)
    requires r !in m
    ensures Leave(Join(m, r, s), r, s) == m
  {
    assert Join(m, r, s)[r] - {s} == {};
  }

  /** Leaving never leaves an empty room behind. */
  lemma LeaveKeepsNoEmptyRoom(m: Registry, r: RoomId, s: SocketId)
    requires NoEmptyRoom(m)
    ensures NoEmptyRoom(Leave(m, r, s))
  {
  }

  // ----- disconnect -----

  /** After a disconnect the socket is in no room; every other socket is
      in exactly the rooms it was in. */
  lemma DropRemovesOnlyTheSocket(m: Registry, s: SocketId, q: RoomId, p: SocketId)
    ensures s !in Members(Drop(m, s), q)
    ensures p != s ==> (p in Members(Drop(m, s), q) <==> p in Members(m, q))
    ensures RoomsOf(Drop(m, s), s) == {}
  {
  }

  /** Unlike `leave-room`, a disconnect can leave an empty room in the map:
      the only member of a room disconnects and the room stays, empty. */
  lemma DropCanLeaveEmptyRoom(r: RoomId, s: SocketId)
    ensures var m := map[r := {s}];
      NoEmptyRoom(m) && r in Drop(m, s) && Drop(m, s)[r] == {}
  {
    var m := map[r := {s}];
    assert m[r] - {s} == {};
  }

  // ----- any sequence of handler calls -----

  /** One call of a handler that changes the registry. */
  datatype Op = JoinRoom(room: RoomId, socket: SocketId)
              | LeaveRoom(room: RoomId, socket: SocketId)
              | Disconnect(socket: SocketId)

  function Step(m: Registry, op: Op): Registry {
    match op
    case JoinRoom(r, s) => Join(m, r, s)
    case LeaveRoom(r, s) => Leave(m, r, s)
    case Disconnect(s) => Drop(m, s)
  }

  /** The registry after the calls `ops`, in order, from server start. */
  function Replay(ops: seq<Op>): Registry
    decreases |ops|
  {
    if ops == [] then map[] else Step(Replay(ops[..|ops| - 1]), ops[|ops| - 1])
  }

  /** Whether socket `s` has joined room `r` and has not left it or
      disconnected since: decided by the last call that concerns the pair. */
  function Joined(ops: seq<Op>, r: RoomId, s: SocketId): bool
    decreases |ops|
  {
    if ops == [] then false
    else
      match ops[|ops| - 1]
      case JoinRoom(r', s') => if r' == r && s' == s then true else Joined(ops[..|ops| - 1], r, s)
      case LeaveRoom(r', s') => if r' == r && s' == s then false else Joined(ops[..|ops| - 1], r, s)
      case Disconnect(s') => if s' == s then false else Joined(ops[..|ops| - 1], r, s)
  }

  /** For every sequence of joins, leaves and disconnects, a room's members
      are exactly the sockets that joined it and have not left it or
      disconnected since. */
  lemma {:induction false} ReplayMembers(ops: seq<Op>, r: RoomId, s: SocketId)
    ensures s in Members(Replay(ops), r) <==> Joined(ops, r, s)
    decreases |ops|
  {
    if ops != [] {
      var prefix := ops[..|ops| - 1];
      ReplayMembers(prefix, r, s);
      var m := Replay(prefix);
      match ops[|ops| - 1]
      case JoinRoom(r', s') =>
        assert Members(Join(m, r', s'), r) == if r' == r then Members(m, r) + {s'} else Members(m, r);
      case LeaveRoom(r', s') =>
        assert Members(Leave(m, r', s'), r) == if r' == r then Members(m, r) - {s'} else Members(m, r);
      case Disconnect(s') =>
        assert Members(Drop(m, s'), r) == Members(m, r) - {s'};
    }
  }

  /** Without disconnects the registry never holds an empty room. */
  lemma {:induction false} JoinsAndLeavesKeepNoEmptyRoom(ops: seq<Op>)
    requires forall i :: 0 <= i < |ops| ==> !ops[i].Disconnect?
    ensures NoEmptyRoom(Replay(ops))
    decreases |ops|
  {
    if ops != [] {
      var prefix := ops[..|ops| - 1];
      JoinsAndLeavesKeepNoEmptyRoom(prefix);
      match ops[|ops| - 1]
      case JoinRoom(r, s) => JoinKeepsNoEmptyRoom(Replay(prefix), r, s);
      case LeaveRoom(r, s) => LeaveKeepsNoEmptyRoom(Replay(prefix), r, s);
    }
  }
}
