/**
  The socket handlers of the relay server (server.js:31-116). Each handler
  runs to completion before the next, so it is one atomic step; instead of
  calling socket.io, it returns the emissions it would make, in order.

  Two emission targets exist: the calling socket itself (`socket.emit`)
  and every socket of a socket.io room except the caller
  (`socket.to(room).emit`). Every socket is also alone in a socket.io room
  named by its own id, which is how `socket.to(data.to)` reaches one peer.
 */
module Relay {
  import opened Wrappers
  import opened Todos
  import opened Rooms

  /** A negotiation payload (offer, answer or ICE candidate), which the
      relay passes on without looking into it. */
  type Signal = string

  datatype Target = Caller | Room(room: RoomId)

  datatype Event =
    | PeerJoined | RoomPeers | PeerLeft
    | TodosUpdated | TodoAdded | TodoDeleted | TodoToggled
    | WebrtcOffer | WebrtcAnswer | WebrtcIceCandidate

  /** The event names on the wire. */
  function EventName(e: Event): string {
    match e
    case PeerJoined => "peer-joined"
    case RoomPeers => "room-peers"
    case PeerLeft => "peer-left"
    case TodosUpdated => "todos-updated"
    case TodoAdded => "todo-added"
    case TodoDeleted => "todo-deleted"
    case TodoToggled => "todo-toggled"
    case WebrtcOffer => "webrtc-offer"
    case WebrtcAnswer => "webrtc-answer"
    case WebrtcIceCandidate => "webrtc-ice-candidate"
  }

  /** What an emission carries. `Signed` is the `{ from, offer }`,
      `{ from, answer }` or `{ from, candidate }` object; which field name
      the signal sits under follows from the event. */
  datatype Payload =
    | Peer(id: SocketId)
    | Peers(ids: seq<SocketId>)
    | TodoList(todos: seq<Todo>)
    | OneTodo(todo: Todo)
    | TodoIdOnly(todoId: string)
    | Signed(from: SocketId, signal: Signal)

  datatype Emission = Emission(target: Target, event: Event, payload: Payload)

  /** An envelope a client sends for the relay to pass on. The todo kinds
      name a room, the negotiation kinds a target socket; none carries a
      sender. */
  datatype Envelope =
    | TodoUpdate(roomId: RoomId, todos: seq<Todo>)
    | TodoAdd(roomId: RoomId, todo: Todo)
    | TodoDelete(roomId: RoomId, todoId: string)
    | TodoToggle(roomId: RoomId, todo: Todo)
    | Offer(to: SocketId, offer: Signal)
    | Answer(to: SocketId, answer: Signal)
    | IceCandidate(to: SocketId, candidate: Signal)

  /** The event name a client sends an envelope under. */
  function EnvelopeName(env: Envelope): string {
    match env
    case TodoUpdate(_, _) => "todo-update"
    case TodoAdd(_, _) => "todo-add"
    case TodoDelete(_, _) => "todo-delete"
    case TodoToggle(_, _) => "todo-toggle"
    case Offer(_, _) => "webrtc-offer"
    case Answer(_, _) => "webrtc-answer"
    case IceCandidate(_, _) => "webrtc-ice-candidate"
  }

  predicate Directed(env: Envelope) {
    env.Offer? || env.Answer? || env.IceCandidate?
  }

  /** Where an envelope goes: its room, or its target socket. */
  function Destination(env: Envelope): RoomId {
    if Directed(env) then env.to else env.roomId
  }

  /** Reads an emission back as the envelope it was forwarded from: the
      destination is the target room and the content is the payload. */
  function Restore(e: Emission): Option<Envelope> {
    match e.target
    case Caller => None
    case Room(d) =>
      match (e.event, e.payload)
      case (TodosUpdated, TodoList(ts)) => Some(TodoUpdate(d, ts))
      case (TodoAdded, OneTodo(t)) => Some(TodoAdd(d, t))
      case (TodoDeleted, TodoIdOnly(id)) => Some(TodoDelete(d, id))
      case (TodoToggled, OneTodo(t)) => Some(TodoToggle(d, t))
      case (WebrtcOffer, Signed(_, x)) => Some(Offer(d, x))
      case (WebrtcAnswer, Signed(_, x)) => Some(Answer(d, x))
      case (WebrtcIceCandidate, Signed(_, x)) => Some(IceCandidate(d, x))
      case _ => None
  }

  /** The forwarding handlers (server.js:52-93): one emission, to the
      envelope's room or target socket, that drops the destination field,
      keeps the content, and is stamped with the caller's id exactly when
      it is a negotiation message. Todo events are renamed; negotiation
      events keep their name. */
  function Forward(caller: SocketId, env: Envelope): (e: Emission)
    ensures e.target == Room(Destination(env))
    ensures Restore(e) == Some(env)
    ensures e.payload.Signed? <==> Directed(env)
    ensures e.payload.Signed? ==> e.payload.from == caller
    ensures EventName(e.event) == EnvelopeName(env) <==> Directed(env)
  {
    match env
    case TodoUpdate(r, ts) => Emission(Room(r), TodosUpdated, TodoList(ts))
    case TodoAdd(r, t) => Emission(Room(r), TodoAdded, OneTodo(t))
    case TodoDelete(r, id) => Emission(Room(r), TodoDeleted, TodoIdOnly(id))
    case TodoToggle(r, t) => Emission(Room(r), TodoToggled, OneTodo(t))
    case Offer(to, x) => Emission(Room(to), WebrtcOffer, Signed(caller, x))
    case Answer(to, x) => Emission(Room(to), WebrtcAnswer, Signed(caller, x))
    case IceCandidate(to, x) => Emission(Room(to), WebrtcIceCandidate, Signed(caller, x))
  }

  /** Forwarding loses nothing: two envelopes from the same caller are
      forwarded alike only when they are the same envelope. */
  lemma ForwardInjective(caller: SocketId, a: Envelope, b: Envelope)
    requires Forward(caller, a) == Forward(caller, b)
    ensures a == b
  {
    assert Some(a) == Restore(Forward(caller, a)) == Restore(Forward(caller, b)) == Some(b);
  }

  /** `xs` lists the set `s`, each element once. */
  ghost predicate Lists(xs: seq<SocketId>, s: set<SocketId>) {
    (forall x :: x in xs <==> x in s)
    && forall i, j :: 0 <= i < j < |xs| ==> xs[i] != xs[j]
  }

  /** `Array.from(members).filter((id) => id !== self)` (server.js:46). */
  method OtherMembers(members: set<SocketId>, self: SocketId) returns (peers: seq<SocketId>)
    ensures Lists(peers, members - {self})
  {
    peers := [];
    var rest := members;
    while rest != {}
      invariant rest <= members
      invariant forall x :: x in peers <==> x in members - rest && x != self
      invariant forall i, j :: 0 <= i < j < |peers| ==> peers[i] != peers[j]
      decreases rest
    {
      var x :| x in rest;
      if x != self {
        assert x !in peers;
        peers := peers + [x];
      }
      rest := rest - {x};
    }
  }

  /** The notice sent to a room when `s` leaves it. */
  function LeftNotice(r: RoomId, s: SocketId): Emission {
    Emission(Room(r), PeerLeft, Peer(s))
  }

  /** `out` tells each room of `notified` once that `s` left, and
      nothing else. */
  ghost predicate NoticesTo(out: seq<Emission>, notified: set<RoomId>, s: SocketId) {
    && (forall e :: e in out ==> e.target.Room? && e == LeftNotice(e.target.room, s))
    && (forall q :: LeftNotice(q, s) in out <==> q in notified)
    && (forall i, j :: 0 <= i < j < |out| ==> out[i] != out[j])
  }

  /** One more notice, to a room not yet told. */
  lemma NoticesToOneMore(out: seq<Emission>, notified: set<RoomId>, s: SocketId, q: RoomId)
    requires NoticesTo(out, notified, s) && q !in notified
    ensures NoticesTo(out + [LeftNotice(q, s)], notified + {q}, s)
  {
    var out' := out + [LeftNotice(q, s)];
    forall i, j | 0 <= i < j < |out'| ensures out'[i] != out'[j] {
      if j == |out| {
        assert out'[i] in out;
      }
    }
  }

  /** The relay's state: the room registry. */
  class Server {
    var rooms: Registry

    constructor ()
      ensures rooms == map[]
    {
      rooms := map[];
    }

    /** `join-room` (server.js:35-49): the socket is added to the room,
        the room is told `peer-joined`, and the caller receives
        `room-peers`, the room's other members. */
    method JoinRoom(s: SocketId, r: RoomId) returns (out: seq<Emission>)
      modifies this
      ensures rooms == Join(old(rooms), r, s)
      ensures |out| == 2
      ensures out[0] == Emission(Room(r), PeerJoined, Peer(s))
      ensures out[1].target == Caller && out[1].event == RoomPeers && out[1].payload.Peers?
      ensures Lists(out[1].payload.ids, Members(old(rooms), r) - {s})
    {
      if r !in rooms {
        rooms := rooms[r := {}];
      }
      rooms := rooms[r := rooms[r] + {s}];
      var peers := OtherMembers(rooms[r], s);
      out := [Emission(Room(r), PeerJoined, Peer(s)), Emission(Caller, RoomPeers, Peers(peers))];
    }

    /** `leave-room` (server.js:96-106): the socket leaves the room, an
        emptied room is deleted, and the room is told `peer-left`, even
        when it was not in the registry. */
    method LeaveRoom(s: SocketId, r: RoomId) returns (out: seq<Emission>)
      modifies this
      ensures rooms == Leave(old(rooms), r, s)
      ensures out == [LeftNotice(r, s)]
    {
      if r in rooms {
        rooms := rooms[r := rooms[r] - {s}];
        if |rooms[r]| == 0 {
          rooms := rooms - {r};
        }
      }
      out := [LeftNotice(r, s)];
    }

    /** `disconnect` (server.js:108-116): a pass over every room removes
        the socket where it is a member and tells exactly those rooms
        `peer-left`, each once. */
    method Disconnect(s: SocketId) returns (out: seq<Emission>)
      modifies this
      ensures rooms == Drop(old(rooms), s)
      ensures NoticesTo(out, RoomsOf(old(rooms), s), s)
    {
      var pending := rooms.Keys;
      ghost var notified: set<RoomId> := {};
      out := [];
      while pending != {}
        invariant pending <= old(rooms).Keys
        invariant rooms.Keys == old(rooms).Keys
        invariant forall q :: q in rooms ==> rooms[q] == if q in pending then old(rooms)[q] else old(rooms)[q] - {s}
        invariant forall q :: q in notified <==> q in old(rooms) && q !in pending && s in old(rooms)[q]
        invariant NoticesTo(out, notified, s)
        decreases pending
      {
        var q :| q in pending;
        if s in rooms[q] {
          rooms := rooms[q := rooms[q] - {s}];
          NoticesToOneMore(out, notified, s, q);
          out := out + [LeftNotice(q, s)];
          notified := notified + {q};
        }
        pending := pending - {q};
      }
    }
  }
}
