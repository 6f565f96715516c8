/** The socket.io room table both socket servers rely on: each connected
    socket with the rooms it is in (its own-id room and those it joined),
    room delivery and broadcast. */
module Rooms {
  type SocketId = string

  /** Connected sockets and the rooms each has joined. */
  type Table = map<SocketId, set<string>>

  /** A connection: socket.io places every new socket in the room named by
      its own id, so `io.to(id)` reaches it. */
  function Connect(t: Table, s: SocketId): (t': Table)
    ensures t'.Keys == t.Keys + {s}
    ensures s !in t ==> t'[s] == {s}
    ensures forall x :: x in t ==> t'[x] == t[x]
  {
    if s in t then t else t[s := {s}]
  }

  /** A room named by a newly connected socket's id reaches that socket,
      whether or not it ever joined anything. */
  lemma OwnRoomReachesSocket(t: Table, s: SocketId)
    requires s !in t
    ensures Members(Connect(t, s), s) == Members(t, s) + {s}
  {
    var t' := Connect(t, s);
    assert forall x :: x in Members(t', s) <==> x in Members(t, s) + {s};
  }

  /** `socket.join(room)`. */
  function Join(t: Table, s: SocketId, room: string): (t': Table)
    requires s in t
    ensures t'.Keys == t.Keys
    ensures room in t'[s]
    ensures forall x :: x in t && x != s ==> t'[x] == t[x]
    ensures forall r :: r != room ==> (r in t'[s] <==> r in t[s])
  {
    t[s := t[s] + {room}]
  }

  /** Disconnecting leaves every room. */
  function Disconnect(t: Table, s: SocketId): (t': Table)
    ensures t'.Keys == t.Keys - {s}
    ensures forall x :: x in t' ==> t'[x] == t[x]
  {
    map x | x in t && x != s :: t[x]
  }

  /** The sockets `io.to(room)` reaches. */
  function Members(t: Table, room: string): (ms: set<SocketId>)
    ensures forall s :: s in ms <==> s in t && room in t[s]
  {
    set s | s in t && room in t[s]
  }

  /** The sockets `io.emit` reaches: every connected one. */
  function Everyone(t: Table): (ms: set<SocketId>)
    ensures forall s :: s in ms <==> s in t
  {
    t.Keys
  }

  /** Joining puts the socket in that room's audience and changes no other
      room's audience. */
  lemma JoinIsolation(t: Table, s: SocketId, room: string, other: string)
    requires s in t
    ensures Members(Join(t, s, room), room) == Members(t, room) + {s}
    ensures other != room ==> Members(Join(t, s, room), other) == Members(t, other)
  {
    var t' := Join(t, s, room);
    assert forall x :: x in Members(t', room) <==> x in Members(t, room) + {s};
    if other != room {
      assert forall x :: x in Members(t', other) <==> x in Members(t, other);
    }
  }

  /** A room's audience is always among the connected sockets, and a
      disconnected socket is in no audience. */
  lemma AudienceWithinEveryone(t: Table, s: SocketId, room: string)
    ensures Members(t, room) <= Everyone(t)
    ensures s !in Members(Disconnect(t, s), room)
  {
  }
}
