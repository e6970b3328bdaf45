/**
 * The part of socket.io that src/notifications/notifications.gateway.ts relies
 * on, made explicit: a client socket with its handshake and `data.user`, and a
 * namespace server holding the room table (room name to member socket ids) and
 * a log of the deliveries that `to(room).emit(event, payload)` performs.
 */
module SocketIo {
  import opened Wrappers
  import Jwt

  /** socket.io's per-connection identifier, `socket.id`. */
  type SocketId = string

  /**
   * What the client sent when connecting: `handshake.headers.authorization`,
   * `handshake.auth.token` and `handshake.query.token`; `None` is `undefined`.
   */
  datatype Handshake = Handshake(
    authorization: Option<string>,
    authToken: Option<string>,
    queryToken: Option<string>)

  /** One event pushed to one socket. */
  datatype Delivery<P> = Delivery(to: SocketId, event: string, payload: P)

  /** A connected client. */
  class Socket {
    const id: SocketId
    const handshake: Handshake
    /** False once `disconnect()` has been called. */
    var connected: bool
    /** `socket.data.user`. */
    var user: Option<Jwt.JwtPayload>

    constructor (id: SocketId, handshake: Handshake)
      ensures this.id == id && this.handshake == handshake
      ensures connected && user == None
    {
      this.id := id;
      this.handshake := handshake;
      connected := true;
      user := None;
    }

    /** `socket.disconnect()`. */
    method Disconnect()
      modifies this
      ensures !connected && user == old(user)
    {
      connected := false;
    }
  }

  /** The members of `room`; a room nobody joined is empty. */
  function Members(rooms: map<string, set<SocketId>>, room: string): set<SocketId>
  {
    if room in rooms then rooms[room] else {}
  }

  /** The sockets a batch of deliveries reaches. */
  function Recipients<P>(batch: seq<Delivery<P>>): set<SocketId>
  {
    set i | 0 <= i < |batch| :: batch[i].to
  }

  lemma RecipientsAppend<P>(batch: seq<Delivery<P>>, d: Delivery<P>)
    ensures Recipients(batch + [d]) == Recipients(batch) + {d.to}
  {
    var extended := batch + [d];
    assert extended[|batch|] == d;
    forall s | s in Recipients(batch) ensures s in Recipients(extended) {
      var i :| 0 <= i < |batch| && batch[i].to == s;
      assert extended[i] == batch[i];
    }
  }

  /** `batch` pushes `(event, payload)` once to each socket of `members` and to nobody else. */
  ghost predicate IsBroadcast<P>(batch: seq<Delivery<P>>, members: set<SocketId>, event: string, payload: P)
  {
    && Recipients(batch) == members
    && (forall i :: 0 <= i < |batch| ==> batch[i].event == event && batch[i].payload == payload)
    && (forall i, j :: 0 <= i < j < |batch| ==> batch[i].to != batch[j].to)
  }

  /** Delivering to one more socket, not yet reached, extends a broadcast to it. */
  lemma BroadcastExtend<P>(batch: seq<Delivery<P>>, reached: set<SocketId>, s: SocketId, event: string, payload: P)
    requires IsBroadcast(batch, reached, event, payload)
    requires s !in reached
    ensures IsBroadcast(batch + [Delivery(s, event, payload)], reached + {s}, event, payload)
  {
    RecipientsAppend(batch, Delivery(s, event, payload));
    var extended := batch + [Delivery(s, event, payload)];
    forall i, j | 0 <= i < j < |extended| ensures extended[i].to != extended[j].to {
      if j == |batch| {
        assert extended[i].to in Recipients(batch);
      }
    }
  }

  /** A broadcast makes exactly as many deliveries as there are members. */
  lemma {:induction false} BroadcastSize<P>(batch: seq<Delivery<P>>, members: set<SocketId>, event: string, payload: P)
    requires IsBroadcast(batch, members, event, payload)
    ensures |batch| == |members|
  {
    if batch == [] {
      assert Recipients(batch) == {};
    } else {
      var init, last := batch[..|batch| - 1], batch[|batch| - 1];
      assert batch == init + [last];
      RecipientsAppend(init, last);
      assert Recipients(init) == members - {last.to};
      BroadcastSize(init, members - {last.to}, event, payload);
    }
  }

  /** One delivery of `(event, payload)` per member, in some order. */
  method FanOut<P>(members: set<SocketId>, event: string, payload: P) returns (batch: seq<Delivery<P>>)
    ensures IsBroadcast(batch, members, event, payload)
    ensures |batch| == |members|
  {
    batch := [];
    var pending := members;
    while pending != {}
      invariant pending <= members
      invariant IsBroadcast(batch, members - pending, event, payload)
      decreases pending
    {
      var s :| s in pending;
      BroadcastExtend(batch, members - pending, s, event, payload);
      batch := batch + [Delivery(s, event, payload)];
      assert members - (pending - {s}) == (members - pending) + {s};
      pending := pending - {s};
    }
    assert members - pending == members;
    BroadcastSize(batch, members, event, payload);
  }

  /**
   * Event names socket.io keeps for itself; emitting one to a room throws
   * instead of delivering anything.
   */
  const ReservedEvents: set<string> :=
    {"connect", "connect_error", "disconnect", "disconnecting", "newListener", "removeListener"}

  /** The message of the error thrown for a reserved event name. */
  function ReservedEventMessage(event: string): string
  {
    "\"" + event + "\" is a reserved event name"
  }

  /** A namespace: its room table and the deliveries made so far. */
  class Server<P> {
    var rooms: map<string, set<SocketId>>
    var deliveries: seq<Delivery<P>>

    constructor ()
      ensures rooms == map[] && deliveries == []
    {
      rooms := map[];
      deliveries := [];
    }

    /** The adapter side of `socket.join(room)`: adds the socket to the room, creating it if needed. */
    method Join(room: string, id: SocketId)
      modifies this
      ensures rooms == old(rooms)[room := Members(old(rooms), room) + {id}]
      ensures deliveries == old(deliveries)
    {
      rooms := rooms[room := Members(rooms, room) + {id}];
    }

    /**
     * `server.to(room).emit(event, payload)`: throws for a reserved event name
     * and delivers nothing; otherwise one delivery per current member. The
     * rooms are untouched either way.
     */
    method EmitToRoom(room: string, event: string, payload: P) returns (outcome: Outcome<string>)
      modifies this
      ensures outcome == if event in ReservedEvents then Fail(ReservedEventMessage(event)) else Pass
      ensures rooms == old(rooms)
      ensures outcome.Fail? ==> deliveries == old(deliveries)
      ensures outcome.Pass? ==>
                && |deliveries| == |old(deliveries)| + |Members(rooms, room)|
                && deliveries[..|old(deliveries)|] == old(deliveries)
                && IsBroadcast(deliveries[|old(deliveries)|..], Members(rooms, room), event, payload)
    {
      if event in ReservedEvents {
        return Fail(ReservedEventMessage(event));
      }
      var batch := FanOut(Members(rooms, room), event, payload);
      deliveries := deliveries + batch;
      assert deliveries[|old(deliveries)|..] == batch;
      outcome := Pass;
    }
  }
}
