/**
 * `NotificationsGateway` of src/notifications/notifications.gateway.ts:
 * authenticating a connecting socket and routing emitted events to the
 * private room of one user.
 */
module Gateway {
  import opened Wrappers
  import opened SocketIo
  import opened Rooms
  import opened Tokens
  import Jwt

  /** `jwtService.verifyAsync`: the claim set of a genuine, unexpired token, `None` where it throws. */
  type Verifier = string -> Option<Jwt.JwtPayload>

  /**
   * The user a handshake authenticates as: none when no truthy token is found
   * or when verification throws; otherwise the verified claim set. A socket is
   * authenticated exactly when a truthy token is extracted and verifies. A bare
   * `Bearer` header and a handshake offering no token at all are rejected.
   */
  function Authenticate(h: Handshake, verify: Verifier): (user: Option<Jwt.JwtPayload>)
    ensures user.Some? ==> IsTruthy(ExtractToken(h)) && user == verify(ExtractToken(h).value)
    ensures IsTruthy(ExtractToken(h)) ==> user == verify(ExtractToken(h).value)
    ensures h.authorization == Some("Bearer") ==> user == None
    ensures !IsBearerHeader(h.authorization) && !IsTruthy(h.authToken) && !IsTruthy(h.queryToken) ==> user == None
  {
    SplitWord("Bearer");
    var token := ExtractToken(h);
    if !IsTruthy(token) then None else verify(token.value)
  }

  /** `Authorization: Bearer <token>` authenticates as whatever `token` verifies to, ignoring the other fields. */
  lemma BearerHeaderAuthenticates(token: string, authToken: Option<string>, queryToken: Option<string>, verify: Verifier)
    requires NoSpace(token) && token != ""
    ensures Authenticate(Handshake(Some("Bearer " + token), authToken, queryToken), verify) == verify(token)
  {
    BearerToken(token, authToken, queryToken);
  }

  /**
   * Without a usable Bearer header, a truthy `auth.token` decides, and failing
   * that a truthy `query.token`; with neither the socket is rejected.
   */
  lemma FallbackTokenAuthenticates(h: Handshake, verify: Verifier)
    requires !IsBearerHeader(h.authorization)
    ensures Authenticate(h, verify) ==
              if IsTruthy(h.authToken) then verify(h.authToken.value)
              else if IsTruthy(h.queryToken) then verify(h.queryToken.value)
              else None
  {
  }

  /**
   * The room table agrees with the authenticated sockets: every member of a room
   * is authenticated as the user the room is named after, and every
   * authenticated socket is in its user's room.
   */
  ghost predicate RoomsAgree(rooms: map<string, set<SocketId>>, users: map<SocketId, Jwt.JwtPayload>)
  {
    && (forall room, s :: room in rooms && s in rooms[room] ==> s in users && room == RoomName(users[s].usu_id))
    && (forall s :: s in users ==> s in Members(rooms, RoomName(users[s].usu_id)))
  }

  /** A socket authenticated as `u` is a member of the room of `v` exactly when `v == u`. */
  lemma MemberExactlyOfOwnRoom(rooms: map<string, set<SocketId>>, users: map<SocketId, Jwt.JwtPayload>,
                               s: SocketId, v: int)
    requires RoomsAgree(rooms, users)
    requires s in users
    ensures s in Members(rooms, RoomName(v)) <==> users[s].usu_id == v
  {
    RoomNameInjective(users[s].usu_id, v);
  }

  /** A broadcast to the room of `v` reaches exactly the sockets authenticated as `v`. */
  lemma BroadcastReachesExactlyUser<P>(rooms: map<string, set<SocketId>>, users: map<SocketId, Jwt.JwtPayload>,
                                           batch: seq<Delivery<P>>, v: int, event: string, payload: P)
    requires RoomsAgree(rooms, users)
    requires IsBroadcast(batch, Members(rooms, RoomName(v)), event, payload)
    ensures Recipients(batch) <= users.Keys
    ensures forall s :: s in users ==> (s in Recipients(batch) <==> users[s].usu_id == v)
  {
    forall s | s in users ensures s in Recipients(batch) <==> users[s].usu_id == v {
      MemberExactlyOfOwnRoom(rooms, users, s, v);
    }
  }

  /** A socket that never authenticated is in no room. */
  lemma UnauthenticatedInNoRoom(rooms: map<string, set<SocketId>>, users: map<SocketId, Jwt.JwtPayload>,
                                s: SocketId, room: string)
    requires RoomsAgree(rooms, users)
    requires s !in users
    ensures s !in Members(rooms, room)
  {
  }

  /** Joining a fresh socket to the room of the user it authenticated as keeps the table in agreement. */
  lemma JoinKeepsAgreement(rooms: map<string, set<SocketId>>, users: map<SocketId, Jwt.JwtPayload>,
                           s: SocketId, user: Jwt.JwtPayload)
    requires RoomsAgree(rooms, users)
    requires s !in users
    ensures var room := RoomName(user.usu_id);
            RoomsAgree(rooms[room := Members(rooms, room) + {s}], users[s := user])
  {
    var room := RoomName(user.usu_id);
    var rooms' := rooms[room := Members(rooms, room) + {s}];
    var users' := users[s := user];
    forall r, t | r in rooms' && t in rooms'[r]
      ensures t in users' && r == RoomName(users'[t].usu_id)
    {
      if t != s {
        assert t in Members(rooms, r);
      }
    }
    forall t | t in users' ensures t in Members(rooms', RoomName(users'[t].usu_id)) {
      if t != s {
        assert t in Members(rooms, RoomName(users[t].usu_id));
      }
    }
  }

  class NotificationsGateway<P> {
    /** `@WebSocketServer() server`. */
    const server: Server<P>
    /** `jwtService.verifyAsync`, with the signing secret built in. */
    const verify: Verifier
    /**
     * The claim set the gateway authenticated each socket as. `HandleConnection`
     * stores the same value in that socket's `data.user`; `Valid()` ties this map
     * to the room table only.
     */
    ghost var users: map<SocketId, Jwt.JwtPayload>

    ghost predicate Valid()
      reads this, server
    {
      RoomsAgree(server.rooms, users)
    }

    constructor (server: Server<P>, verify: Verifier)
      requires server.rooms == map[]
      ensures this.server == server && this.verify == verify
      ensures users == map[]
      ensures Valid()
    {
      this.server := server;
      this.verify := verify;
      users := map[];
    }

    /**
     * `handleConnection(client)`: no truthy token or a token that fails
     * verification disconnects the socket and joins nothing; otherwise the
     * socket joins `user_<usu_id>` and `data.user` becomes the verified claim set.
     */
    method HandleConnection(client: Socket)
      requires Valid()
      requires client.id !in users
      modifies this, server, client
      ensures Valid()
      ensures server.deliveries == old(server.deliveries)
      ensures client.connected <==> old(client.connected) && Authenticate(client.handshake, verify).Some?
      ensures client.id in users <==> Authenticate(client.handshake, verify).Some?
      ensures Authenticate(client.handshake, verify) == None ==>
                && !client.connected
                && client.user == old(client.user)
                && server.rooms == old(server.rooms)
                && users == old(users)
      ensures Authenticate(client.handshake, verify).Some? ==>
                var user := Authenticate(client.handshake, verify).value;
                var room := RoomName(user.usu_id);
                && client.connected == old(client.connected)
                && client.user == Some(user)
                && server.rooms == old(server.rooms)[room := Members(old(server.rooms), room) + {client.id}]
                && users == old(users)[client.id := user]
    {
      var token := ExtractToken(client.handshake);
      if !IsTruthy(token) {
        client.Disconnect();
        return;
      }
      var payload := verify(token.value);
      if payload == None {
        client.Disconnect();
        return;
      }
      var roomName := RoomName(payload.value.usu_id);
      JoinKeepsAgreement(server.rooms, users, client.id, payload.value);
      server.Join(roomName, client.id);
      client.user := payload;
      users := users[client.id := payload.value];
    }

    /**
     * `emitToUser(userId, event, payload)`: one delivery to each member of
     * `user_<userId>`, none when the room is empty; the rooms are untouched.
     * The recipients are exactly the sockets authenticated as `userId`. A
     * reserved event name makes socket.io throw; the throw is not caught here
     * and nothing is delivered.
     */
    method EmitToUser(userId: int, event: string, payload: P) returns (outcome: Outcome<string>)
      requires Valid()
      modifies server
      ensures Valid()
      ensures outcome == if event in ReservedEvents then Fail(ReservedEventMessage(event)) else Pass
      ensures server.rooms == old(server.rooms)
      ensures outcome.Fail? ==> server.deliveries == old(server.deliveries)
      ensures outcome.Pass? ==>
                && |server.deliveries| == |old(server.deliveries)| + |Members(server.rooms, RoomName(userId))|
                && server.deliveries[..|old(server.deliveries)|] == old(server.deliveries)
                && IsBroadcast(server.deliveries[|old(server.deliveries)|..], Members(server.rooms, RoomName(userId)), event, payload)
                && Recipients(server.deliveries[|old(server.deliveries)|..]) <= users.Keys
                && forall s :: s in users ==>
                     (s in Recipients(server.deliveries[|old(server.deliveries)|..]) <==> users[s].usu_id == userId)
    {
      var roomName := RoomName(userId);
      outcome := server.EmitToRoom(roomName, event, payload);
      if outcome.Pass? {
        BroadcastReachesExactlyUser(server.rooms, users, server.deliveries[|old(server.deliveries)|..], userId, event, payload);
      }
    }
  }

  /**
   * A socket whose handshake yields a truthy token (from the Bearer header,
   * `auth.token` or `query.token`) that verifies as user `u` receives the next
   * event emitted to `u` and nothing from an event emitted to any other user
   * (or with a reserved name).
   */
  method ConnectThenEmit<P>(gateway: NotificationsGateway<P>, client: Socket,
                            target: int, event: string, payload: P)
    requires gateway.Valid()
    requires client.id !in gateway.users
    requires IsTruthy(ExtractToken(client.handshake))
    requires gateway.verify(ExtractToken(client.handshake).value).Some?
    modifies gateway, gateway.server, client
    ensures client.user == gateway.verify(ExtractToken(client.handshake).value)
    ensures client.connected == old(client.connected)
    ensures |gateway.server.deliveries| >= |old(gateway.server.deliveries)|
    ensures var batch := gateway.server.deliveries[|old(gateway.server.deliveries)|..];
            client.id in Recipients(batch) <==>
              event !in ReservedEvents && target == gateway.verify(ExtractToken(client.handshake).value).value.usu_id
  {
    gateway.HandleConnection(client);
    var _ := gateway.EmitToUser(target, event, payload);
  }
}
