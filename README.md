# Notification relay: connection authentication and per-user routing

This project models the WebSocket notification gateway of a help-desk backend
(NestJS over socket.io) and proves properties of the model in Dafny.

A client opens a socket on the `notifications` namespace. The gateway looks for
a JWT in a fixed order: the `Authorization: Bearer <token>` header first, then
`handshake.auth.token`, then `handshake.query.token`. It verifies the token and
puts the socket in the private room `user_<usu_id>`. An external service posts
`{ userId, event, payload }` to `POST /notifications/emit`. The controller
forwards the request to `emitToUser`, which pushes `(event, payload)` to every
socket in room `user_<userId>`.

Modules:

- `Wrappers`: `Option`, which stands for JavaScript's `undefined`;
  `Result`, the value of a constructor or method that either returns or
  throws (`NewJwtStrategy`, `EmitEvent`); and `Outcome`, whether a call made
  only for its effect threw (`EmitToRoom`, `EmitToUser`). `Failure` and
  `Fail` carry the thrown error's message.
- `Jwt`: the claim set `JwtPayload`, `JwtStrategy.validate` (`Validate`) and
  the constructor's guard on `JWT_SECRET` (`NewJwtStrategy`).
- `SocketIo`: the parts of socket.io that the gateway relies on. This is an
  explicit model of the transport, not code from the repository. A `Socket`
  holds its handshake, its `connected` flag and `data.user`. A `Server` holds
  the room table (room name to the set of socket ids) and a log of every
  delivery made.
- `Rooms`: the room name `user_${id}` and the decimal rendering of an integer.
  The parser `ParseRoom` is the inverse of the room name, which shows that
  distinct users never share a room.
- `Tokens`: `extractToken`, with JavaScript's `split(' ')` and truthiness
  written out.
- `Gateway`: the `NotificationsGateway` class, with `HandleConnection` and
  `EmitToUser`. Its invariant `Valid()` says that the room table agrees with
  the authenticated sockets.
- `Controller`: the `NotificationsController` class and `EmitEvent`.

`jwtService.verifyAsync` is a parameter of the gateway. It is a function from
token to `Option<JwtPayload>`, and `None` means that verification throws. The
event payload is an opaque type parameter `P`.

Facts about the code that the model keeps:

- The room is named `user_<id>`, with an underscore.
- There are two fallback fields, `auth.token` and then `query.token`.
- `Bearer` with no second word gives `undefined`, and the fallbacks are not
  tried.
- Neither the user id nor the event name is validated. A non-positive id or
  an empty event name is forwarded as it is.
- A reserved socket.io event name (`connect`, `connect_error`, `disconnect`,
  `disconnecting`, `newListener`, `removeListener`) makes the emit throw. The
  throw is not caught, so the request fails (NestJS answers 500 Internal
  server error) instead of answering `{ success: true }`.
- `handleDisconnect` only logs. It does not remove the socket from any room.

## Model

| member | source | states |
|---|---|---|
| `Jwt.Validate` | src/auth/jwt.strategy.ts:44-54 | the result agrees with the input on all eight declared claims and carries no other claim |
| `Jwt.ValidateIdempotent` | src/auth/jwt.strategy.ts:44-54 | validating twice gives the same user as validating once |
| `Jwt.ValidateKernel` | src/auth/jwt.strategy.ts:45-54 | two claim sets give the same user exactly when they agree on the eight declared claims |
| `Jwt.ValidateFixpoint` | src/auth/jwt.strategy.ts:44-54 | a claim set passes through unchanged exactly when it has no extra claim |
| `Jwt.ValidateDropsExtraClaims` | src/auth/jwt.strategy.ts:45-54 | a claim outside the eight (e.g. `iat`, `exp`) is absent from the result |
| `Jwt.NewJwtStrategy` | src/auth/jwt.strategy.ts:20-35 | fails with "JWT_SECRET is not defined" exactly when the secret is missing or empty; otherwise it uses the secret as the key, keeps expiry checking on and reads the Bearer header |
| `Rooms.RoomName` | src/notifications/notifications.gateway.ts:88 | a room name is `user_` followed by a non-empty rendering of the id |
| `Rooms.IntToDecimal` | src/notifications/notifications.gateway.ts:62 | the `${id}` rendering is a minus sign exactly for a negative id, followed by decimal digits |
| `Rooms.DecimalRoundTrip` | src/notifications/notifications.gateway.ts:62 | reading the decimal rendering of a natural number gives the number back |
| `Rooms.IntRoundTrip` | src/notifications/notifications.gateway.ts:62 | reading back the rendering of any integer, negative ones included, gives the integer |
| `Rooms.RoomNameRoundTrip` | src/notifications/notifications.gateway.ts:62 | `ParseRoom(RoomName(id)) == Some(id)` for every integer id, negative ones included |
| `Rooms.RoomNameInjective` | src/notifications/notifications.gateway.ts:62 | `user_${u}` and `user_${v}` are equal exactly when `u == v` |
| `Tokens.Split` | src/notifications/notifications.gateway.ts:100 | `split(' ')` always yields at least one piece, so the index `[0]` is always defined |
| `Tokens.SplitWord` | src/notifications/notifications.gateway.ts:100 | a string without a space splits into itself alone |
| `Tokens.SplitFirstWord` | src/notifications/notifications.gateway.ts:100-101 | the first space ends the first piece and the rest is split independently |
| `Tokens.JoinSplit` | src/notifications/notifications.gateway.ts:100-101 | joining the pieces with single spaces restores the header, and no piece contains a space |
| `Tokens.SplitJoin` | src/notifications/notifications.gateway.ts:100-101 | splitting space-free words joined by single spaces restores the words |
| `Tokens.FallbackToken` | src/notifications/notifications.gateway.ts:105-106 | the result is one of `auth.token` and `query.token`; it is `auth.token` whenever that is truthy; it is truthy exactly when either field is |
| `Tokens.ExtractToken` | src/notifications/notifications.gateway.ts:97-107 | with a non-empty header whose first word is `Bearer`, the token is the space-free text after `Bearer ` up to the next space or the end, and `undefined` exactly when the header is `Bearer` alone; otherwise the fallback |
| `Tokens.BearerPieces` | src/notifications/notifications.gateway.ts:100-101 | for a header whose first piece is `Bearer`, there is a second piece unless the header is `Bearer` alone, and that piece is the text after `Bearer ` up to the next space |
| `Tokens.BearerHeaderWins` | src/notifications/notifications.gateway.ts:99-102 | with a non-empty header whose first word is `Bearer`, the result is the second word (or `undefined`) and `auth.token`/`query.token` have no influence |
| `Tokens.BearerToken` | src/notifications/notifications.gateway.ts:99-102 | `Bearer <token>` yields `token`, whatever the fallback fields hold |
| `Tokens.BareBearer` | src/notifications/notifications.gateway.ts:100-101 | the header `Bearer` alone yields `undefined` and the fallbacks are not consulted |
| `Tokens.BearerDoubleSpace` | src/notifications/notifications.gateway.ts:100-101 | `Bearer` followed by two spaces yields the empty token, not a fallback |
| `Tokens.OtherSchemeFallsBack` | src/notifications/notifications.gateway.ts:100-106 | a header whose first word is not exactly `Bearer` (the comparison is case-sensitive), alone or followed by a space and more text, leads to the fallback fields |
| `Tokens.EmptyHeaderIgnored` | src/notifications/notifications.gateway.ts:99-106 | a missing or empty header falls through to the fallback fields |
| `Gateway.Authenticate` | src/notifications/notifications.gateway.ts:50-59 | a socket is authenticated exactly when a truthy token is extracted and verifies, and then as what that token verifies to; a bare `Bearer` header, or no usable header and no truthy token field, is rejected |
| `Gateway.FallbackTokenAuthenticates` | src/notifications/notifications.gateway.ts:50-59 | without a usable Bearer header, a truthy `auth.token` authenticates as what it verifies to, failing that a truthy `query.token` does, and with neither the socket is rejected |
| `Gateway.BearerHeaderAuthenticates` | src/notifications/notifications.gateway.ts:50-59 | `Bearer <token>` authenticates as whatever `token` verifies to |
| `Gateway.MemberExactlyOfOwnRoom` | src/notifications/notifications.gateway.ts:62-88 | when the room table agrees with the authenticated sockets, a socket authenticated as `u` is in the room of `v` exactly when `v == u` |
| `Gateway.BroadcastReachesExactlyUser` | src/notifications/notifications.gateway.ts:87-89 | when the room table agrees with the authenticated sockets, a broadcast to `user_<v>` reaches only authenticated sockets, and among them exactly those authenticated as `v` |
| `Gateway.UnauthenticatedInNoRoom` | src/notifications/notifications.gateway.ts:59-63 | a socket that never authenticated is in no room |
| `Gateway.JoinKeepsAgreement` | src/notifications/notifications.gateway.ts:62-66 | joining a fresh socket to its user's room keeps the room table in agreement with the authenticated sockets |
| `Gateway.NotificationsGateway.constructor` | src/notifications/notifications.gateway.ts:34 | a gateway over an empty room table starts with no authenticated socket |
| `Gateway.NotificationsGateway.HandleConnection` | src/notifications/notifications.gateway.ts:47-74 | the socket stays connected, and is authenticated, exactly when `Authenticate` succeeds; when it fails: the socket is disconnected, no room is joined and `data.user` is unchanged; otherwise the socket joins exactly `user_<usu_id>`, `data.user` is the verified claim set and no other room changes; nothing is delivered |
| `Gateway.NotificationsGateway.EmitToUser` | src/notifications/notifications.gateway.ts:87-91 | fails with the reserved-name error, delivering nothing, exactly for a reserved event name; otherwise appends one `(event, payload)` delivery per member of `user_<userId>` and no other, zero for an empty room, the recipients being exactly the sockets authenticated as `userId`; the rooms are unchanged |
| `Gateway.ConnectThenEmit` | src/notifications/notifications.gateway.ts:47-91 | a socket whose handshake yields a truthy token (header, `auth.token` or `query.token`) that verifies as `u` stays connected, has `data.user` set, and receives an emit addressed to `v` exactly when `v == u` and the event name is not reserved |
| `SocketIo.Socket.Disconnect` | src/notifications/notifications.gateway.ts:54 | the socket is closed and its `data.user` is left as it was |
| `SocketIo.Server.Join` | src/notifications/notifications.gateway.ts:63 | the socket is added to the named room (created if absent), no other room changes and nothing is delivered |
| `SocketIo.Server.EmitToRoom` | src/notifications/notifications.gateway.ts:89 | throws `"<event>" is a reserved event name`, delivering nothing, exactly for the six reserved names; otherwise appends a broadcast of `(event, payload)` to exactly the room's current members, once each; rooms unchanged |
| `SocketIo.BroadcastExtend` | src/notifications/notifications.gateway.ts:89 | one more delivery to a socket not yet reached extends a broadcast to that socket |
| `SocketIo.BroadcastSize` | src/notifications/notifications.gateway.ts:89 | a broadcast makes exactly one delivery per member |
| `SocketIo.FanOut` | src/notifications/notifications.gateway.ts:89 | produces one delivery per member, to no one else, each carrying the given event and payload, with no socket reached twice |
| `Controller.NotificationsController.EmitEvent` | src/notifications/notifications.controller.ts:30-35 | answers `{ success: true }` for every user id and every non-reserved event name, empty room included, after exactly the deliveries of one `emitToUser(dto.userId, dto.event, dto.payload)`; for a reserved event name the method throws (`Failure` with the thrown message; the HTTP answer is then 500) and nothing is delivered; no room changes |

## Left out

- JWT cryptography: `jwtService.verifyAsync` and passport-jwt's signature and expiry checks are foreign library calls. The verifier is a function parameter of the gateway, so a tampered or expired token is whatever that function rejects.
- socket.io configuration (CORS, namespace, ping interval and timeout, transports) at src/notifications/notifications.gateway.ts:17-26: this is transport configuration with no logic.
- The reserved event names and their error message belong to socket.io's `BroadcastOperator.emit`, which is not part of this model's sources; the model states them as constants of the transport.
- socket.io internals: each socket's automatic room named after its own id is not modelled. Leaving all rooms when a socket closes is done by socket.io, not by this code, so it is not modelled either.
- `afterInit` and `handleDisconnect` (src/notifications/notifications.gateway.ts:36-38 and :76-78): they only log.
- Logging calls: they have no effect on state.
- Async/await and concurrency: each handler is one sequential step.
- Gateway.NotificationsGateway.HandleConnection: requires that the socket id is not already authenticated, because socket.io hands each new connection, with a fresh id, to the handler exactly once.
- Gateway.NotificationsGateway.HandleConnection: the catch block is modelled only for a failed verification. Other throws inside the try block cannot happen once the transport is abstracted.
- Rooms.RoomName: ids are JavaScript numbers restricted to safe integers, |id| <= 2^53 - 1. `undefined`, fractional and string ids, and integers outside that range (which a JavaScript number either cannot hold or renders in its shortest round-tripping form, e.g. `1152921504606847000` for 2^60), are not modelled.
- Tokens.ExtractToken: `auth.token` and `query.token` are modelled as strings or `undefined`. Non-string values (numbers, arrays of query values) are not modelled.
- The payload is an opaque type parameter and is never inspected. JWT claims other than the eight declared ones are opaque `Claim` values.
- Bootstrap and dependency injection (src/main.ts, src/app.module.ts, src/notifications/notifications.module.ts) and the health endpoint (src/health/health.controller.ts) contain no logic of the core.
