/**
 * `NotificationsController` of src/notifications/notifications.controller.ts:
 * `POST /notifications/emit` hands the request to the gateway and acknowledges.
 */
module Controller {
  import opened Wrappers
  import opened SocketIo
  import opened Rooms
  import Gateway

  /** The request body (src/notifications/dto/emit-event.dto.ts); nothing in it is validated. */
  datatype EmitEventDto<P> = EmitEventDto(userId: int, event: string, payload: P)

  /** The response body `{ success: boolean }`. */
  datatype EmitResponse = EmitResponse(success: bool)

  class NotificationsController<P> {
    const gateway: Gateway.NotificationsGateway<P>

    constructor (gateway: Gateway.NotificationsGateway<P>)
      ensures this.gateway == gateway
    {
      this.gateway := gateway;
    }

    /**
     * `emitEvent(dto)`: one `emitToUser(dto.userId, dto.event, dto.payload)`
     * and `{ success: true }`, for any user id, also when nobody is listening.
     * For a reserved event name the method throws instead of acknowledging:
     * `Failure` carries the thrown error. The error is not the HTTP body; NestJS
     * answers such an error with 500 Internal server error.
     */
    method EmitEvent(dto: EmitEventDto<P>) returns (response: Result<EmitResponse, string>)
      requires gateway.Valid()
      modifies gateway.server
      ensures response == if dto.event in ReservedEvents then Failure(ReservedEventMessage(dto.event))
                          else Success(EmitResponse(true))
      ensures gateway.Valid()
      ensures gateway.server.rooms == old(gateway.server.rooms)
      ensures response.Failure? ==> gateway.server.deliveries == old(gateway.server.deliveries)
      ensures response.Success? ==>
              var before := old(gateway.server.deliveries);
              var members := Members(gateway.server.rooms, RoomName(dto.userId));
              && |gateway.server.deliveries| == |before| + |members|
              && gateway.server.deliveries[..|before|] == before
              && IsBroadcast(gateway.server.deliveries[|before|..], members, dto.event, dto.payload)
              && forall s :: s in gateway.users ==>
                   (s in Recipients(gateway.server.deliveries[|before|..]) <==> gateway.users[s].usu_id == dto.userId)
    {
      var outcome := gateway.EmitToUser(dto.userId, dto.event, dto.payload);
      if outcome.Fail? {
        return Failure(outcome.error);
      }
      response := Success(EmitResponse(true));
    }
  }
}
