/** `handlers/deltaValidationHandler.go`: validation only. The handler holds no
    message-bus service, so no path reads the body or publishes. */
module DeltaValidationHandler {
  import opened Wrappers
  import opened HttpTrace
  import ChOpenApiValidator
  import Config

  datatype DeltaValidationHandler = DeltaValidationHandler(cfg: Config.Config)

  /** `ServeHTTP`: 500 on an internal validator error, 400 with the payload as the body on
      validation errors, 200 otherwise; the validator is the only collaborator called. A
      validator that panics takes the handler down with it: nothing is written. */
  function ServeHTTP(h: DeltaValidationHandler, reply: Run<ChOpenApiValidator.Reply>): (t: Trace)
    ensures t.calls == [ValidateRequest(h.cfg.openApiSpec)]
    ensures Sends(t.calls) == []
    ensures reply.Panics? <==> t.response == []
    ensures reply.Returns? ==> OneStatusFirst(t)
    ensures reply.Returns? ==> (Status(t) == StatusInternalServerError <==> reply.value.err.Some?)
    ensures reply.Returns? ==> (Status(t) == StatusBadRequest <==>
      reply.value.err.None? && reply.value.payload.Some?)
    ensures reply.Returns? ==> (Status(t) == StatusOK <==>
      reply.value.err.None? && reply.value.payload.None?)
    ensures reply.Returns? && Status(t) == StatusBadRequest ==>
      t.response[1..] == [WriteBody(reply.value.payload.value)]
    ensures reply.Returns? && Status(t) != StatusBadRequest ==> |t.response| == 1
  {
    var validate := ValidateRequest(h.cfg.openApiSpec);
    match reply
    case Panics => Trace([], [validate])
    case Returns(rep) =>
      match RejectInvalid(rep)
      case Some(response) => Trace(response, [validate])
      case None => Trace([WriteHeader(StatusOK)], [validate])
  }
}
