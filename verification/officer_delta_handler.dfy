/** `handlers/officerDeltaHandler.go`: validates an officer delta against the configured
    spec and, unless validate-only, publishes it on the configured officer topic. */
module OfficerDeltaHandler {
  import opened Wrappers
  import opened HttpTrace
  import ChOpenApiValidator
  import Config

  datatype OfficerDeltaHandler = OfficerDeltaHandler(cfg: Config.Config, doValidationOnly: bool)

  /** `ServeHTTP`: the same decision table as the generic delta handler, but the send
      always targets `cfg.OfficerDeltaTopic` and carries no delete flag; a body-read
      failure answers 500 without sending. A validator that panics takes the handler down
      with it: nothing is written. */
  function ServeHTTP(h: OfficerDeltaHandler, contextId: string, reply: Run<ChOpenApiValidator.Reply>,
                     body: Result<string>, send: Outcome): (t: Trace)
    ensures var readsBody := Passed(reply) && !h.doValidationOnly;
      t.calls ==
        [ValidateRequest(h.cfg.openApiSpec)]
        + (if readsBody then [ReadBody] else [])
        + (if readsBody && body.Success?
           then [SendMessage(h.cfg.officerDeltaTopic, body.value, contextId, None)] else [])
    ensures reply.Panics? <==> t.response == []
    ensures reply.Returns? ==> OneStatusFirst(t)
    ensures reply.Returns? ==> (Status(t) == StatusInternalServerError <==>
      reply.value.err.Some? || (reply.value.payload.None? && !h.doValidationOnly && (body.Failure? || send.Fail?)))
    ensures reply.Returns? ==> (Status(t) == StatusBadRequest <==>
      reply.value.err.None? && reply.value.payload.Some?)
    ensures reply.Returns? ==> (Status(t) == StatusOK <==>
      reply.value.err.None? && reply.value.payload.None? && (h.doValidationOnly || (body.Success? && send.Pass?)))
    ensures reply.Returns? && Status(t) == StatusBadRequest ==>
      t.response[1..] == [WriteBody(reply.value.payload.value)]
    ensures reply.Returns? && Status(t) != StatusBadRequest ==> |t.response| == 1
  {
    var validate := ValidateRequest(h.cfg.openApiSpec);
    match reply
    case Panics => Trace([], [validate])
    case Returns(rep) =>
      match RejectInvalid(rep)
      case Some(response) => Trace(response, [validate])
      case None =>
        if h.doValidationOnly then Trace([WriteHeader(StatusOK)], [validate])
        else match body
          case Failure(_) => Trace([WriteHeader(StatusInternalServerError)], [validate, ReadBody])
          case Success(data) =>
            var calls := [validate, ReadBody, SendMessage(h.cfg.officerDeltaTopic, data, contextId, None)];
            if send.Fail? then Trace([WriteHeader(StatusInternalServerError)], calls)
            else Trace([WriteHeader(StatusOK)], calls)
  }

  /** The body is read only after validation passed in a publishing handler, and at most
      one message is sent: the body read, on the configured officer topic, with no delete
      flag. */
  lemma PublishesAtMostOnce(h: OfficerDeltaHandler, contextId: string, reply: Run<ChOpenApiValidator.Reply>,
                            body: Result<string>, send: Outcome)
    ensures var t := ServeHTTP(h, contextId, reply, body, send);
      && (ReadBody in t.calls <==> Passed(reply) && !h.doValidationOnly)
      && Sends(t.calls) ==
           (if Passed(reply) && !h.doValidationOnly && body.Success?
            then [SendMessage(h.cfg.officerDeltaTopic, body.value, contextId, None)] else [])
  {
    var readsBody := Passed(reply) && !h.doValidationOnly;
    SendsOfHandlerCalls(ValidateRequest(h.cfg.openApiSpec), readsBody,
      if readsBody && body.Success?
      then Some(SendMessage(h.cfg.officerDeltaTopic, body.value, contextId, None)) else None);
  }
}
