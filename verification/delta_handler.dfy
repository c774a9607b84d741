/** `handlers/deltaHandler.go`: validates a delta and, unless validate-only, publishes it
    on the handler's topic. Collaborators are given by their outcomes: the validator's
    reply, the body read and the send. `primaryId` is represented only by whether the
    pattern built from it compiles, which is fixed when the handler is constructed; once
    built, the pattern only feeds a log line. */
module DeltaHandler {
  import opened Wrappers
  import opened ErrorTree
  import opened HttpTrace
  import ChOpenApiValidator

  datatype DeltaHandler = DeltaHandler(
    doValidationOnly: bool,
    isDelete: bool,
    topic: string,
    primaryIdCompiles: bool)

  /** `ServeHTTP`. The validator is called with the request id as its spec-path argument,
      as the source does. A validator that panics takes the handler down with it: the
      validator was called and nothing was written. When the primary-id pattern does not
      compile, `regexp.MustCompile` panics after the body is read and before the send. */
  function ServeHTTP(h: DeltaHandler, contextId: string, reply: Run<ChOpenApiValidator.Reply>,
                     body: Result<string>, send: Outcome): (t: Trace)
    ensures var readsBody := Passed(reply) && !h.doValidationOnly;
      t.calls ==
        [ValidateRequest(contextId)]
        + (if readsBody then [ReadBody] else [])
        + (if readsBody && body.Success? && h.primaryIdCompiles
           then [SendMessage(h.topic, body.value, contextId, Some(h.isDelete))] else [])
    ensures t.response == [] <==>
      reply.Panics? || (Passed(reply) && !h.doValidationOnly && body.Success? && !h.primaryIdCompiles)
    ensures t.response != [] ==> OneStatusFirst(t)
    ensures t.response != [] ==> (Status(t) == StatusInternalServerError <==>
      reply.value.err.Some? || (reply.value.payload.None? && !h.doValidationOnly && (body.Failure? || send.Fail?)))
    ensures t.response != [] ==> (Status(t) == StatusBadRequest <==>
      reply.value.err.None? && reply.value.payload.Some?)
    ensures t.response != [] ==> (Status(t) == StatusOK <==>
      reply.value.err.None? && reply.value.payload.None? && (h.doValidationOnly || (body.Success? && send.Pass?)))
    ensures t.response != [] && Status(t) == StatusBadRequest ==>
      t.response[1..] == [WriteBody(reply.value.payload.value)]
    ensures t.response != [] && Status(t) != StatusBadRequest ==> |t.response| == 1
  {
    var validate := ValidateRequest(contextId);
    match reply
    case Panics => Trace([], [validate])
    case Returns(rep) =>
      match RejectInvalid(rep)
      case Some(response) => Trace(response, [validate])
      case None =>
        if h.doValidationOnly then Trace([WriteHeader(StatusOK)], [validate])
        else Publish(h, contextId, body, send)
  }

  /** The steps after validation passed: read the body, build the primary-id pattern, send. */
  function Publish(h: DeltaHandler, contextId: string, body: Result<string>, send: Outcome): (t: Trace)
    ensures t.calls ==
      [ValidateRequest(contextId), ReadBody]
      + (if body.Success? && h.primaryIdCompiles
         then [SendMessage(h.topic, body.value, contextId, Some(h.isDelete))] else [])
    ensures t.response == [] <==> body.Success? && !h.primaryIdCompiles
    ensures t.response != [] ==>
      t.response == [WriteHeader(if body.Success? && send.Pass? then StatusOK else StatusInternalServerError)]
  {
    var calls := [ValidateRequest(contextId), ReadBody];
    match body
    case Failure(_) => Trace([WriteHeader(StatusInternalServerError)], calls)
    case Success(data) =>
      if !h.primaryIdCompiles then Trace([], calls)
      else
        var sent := calls + [SendMessage(h.topic, data, contextId, Some(h.isDelete))];
        if send.Fail? then Trace([WriteHeader(StatusInternalServerError)], sent)
        else Trace([WriteHeader(StatusOK)], sent)
  }

  /** The body is read only after validation passed in a publishing handler, and at most
      one message is sent: the body read, on the handler's topic, with its delete flag. */
  lemma PublishesAtMostOnce(h: DeltaHandler, contextId: string, reply: Run<ChOpenApiValidator.Reply>,
                            body: Result<string>, send: Outcome)
    ensures var t := ServeHTTP(h, contextId, reply, body, send);
      && (ReadBody in t.calls <==> Passed(reply) && !h.doValidationOnly)
      && Sends(t.calls) ==
           (if Passed(reply) && !h.doValidationOnly && body.Success? && h.primaryIdCompiles
            then [SendMessage(h.topic, body.value, contextId, Some(h.isDelete))] else [])
  {
    var readsBody := Passed(reply) && !h.doValidationOnly;
    SendsOfHandlerCalls(ValidateRequest(contextId), readsBody,
      if readsBody && body.Success? && h.primaryIdCompiles
      then Some(SendMessage(h.topic, body.value, contextId, Some(h.isDelete))) else None);
  }

  /** A failed setup step of the validation chain always ends in 500 with nothing read or
      sent, whatever the body and the bus would have done. */
  lemma SetupFailureIsInternalError(h: DeltaHandler, contextId: string, requestId: string,
                                    setup: ChOpenApiValidator.Setup, check: Option<ValidationError>,
                                    body: Result<string>, send: Outcome)
    requires !ChOpenApiValidator.SetupPasses(setup)
    ensures var run := ChOpenApiValidator.Validate(Some(requestId), setup, check);
      && run.result.Returns?
      && var t := ServeHTTP(h, contextId, run.result, body, send);
         Status(t) == StatusInternalServerError && ReadBody !in t.calls && Sends(t.calls) == []
  {
  }

  /** A validator error holding at least one request error that formats without panicking
      answers 400 with the formatted records and publishes nothing. */
  lemma SchemaViolationIsBadRequest(h: DeltaHandler, contextId: string, requestId: string,
                                    setup: ChOpenApiValidator.Setup, cs: seq<ValidationError>, i: nat,
                                    body: Result<string>, send: Outcome)
    requires ChOpenApiValidator.SetupPasses(setup)
    requires ChOpenApiValidator.FormatRequestErrors(cs).Returns?
    requires i < |cs| && cs[i].RequestError?
    ensures var run := ChOpenApiValidator.Validate(Some(requestId), setup, Some(MultiError(cs)));
      && run.result.Returns?
      && var t := ServeHTTP(h, contextId, run.result, body, send);
         && Status(t) == StatusBadRequest
         && t.response[1..] == [WriteBody(ChOpenApiValidator.FormatRequestErrors(cs).value)]
         && Sends(t.calls) == []
  {
    assert cs[i] in ChOpenApiValidator.RequestChildren(cs);
    var records := ChOpenApiValidator.FormatRequestErrors(cs).value;
    assert |records| > 0;
    assert ChOpenApiValidator.FormatError(MultiError(cs)) == Returns(Some(records));
    var reply := ChOpenApiValidator.Reply(Some(records), None);
    assert ChOpenApiValidator.Validate(Some(requestId), setup, Some(MultiError(cs))).result == Returns(reply);
  }

  /** As written, a validator error made only of children that are not request errors
      formats to a nil payload, so the delta (with a primary-id pattern that compiles) is
      published and answered 200 as if it had passed validation. */
  lemma ForeignOnlyErrorsArePublished(h: DeltaHandler, contextId: string, requestId: string,
                                      setup: ChOpenApiValidator.Setup, cs: seq<ValidationError>, data: string)
    requires ChOpenApiValidator.SetupPasses(setup)
    requires forall i :: 0 <= i < |cs| ==> !cs[i].RequestError?
    requires !h.doValidationOnly && h.primaryIdCompiles
    ensures var run := ChOpenApiValidator.Validate(Some(requestId), setup, Some(MultiError(cs)));
      && run.result.Returns?
      && var t := ServeHTTP(h, contextId, run.result, Success(data), Pass);
         && Status(t) == StatusOK
         && Sends(t.calls) == [SendMessage(h.topic, data, contextId, Some(h.isDelete))]
  {
    ChOpenApiValidator.ForeignOnlyErrorsReadAsValid(Some(requestId), setup, cs);
    var run := ChOpenApiValidator.Validate(Some(requestId), setup, Some(MultiError(cs)));
    PublishesAtMostOnce(h, contextId, run.result, Success(data), Pass);
  }

  /** A request error whose inner error is not an aggregate (the shape a missing required
      body takes) panics in the formatter, so the handler writes no status at all. */
  lemma MalformedRequestErrorWritesNoStatus(h: DeltaHandler, contextId: string, requestId: string,
                                            setup: ChOpenApiValidator.Setup, inner: ValidationError,
                                            body: Result<string>, send: Outcome)
    requires ChOpenApiValidator.SetupPasses(setup)
    requires !inner.MultiError?
    ensures var run := ChOpenApiValidator.Validate(Some(requestId), setup, Some(MultiError([RequestError(inner)])));
      && run.result.Panics?
      && var t := ServeHTTP(h, contextId, run.result, body, send);
         t.response == [] && t.calls == [ValidateRequest(contextId)]
  {
  }

  /** A request context without a request id panics at the validator's first line, before
      any setup step, and the handler writes no status. */
  lemma MissingRequestIdWritesNoStatus(h: DeltaHandler, contextId: string, setup: ChOpenApiValidator.Setup,
                                       check: Option<ValidationError>, body: Result<string>, send: Outcome)
    ensures var run := ChOpenApiValidator.Validate(None, setup, check);
      && run.stages == [] && run.result.Panics?
      && var t := ServeHTTP(h, contextId, run.result, body, send);
         t.response == [] && ReadBody !in t.calls && Sends(t.calls) == []
  {
  }

  /** A primary id that does not compile into a pattern panics once the body has been read:
      nothing is written and nothing is sent. */
  lemma BadPrimaryIdWritesNoStatus(h: DeltaHandler, contextId: string, reply: Run<ChOpenApiValidator.Reply>,
                                   data: string, send: Outcome)
    requires Passed(reply) && !h.doValidationOnly && !h.primaryIdCompiles
    ensures var t := ServeHTTP(h, contextId, reply, Success(data), send);
      t.response == [] && t.calls == [ValidateRequest(contextId), ReadBody]
  {
  }
}
