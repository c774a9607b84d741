/** What an HTTP handler observably does: the writes it makes on the response and the
    collaborator calls it makes, in order. Shared by the three delta handlers. */
module HttpTrace {
  import opened Wrappers
  import opened ErrorTree
  import ChOpenApiValidator

  const StatusOK: int := 200
  const StatusBadRequest: int := 400
  const StatusInternalServerError: int := 500

  /** `w.WriteHeader(status)` or `w.Write(body)` with a marshalled validation payload. */
  datatype ResponseAction = WriteHeader(status: int) | WriteBody(body: seq<CHError>)

  /** A collaborator call: the validator (with the spec-path argument it was given), the
      body reader, or the message-bus send (the officer handler's send has no delete flag). */
  datatype Call =
    | ValidateRequest(specArg: string)
    | ReadBody
    | SendMessage(topic: string, data: string, contextId: string, isDelete: Option<bool>)

  datatype Trace = Trace(response: seq<ResponseAction>, calls: seq<Call>)

  /** Exactly one status is written, and it is the first write. */
  predicate OneStatusFirst(t: Trace) {
    && |t.response| > 0
    && t.response[0].WriteHeader?
    && forall k :: 0 < k < |t.response| ==> !t.response[k].WriteHeader?
  }

  /** The status a trace answers with. */
  function Status(t: Trace): int
    requires OneStatusFirst(t)
  {
    t.response[0].status
  }

  /** The message-bus sends among the calls. */
  function Sends(calls: seq<Call>): (r: seq<Call>)
    ensures forall k :: 0 <= k < |r| ==> r[k].SendMessage? && r[k] in calls
    ensures forall k :: 0 <= k < |calls| && calls[k].SendMessage? ==> calls[k] in r
  {
    if |calls| == 0 then []
    else (if calls[0].SendMessage? then [calls[0]] else []) + Sends(calls[1..])
  }

  /** A handler's calls are the validator call, possibly the body read, and possibly one
      send: the send is the only message-bus call among them, and the body read appears
      exactly when it was made. */
  lemma {:induction false} SendsOfHandlerCalls(validate: Call, readsBody: bool, send: Option<Call>)
    requires validate.ValidateRequest?
    requires send.Some? ==> send.value.SendMessage?
    ensures var calls := [validate] + (if readsBody then [ReadBody] else [])
                         + (if send.Some? then [send.value] else []);
      && (ReadBody in calls <==> readsBody)
      && Sends(calls) == (if send.Some? then [send.value] else [])
  {
    var middle := if readsBody then [ReadBody] else [];
    var last := if send.Some? then [send.value] else [];
    var calls := [validate] + middle + last;
    assert calls[1..] == middle + last;
    assert Sends(calls) == Sends(middle + last);
    if readsBody {
      assert (middle + last)[1..] == last;
      assert Sends(middle + last) == Sends(last);
    } else {
      assert middle + last == last;
    }
    if send.Some? {
      assert last[1..] == [];
      assert Sends(last) == [send.value] + Sends([]);
    }
  }

  /** The validator returned `(nil, nil)`: the request passed validation. */
  predicate Passed(reply: Run<ChOpenApiValidator.Reply>) {
    reply.Returns? && reply.value.err.None? && reply.value.payload.None?
  }

  /** The opening every handler shares: an internal validator error answers 500 and stops
      (it is checked first, so it wins over a payload); a payload answers 400 with the
      payload as the body and stops; otherwise the handler carries on (`None`). */
  function RejectInvalid(reply: ChOpenApiValidator.Reply): (r: Option<seq<ResponseAction>>)
    ensures r.Some? <==> reply.err.Some? || reply.payload.Some?
    ensures reply.err.Some? ==> r == Some([WriteHeader(StatusInternalServerError)])
    ensures reply.err.None? && reply.payload.Some? ==>
      r == Some([WriteHeader(StatusBadRequest), WriteBody(reply.payload.value)])
  {
    if reply.err.Some? then Some([WriteHeader(StatusInternalServerError)])
    else if reply.payload.Some? then Some([WriteHeader(StatusBadRequest), WriteBody(reply.payload.value)])
    else None
  }
}
