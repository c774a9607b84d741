/** `validation/chOpenApiValidator.go`: the validation call chain and its own formatter,
    which keeps only the first schema error of each request error. The OpenAPI machinery
    (path resolution, loading, document self-check, router, route lookup, request
    validation) is abstract: each step is given by its outcome. */
module ChOpenApiValidator {
  import opened Wrappers
  import opened ErrorTree
  import Strings

  /** `extractRequestError`: the loop returns on its first iteration, so only the first
      inner error is used; an empty inner list falls through to the zero record. A
      non-aggregate inner error, a first element that is not a schema error, or an empty
      pointer panics. */
  function ExtractRequestError(re: ValidationError): (r: Run<CHError>)
    requires re.RequestError?
    ensures r.Panics? <==>
      !re.err.MultiError? || (|re.err.errors| > 0 && !Recordable(re.err.errors[0]))
    ensures r.Returns? && |re.err.errors| == 0 ==> r.value == ZeroRecord()
    ensures r.Returns? && |re.err.errors| > 0 ==>
      r.value == BuildRecord(re.err.errors[0]).value
  {
    if !re.err.MultiError? then Panics
    else if |re.err.errors| == 0 then Returns(ZeroRecord())
    else if !re.err.errors[0].SchemaError? then Panics
    else BuildRecord(re.err.errors[0])
  }

  /** Schema errors after the first never influence the record. */
  lemma ExtractIgnoresLaterErrors(first: ValidationError, rest1: seq<ValidationError>, rest2: seq<ValidationError>)
    ensures ExtractRequestError(RequestError(MultiError([first] + rest1)))
         == ExtractRequestError(RequestError(MultiError([first] + rest2)))
  {
  }

  /** The top-level children that are request errors, in order. */
  function RequestChildren(cs: seq<ValidationError>): (r: seq<ValidationError>)
    ensures |r| <= |cs|
    ensures forall k :: 0 <= k < |r| ==> r[k].RequestError? && r[k] in cs
    ensures forall i :: 0 <= i < |cs| && cs[i].RequestError? ==> cs[i] in r
  {
    if |cs| == 0 then []
    else if cs[0].RequestError? then [cs[0]] + RequestChildren(cs[1..])
    else RequestChildren(cs[1..])
  }

  /** `extractRequestError` applied to each request error in turn; the first panic ends
      the walk. */
  function ExtractAll(rs: seq<ValidationError>): (r: Run<seq<CHError>>)
    requires forall k :: 0 <= k < |rs| ==> rs[k].RequestError?
    ensures r.Panics? <==> exists k :: 0 <= k < |rs| && ExtractRequestError(rs[k]).Panics?
    ensures r.Returns? ==>
      && |r.value| == |rs|
      && forall k :: 0 <= k < |rs| ==>
           && ExtractRequestError(rs[k]).Returns?
           && r.value[k] == ExtractRequestError(rs[k]).value
  {
    if |rs| == 0 then Returns([])
    else match ExtractRequestError(rs[0])
      case Panics => Panics
      case Returns(head) =>
        assert forall k :: 0 <= k < |rs| - 1 ==> rs[1..][k] == rs[k + 1];
        match ExtractAll(rs[1..])
        case Panics =>
          assert exists k :: 0 <= k < |rs| && ExtractRequestError(rs[k]).Panics? by {
            var j :| 0 <= j < |rs| - 1 && ExtractRequestError(rs[1..][j]).Panics?;
            assert rs[j + 1] == rs[1..][j];
          }
          Panics
        case Returns(rest) =>
          assert forall k :: 0 < k < |rs| ==> ([head] + rest)[k] == rest[k - 1];
          Returns([head] + rest)
  }

  /** The loop of `formatError`: one record per request-error child, other children
      skipped (only logged). */
  function FormatRequestErrors(cs: seq<ValidationError>): (r: Run<seq<CHError>>)
    ensures r.Panics? <==>
      exists i :: 0 <= i < |cs| && cs[i].RequestError? && ExtractRequestError(cs[i]).Panics?
    ensures r.Returns? ==>
      && |r.value| == |RequestChildren(cs)|
      && forall k :: 0 <= k < |r.value| ==>
           && ExtractRequestError(RequestChildren(cs)[k]).Returns?
           && r.value[k] == ExtractRequestError(RequestChildren(cs)[k]).value
  {
    ExtractAll(RequestChildren(cs))
  }

  /** `formatError`: the top-level error must be an aggregate (else the type assertion
      panics); no records at all gives a nil payload rather than an empty array. */
  function FormatError(err: ValidationError): (r: Run<Option<seq<CHError>>>)
    ensures r.Panics? <==>
      || !err.MultiError?
      || exists i :: 0 <= i < |err.errors| && err.errors[i].RequestError? && ExtractRequestError(err.errors[i]).Panics?
    ensures r.Returns? ==> (r.value.None? <==> |RequestChildren(err.errors)| == 0)
    ensures r.Returns? && r.value.Some? ==>
      && |r.value.value| == |RequestChildren(err.errors)|
      && forall k :: 0 <= k < |r.value.value| ==>
           && ExtractRequestError(RequestChildren(err.errors)[k]).Returns?
           && r.value.value[k] == ExtractRequestError(RequestChildren(err.errors)[k]).value
  {
    if !err.MultiError? then Panics
    else match FormatRequestErrors(err.errors)
      case Panics => Panics
      case Returns(records) => Returns(if |records| == 0 then None else Some(records))
  }

  /** On trees where every request error holds exactly one schema error this formatter and
      the full flattener build the same records. */
  lemma {:induction false} AgreesWithFullFlattenOnSingletons(cs: seq<ValidationError>)
    requires forall i :: 0 <= i < |cs| ==> WellFormedRequest(cs[i]) && |cs[i].err.errors| == 1
    ensures FormatRequestErrors(cs) == FlattenRequestErrors(cs)
  {
    if |cs| > 0 {
      AgreesWithFullFlattenOnSingletons(cs[1..]);
      var inner := cs[0].err.errors;
      assert inner == [inner[0]];
      var head := BuildRecord(inner[0]);
      assert head.Returns?;
      assert inner[1..] == [];
      assert FlattenSchemaErrors(inner[1..]) == Returns([]);
      assert [head.value] + [] == [head.value];
      assert FlattenSchemaErrors(inner) == Returns([head.value]);
      assert ExtractRequestError(cs[0]) == head;
      var t := FlattenRequestErrors(cs[1..]);
      assert forall i :: 0 <= i < |cs[1..]| ==> WellFormedRequest(cs[1..][i]) by {
        forall i | 0 <= i < |cs[1..]| ensures WellFormedRequest(cs[1..][i]) {
          assert cs[1..][i] == cs[i + 1];
        }
      }
      assert t.Returns?;
      assert FlattenRequestErrors(cs) == Returns([head.value] + t.value);
      assert FormatRequestErrors(cs) == Returns([head.value] + t.value);
    }
  }

  /** Children that are not request errors contribute nothing: an aggregate of only such
      children formats to no records. */
  lemma {:induction false} ForeignChildrenVanish(cs: seq<ValidationError>)
    requires forall i :: 0 <= i < |cs| ==> !cs[i].RequestError?
    ensures FormatRequestErrors(cs) == Returns([])
  {
    if |cs| > 0 {
      ForeignChildrenVanish(cs[1..]);
    }
  }

  /** A type violation at `officers.0.age` with the supplied value `25`, whatever its
      reason text, becomes one record located at `officers.0.age` whose only error value
      is `25` under `age`. */
  lemma TypeMismatchScenario(reason: string)
    ensures var r := FormatError(MultiError([RequestError(MultiError([
              SchemaError(reason, ["officers", "0", "age"], "type", "25")]))]));
      && r.Returns? && r.value.Some? && |r.value.value| == 1
      && r.value.value[0].location == "officers.0.age"
      && r.value.value[0].errorValues == Some(map["age" := "25"])
  {
    var leaf := SchemaError(reason, ["officers", "0", "age"], "type", "25");
    assert Strings.Join(["officers", "0", "age"], '.') == "officers.0.age" by {
      assert Strings.Join(["age"], '.') == "age";
      assert Strings.Join(["0", "age"], '.') == "0" + "." + "age";
    }
    var cs := [RequestError(MultiError([leaf]))];
    assert RequestChildren(cs) == cs by { assert cs[1..] == []; }
  }

  /** The steps before request validation, each given by its outcome. */
  datatype Setup = Setup(
    absPath: Outcome,
    loadFile: Outcome,
    validateDocument: Outcome,
    newRouter: Outcome,
    findRoute: Outcome)

  /** The collaborator calls the chain makes, in order. */
  datatype Stage = AbsPath | LoadFile | ValidateDocument | NewRouter | FindRoute | ValidateRequest

  /** The setup steps in the order the chain runs them. */
  const SetupStages: seq<Stage> := [AbsPath, LoadFile, ValidateDocument, NewRouter, FindRoute]

  /** The outcome the given setup stage produced. */
  function StageOutcome(setup: Setup, s: Stage): Outcome {
    match s
    case AbsPath => setup.absPath
    case LoadFile => setup.loadFile
    case ValidateDocument => setup.validateDocument
    case NewRouter => setup.newRouter
    case FindRoute => setup.findRoute
    case ValidateRequest => Pass
  }

  /** Every setup step succeeded. */
  predicate SetupPasses(setup: Setup) {
    && setup.absPath.Pass?
    && setup.loadFile.Pass?
    && setup.validateDocument.Pass?
    && setup.newRouter.Pass?
    && setup.findRoute.Pass?
  }

  /** The Go result pair `([]byte, error)`: a validation payload or an internal error. */
  datatype Reply = Reply(payload: Option<seq<CHError>>, err: Option<string>)

  /** The calls made and how the call ended. */
  datatype ValidationRun = ValidationRun(stages: seq<Stage>, result: Run<Reply>)

  /** `ValidateRequestAgainstOpenApiSpec`. `requestId` is the request id the request's
      context carries (`None` when it carries no string under that key, where the type
      assertion on the first line panics before any step runs). `check` is what the
      request validator returns (`None` for a nil error). A setup failure returns
      `(nil, err)` at once; a validator error is formatted and returned as
      `(payload, nil)`; no error gives `(nil, nil)`. */
  function Validate(requestId: Option<string>, setup: Setup, check: Option<ValidationError>): (r: ValidationRun)
    ensures requestId.None? ==> r.stages == [] && r.result.Panics?
    ensures ValidateRequest in r.stages <==> requestId.Some? && SetupPasses(setup)
    ensures requestId.Some? && !SetupPasses(setup) ==>
      && 0 < |r.stages| <= |SetupStages|
      && r.stages == SetupStages[..|r.stages|]
      && (forall k :: 0 <= k < |r.stages| - 1 ==> StageOutcome(setup, r.stages[k]).Pass?)
      && StageOutcome(setup, r.stages[|r.stages| - 1]).Fail?
      && r.result == Returns(Reply(None, Some(StageOutcome(setup, r.stages[|r.stages| - 1]).error)))
    ensures requestId.Some? && SetupPasses(setup) ==> r.stages == SetupStages + [ValidateRequest]
    ensures requestId.Some? && SetupPasses(setup) && check.None? ==> r.result == Returns(Reply(None, None))
    ensures requestId.Some? && SetupPasses(setup) && check.Some? ==>
      && (r.result.Panics? <==> FormatError(check.value).Panics?)
      && (r.result.Returns? ==> r.result.value == Reply(FormatError(check.value).value, None))
  {
    if requestId.None? then ValidationRun([], Panics)
    else if setup.absPath.Fail? then
      ValidationRun([AbsPath], Returns(Reply(None, Some(setup.absPath.error))))
    else if setup.loadFile.Fail? then
      ValidationRun([AbsPath, LoadFile], Returns(Reply(None, Some(setup.loadFile.error))))
    else if setup.validateDocument.Fail? then
      ValidationRun([AbsPath, LoadFile, ValidateDocument], Returns(Reply(None, Some(setup.validateDocument.error))))
    else if setup.newRouter.Fail? then
      ValidationRun([AbsPath, LoadFile, ValidateDocument, NewRouter], Returns(Reply(None, Some(setup.newRouter.error))))
    else if setup.findRoute.Fail? then
      ValidationRun(SetupStages, Returns(Reply(None, Some(setup.findRoute.error))))
    else
      var stages := SetupStages + [ValidateRequest];
      match check
      case None => ValidationRun(stages, Returns(Reply(None, None)))
      case Some(e) =>
        match FormatError(e)
        case Panics => ValidationRun(stages, Panics)
        case Returns(payload) => ValidationRun(stages, Returns(Reply(payload, None)))
  }

  /** The two channels never mix: a returned reply carries an error exactly when a setup
      step failed, and a payload only when the validator reported errors. */
  lemma ChannelsNeverMix(requestId: Option<string>, setup: Setup, check: Option<ValidationError>)
    ensures var r := Validate(requestId, setup, check).result;
      r.Returns? ==>
        && (r.value.err.Some? <==> !SetupPasses(setup))
        && (r.value.payload.Some? ==> r.value.err.None? && check.Some?)
  {
  }

  /** A validator error made only of children that are not request errors formats to
      nothing, so the chain answers exactly as for a valid request. */
  lemma ForeignOnlyErrorsReadAsValid(requestId: Option<string>, setup: Setup, cs: seq<ValidationError>)
    requires SetupPasses(setup)
    requires forall i :: 0 <= i < |cs| ==> !cs[i].RequestError?
    ensures Validate(requestId, setup, Some(MultiError(cs))).result == Validate(requestId, setup, None).result
  {
    ForeignChildrenVanish(cs);
  }
}
