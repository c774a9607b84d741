# chs-delta-api validation core in Dafny

This project models the logic of the chs-delta-api ingestion gateway that sits around its
OpenAPI request validator: how the validator's error tree becomes client-facing CH error
records, how the validation call chain keeps internal failures apart from user validation
errors, how the schema tests compare error arrays, how the service configuration is checked
and cached, and how the HTTP handlers turn all of this into status codes and message-bus
sends.

Modules, one per source file plus four shared ones:

- `Wrappers` (`wrappers.dfy`): `Option` for Go nil, `Outcome` for a bare `error`,
  `Result` for `(T, error)`, and `Run` for a computation that returns or panics.
- `Strings` (`strings.dfy`): `strings.Replace` with one-character operands and
  `strings.Join`, with `Split` as the inverse that the location round trip is stated with.
- `ErrorTree` (`error_tree.dfy`): the error tree (`MultiError`, `RequestError`,
  `SchemaError`, other errors), the `CHError` record (`error`, `error_values`,
  `location`, `location_type`, `type`), the record builder, and the two-level walk
  shared by both fully flattening formatters.
- `ChError` (`validation/chError.go`): the flattener whose list starts nil.
- `ErrorHandler` (`validation/errorHandler.go`): `GetErrors` and the flattener whose
  list starts empty.
- `ChOpenApiValidator` (`validation/chOpenApiValidator.go`): `extractRequestError`,
  `formatError` and the `ValidateRequestAgainstOpenApiSpec` chain.
- `SchemaUnitTesting` and `OfficerDeltaSchemaTest`: the location-multiset comparator and
  its local copy.
- `Config` (`config/config.go`): `validateConfigs` and the `Get` cache.
- `HttpTrace`, `DeltaHandler`, `OfficerDeltaHandler`, `DeltaValidationHandler`: the
  handlers as functions from collaborator outcomes to a trace of response writes and calls.

Go panics are modelled explicitly. A failed type assertion or an index into an empty
JSON Pointer makes the formatter return `Panics` rather than being excluded by a
precondition, so each formatter's contract says exactly which trees make it panic. A panic in the validator propagates through the handlers, which then write no status. The Go
nil slice is `None` and the empty slice is `Some([])`. This keeps the `null` versus `[]`
difference between the two fully flattening copies. It also keeps the nil payload of
`formatError`.

The three flatteners behave differently, and the model keeps all three:
- `formatError` records only the first schema error of each request error and skips other
  children.
- Both `FormatError` copies record every schema error.
- A consequence of skipping is proved: a validator error whose children are all foreign is
  formatted to a nil payload. The chain then answers `(nil, nil)`, the same as a valid
  request, and the delta handler publishes the delta and answers 200
  (`ChOpenApiValidator.ForeignOnlyErrorsReadAsValid`,
  `DeltaHandler.ForeignOnlyErrorsArePublished`).

Facts about the source as written that the model keeps:
- The validator has no load-once document cache, no parse-error or missing-body records and
  no fallback record for unknown errors. A request error whose inner error is not an
  aggregate panics in the formatter, and the panic reaches the handler, which writes no
  status (`DeltaHandler.MalformedRequestErrorWritesNoStatus`).
- `Get` caches the config before loading it and never clears it. A failed `Get` is
  therefore followed by one that returns the unvalidated config
  (`Config.FailedGetPoisonsCache`).

## Model

| member | source | states |
|---|---|---|
| Strings.ReplaceAll | validation/chOpenApiValidator.go:154 | the reason keeps its length; each `"` becomes `'` at the same position and every other character is unchanged |
| Strings.ReplaceAllRemoves | validation/chError.go:32 | after the replacement no `"` is left in the reason |
| Strings.ReplaceAllIdempotent | validation/errorHandler.go:31 | replacing twice gives the same reason as replacing once |
| Strings.Join | validation/chOpenApiValidator.go:155 | Go's `strings.Join`: no tokens give the empty string and a single token is returned unchanged; its round trip is `Strings.SplitJoin` |
| Strings.JoinSeparatorCount | validation/chOpenApiValidator.go:155 | joining dot-free tokens puts exactly one separator between each pair, so the location holds one dot fewer than there are tokens |
| Strings.SplitJoin | validation/chOpenApiValidator.go:155 | joining reference tokens with `.` loses nothing when no token contains a dot: splitting gives the tokens back |
| Strings.JoinEndsWithLast | validation/chOpenApiValidator.go:155-156 | the joined location ends with the last token, the field name that keys `error_values` |
| Strings.DottedTokenAmbiguity | validation/chError.go:33 | a token containing a dot yields the same location as two tokens |
| ErrorTree.BuildRecord | validation/chOpenApiValidator.go:153-175 | panics exactly on an empty pointer; otherwise `error` has no `"` and matches the reason position by position with `"` as `'`; `location` is the `.`-joined pointer; `error_values` has the last token as its only key, whose value is `""` for `required` and the supplied value otherwise; the constants are `json-path` and `ch:validation` |
| ErrorTree.RecordLocationRecoversPointer | validation/chError.go:33-34 | a built record's location splits back into the pointer and ends with its `error_values` key |
| ErrorTree.FlattenSchemaErrors | validation/chError.go:28-55 | the inner loop panics iff some element is not a schema error with a non-empty pointer; otherwise it builds one record per element, in order |
| ErrorTree.FlattenRequestErrors | validation/chError.go:24-56 | the outer loop panics iff some child is not a request error wrapping an aggregate of recordable schema errors; otherwise record k is built from the k-th schema error in outer-then-inner order, and there are as many records as schema errors |
| ErrorTree.LeavesCount | validation/chError.go:24-55 | the number of schema errors walked is the sum of the inner list lengths |
| ChError.FormatError | validation/chError.go:20-66 | panics iff the tree is not an aggregate of well-formed request errors; the list stays nil iff there is no schema error; otherwise one record per schema error in walk order |
| ErrorHandler.GetErrors | validation/errorHandler.go:21-23 | the starting list is empty but not nil |
| ErrorHandler.FormatError | validation/errorHandler.go:25-53 | panics on the same trees as the nil-start copy; otherwise always a non-nil list with one record per schema error in walk order |
| ErrorHandler.AgreesWithNilStartCopy | validation/errorHandler.go:21-26 | the two full flatteners panic together and build the same records; they differ only where one returns an empty array and the other nil |
| ChOpenApiValidator.ExtractRequestError | validation/chOpenApiValidator.go:148-182 | panics iff the inner error is not an aggregate or its first element is not a recordable schema error; an empty inner list gives the zero record; otherwise the record of the first schema error |
| ChOpenApiValidator.ExtractIgnoresLaterErrors | validation/chOpenApiValidator.go:150-178 | schema errors after the first never change the extracted record |
| ChOpenApiValidator.ExtractAll | validation/chOpenApiValidator.go:120-126 | extracting each request error in turn gives one record per error in order, and panics iff some extraction panics |
| ChOpenApiValidator.FormatRequestErrors | validation/chOpenApiValidator.go:120-131 | one record per request-error child in order and nothing for any other child; panics iff extracting some request-error child panics |
| ChOpenApiValidator.FormatError | validation/chOpenApiValidator.go:115-146 | panics iff the top level is not an aggregate or extracting some request-error child panics; the payload is nil iff there is no request-error child, otherwise the records of the request-error children |
| ChOpenApiValidator.TypeMismatchScenario | validation/chOpenApiValidator.go:153-175 | a type violation on the value `25` at `officers.0.age`, whatever its reason text, gives exactly one record, located at `officers.0.age`, with `{"age": "25"}` as its error values |
| ChOpenApiValidator.AgreesWithFullFlattenOnSingletons | validation/chOpenApiValidator.go:150-177 | when every request error holds exactly one schema error, first-only extraction builds the same records as the full flattener |
| ChOpenApiValidator.ForeignChildrenVanish | validation/chOpenApiValidator.go:123-130 | children that are not request errors contribute no records |
| ChOpenApiValidator.Validate | validation/chOpenApiValidator.go:44-113 | a request context without a string request id panics before any step; otherwise, when every setup step passes, the five setup steps run in order followed by exactly one request-validator call, and the validator is called only then; a setup failure stops at the first failing step and returns `(nil, its error)`; a validator error returns `(formatted payload, nil)` unless formatting panics; no validator error returns `(nil, nil)` |
| ChOpenApiValidator.ChannelsNeverMix | validation/chOpenApiValidator.go:51-111 | a returned reply carries an error exactly when a setup step failed, and a payload only with a nil error and a validator error |
| ChOpenApiValidator.ForeignOnlyErrorsReadAsValid | validation/chOpenApiValidator.go:103-136 | a validator error with only foreign children gets the same answer as a valid request |
| SchemaUnitTesting.CompareActualToExpected | validation/schema_testing/common/schemaUnitTesting.go:47-85 | true iff the multisets of actual and expected locations are equal; arrays of different length never match |
| SchemaUnitTesting.CountLocations | validation/schema_testing/common/schemaUnitTesting.go:62-69 | after the first loop each location's count is its number of occurrences in the expected array, and every key left has a positive count |
| SchemaUnitTesting.ExhaustedLocationMismatch | validation/schema_testing/common/schemaUnitTesting.go:72-76 | the early `false` for an actual location with no count left is correct: the multisets differ |
| SchemaUnitTesting.EmptyDiffIffEqual | validation/schema_testing/common/schemaUnitTesting.go:77-84 | with zero-count keys deleted, the map is empty iff the consumed multiset equals the expected one |
| SchemaUnitTesting.PermutationKeepsLocations | validation/schema_testing/common/schemaUnitTesting.go:44-46 | permuting the records permutes their locations |
| SchemaUnitTesting.OrderIndependent | validation/schema_testing/common/schemaUnitTesting.go:44-46 | the verdict is unchanged by any permutation of either array |
| SchemaUnitTesting.OnlyLocationsCompared | validation/schema_testing/common/schemaUnitTesting.go:66-80 | records that differ only in fields other than `location` give the same verdict |
| SchemaUnitTesting.ContentDifferenceUndetected | validation/schema_testing/common/schemaUnitTesting.go:66-80 | two records with different messages at the same location match |
| OfficerDeltaSchemaTest.CompareActualToExpected | validation/schema_testing/officers/officerDeltaSchema_test.go:196-234 | the local copy gives the common comparator's verdict on every input: equal location multisets, false on a length mismatch |
| Config.Reports | config/config.go:66-136 | running a list of checks reports a name iff some check of that name finds its field empty, at most one name per check, and something iff some check fires |
| Config.UnsetVariables | config/config.go:66-136 | every check runs, so a variable is reported iff its checked field is empty; something is reported iff a mandatory field is missing |
| Config.ValidateConfigs | config/config.go:64-143 | returns the fixed error iff one of the fourteen checked fields is empty (an empty string, or an empty broker list) |
| Config.UncheckedTopicsIgnored | config/config.go:30-31 | the company and exemption topics never affect the verdict |
| Config.Get | config/config.go:41-62 | a cached config comes back with a nil error and nothing runs; otherwise the loaded struct is cached before loading; a loader failure returns `(nil, the loader's error)` without validating; otherwise a missing mandatory field returns `(nil, "mandatory configs missing from environment")`; success returns the cached config; the cache is never empty afterwards |
| Config.FailedGetPoisonsCache | config/config.go:49-59 | after a failed first `Get`, the next `Get` returns the same unvalidated config with no error |
| Config.FreshConfigIsValid | config/config.go:56-61 | a config that is loaded fresh and returned has every mandatory field set |
| Config.PoisonedConfigCanBeEmpty | config/config.go:45-59 | an all-empty config is handed out without error once a first `Get` has failed on it |
| HttpTrace.RejectInvalid | handlers/deltaHandler.go:66-79 | an internal validator error gives 500 and wins over a payload; a payload gives 400 with the payload as the body; otherwise the handler carries on |
| DeltaHandler.ServeHTTP | handlers/deltaHandler.go:59-115 | the calls are exactly one validator call, then one body read iff validation passed and the handler is not validate-only, then one send (of the body read, to the handler's topic, with its delete flag) iff the body was read and the handler's primary-id pattern compiles; nothing is written iff the validator panics or, after a successful read, the pattern does not compile; otherwise exactly one status, written first: 500 iff a validator error, a body-read failure or a send failure; 400 iff a payload, with it as the body; 200 otherwise |
| DeltaHandler.Publish | handlers/deltaHandler.go:82-114 | after validation: the body is read once; a read failure answers 500; a pattern that does not compile writes nothing and sends nothing; otherwise one send, answered 200 or 500 by its outcome |
| DeltaHandler.PublishesAtMostOnce | handlers/deltaHandler.go:82-110 | the body is read iff validation passed in a publishing handler, and the only send is the body read, on the handler's topic with its delete flag |
| DeltaHandler.BadPrimaryIdWritesNoStatus | handlers/deltaHandler.go:96 | a primary id that does not compile into a pattern panics after the body read: nothing is written and nothing is sent |
| DeltaHandler.SetupFailureIsInternalError | handlers/deltaHandler.go:66-70 | a failed setup step of the validation chain ends in 500 with no body read and no send |
| DeltaHandler.SchemaViolationIsBadRequest | handlers/deltaHandler.go:71-79 | a validator error with a request-error child ends in 400 with the formatted records as the body and no send |
| DeltaHandler.ForeignOnlyErrorsArePublished | handlers/deltaHandler.go:82-114 | a validator error made only of foreign children is published and answered 200 |
| DeltaHandler.MalformedRequestErrorWritesNoStatus | validation/chOpenApiValidator.go:148-150 | a request error whose inner error is not an aggregate panics in the formatter, and the handler writes no status and makes no further call |
| DeltaHandler.MissingRequestIdWritesNoStatus | validation/chOpenApiValidator.go:46 | a request context with no request id panics before any setup step, and the handler writes no status, reads nothing and sends nothing |
| OfficerDeltaHandler.ServeHTTP | handlers/officerDeltaHandler.go:30-70 | the calls are exactly one validator call with the configured spec path, then one body read iff validation passed and the handler is not validate-only, then one send of the body read to the configured officer topic with no delete flag iff the read succeeded; nothing is written iff the validator panics; otherwise the same status table as the delta handler |
| OfficerDeltaHandler.PublishesAtMostOnce | handlers/officerDeltaHandler.go:52-66 | the body is read iff validation passed in a publishing handler, and the only send is the body read, on the configured officer topic with no delete flag |
| DeltaValidationHandler.ServeHTTP | handlers/deltaValidationHandler.go:27-50 | nothing is written iff the validator panics; otherwise 500 iff a validator error, 400 iff a payload (written as the body), 200 otherwise; the validator is the only collaborator called, so nothing is read or published |

## Left out

- The OpenAPI machinery is left out: path resolution, file loading with `$ref`s, document self-validation, router construction, route matching and request validation. These are foreign library calls. Each appears only as its outcome (`ChOpenApiValidator.Setup` and the `check` argument).
- JSON marshalling and unmarshalling are left out. Records stay as sequences. `json.Marshal` of these records cannot fail, so the marshal-error branches that return nil are not modelled. The comparator takes the decoded arrays, so a `null` or undecodable input (which dereferences a nil pointer in the test helper) is not modelled.
- `fmt.Sprintf("%v", value)` is left out. A schema error carries the supplied value already rendered as a string.
- Logging is left out, except the `... not set in environment` lines of `validateConfigs`, which are modelled as the list of reported names (`Config.UnsetVariables`). Also left out is the failure of `w.Write`, which is only logged. The primary-id regular expression in the delta handler only feeds a log line once it is built, but building it with `regexp.MustCompile` panics when `primaryId` is not a valid pattern fragment; the handler carries `primaryIdCompiles` in place of `primaryId`, fixed when it is constructed, because regular-expression syntax is not modelled.
- The mutex in `Get` is left out, because concurrency is out of scope. `Get` is modelled as a sequential state step.
- `CallValidateConfig` is fixed to `validateConfigs`, its default. Environment and flag parsing is an input: the struct it populated and its error.
- The handlers' request-id extraction is an input (`contextId`). The delta handler passes that request id as the validator's spec-path argument, as written; the model records the argument and takes the validator's outcome (a reply or a panic) as an input. The validator reads the request id separately from the request context, and `ChOpenApiValidator.Validate` takes it as an input that may be absent.
- `services/kafkaService.go`, `main.go`, route registration, middleware and the raw officers handler are left out. They are plumbing around the network and the HTTP server.
