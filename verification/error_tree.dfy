/** The validator library's error tree, the flat CH error record built from it, and the
    two-level walk that both fully-flattening formatters perform. */
module ErrorTree {
  import opened Wrappers
  import Strings

  /** The error values the request validator returns, as the formatters see them:
      an aggregate (`openapi3.MultiError`), a request-part error wrapping an inner error
      (`*openapi3filter.RequestError`), a per-field schema violation (`*openapi3.SchemaError`)
      and any other error type. A schema error carries its reason, its JSON Pointer reference
      tokens, the violated schema keyword and the supplied value already rendered with `%v`. */
  datatype ValidationError =
    | MultiError(errors: seq<ValidationError>)
    | RequestError(err: ValidationError)
    | SchemaError(reason: string, pointer: seq<string>, schemaField: string, value: string)
    | Other(message: string)

  /** The client-facing record (`error`, `error_values`, `location`, `location_type`,
      `type`). `errorValues` is `None` for a nil map, as in the zero record. */
  datatype CHError = CHError(
    error: string,
    errorValues: Option<map<string, string>>,
    location: string,
    locationType: string,
    errorType: string)

  const LocationTypeJsonPath: string := "json-path"
  const TypeChValidation: string := "ch:validation"
  /** The schema keyword whose violations report an empty supplied value. */
  const RequiredKeyword: string := "required"

  /** `CHError{}`: every string empty and a nil `error_values` map. */
  function ZeroRecord(): CHError {
    CHError("", None, "", "", "")
  }

  /** A schema error the record builder can handle without panicking. */
  predicate Recordable(e: ValidationError) {
    e.SchemaError? && |e.pointer| > 0
  }

  /** The last reference token: the field the violation is about. */
  function FieldName(pointer: seq<string>): string
    requires |pointer| > 0
  {
    pointer[|pointer| - 1]
  }

  /** The record built from one schema error. Indexing the last pointer token panics
      on an empty pointer. */
  function BuildRecord(e: ValidationError): (r: Run<CHError>)
    requires e.SchemaError?
    ensures r.Panics? <==> |e.pointer| == 0
    ensures r.Returns? ==>
      && |r.value.error| == |e.reason|
      && '"' !in r.value.error
      && (forall i :: 0 <= i < |e.reason| && e.reason[i] != '"' ==> r.value.error[i] == e.reason[i])
      && (forall i :: 0 <= i < |e.reason| && e.reason[i] == '"' ==> r.value.error[i] == '\'')
    ensures r.Returns? ==>
      && r.value.errorValues.Some?
      && r.value.errorValues.value.Keys == {FieldName(e.pointer)}
      && (r.value.errorValues.value[FieldName(e.pointer)] == "" <==> e.schemaField == RequiredKeyword || e.value == "")
      && (e.schemaField != RequiredKeyword ==> r.value.errorValues.value[FieldName(e.pointer)] == e.value)
    ensures r.Returns? ==>
      && r.value.location == Strings.Join(e.pointer, '.')
      && r.value.locationType == LocationTypeJsonPath
      && r.value.errorType == TypeChValidation
  {
    if |e.pointer| == 0 then Panics
    else
      Strings.ReplaceAllRemoves(e.reason, '"', '\'');
      var reason := Strings.ReplaceAll(e.reason, '"', '\'');
      var jsonPath := Strings.Join(e.pointer, '.');
      var fieldName := FieldName(e.pointer);
      var fieldValue := if e.schemaField == RequiredKeyword then "" else e.value;
      Returns(CHError(reason, Some(map[fieldName := fieldValue]), jsonPath, LocationTypeJsonPath, TypeChValidation))
  }

  /** A built record still records the whole pointer: splitting its location on `.` gives
      back the reference tokens when none contains a dot, and the location ends with the
      field name that keys `error_values`. */
  lemma RecordLocationRecoversPointer(e: ValidationError)
    requires Recordable(e)
    requires forall k :: 0 <= k < |e.pointer| ==> '.' !in e.pointer[k]
    ensures Strings.Split(BuildRecord(e).value.location, '.') == e.pointer
    ensures var loc := BuildRecord(e).value.location; var f := FieldName(e.pointer);
      |f| <= |loc| && loc[|loc| - |f|..] == f
  {
    Strings.SplitJoin(e.pointer, '.');
    Strings.JoinEndsWithLast(e.pointer, '.');
  }

  /** A request error whose inner error is an aggregate of recordable schema errors:
      what both fully-flattening formatters can walk without panicking. */
  predicate WellFormedRequest(c: ValidationError) {
    && c.RequestError?
    && c.err.MultiError?
    && forall j :: 0 <= j < |c.err.errors| ==> Recordable(c.err.errors[j])
  }

  /** A top-level aggregate of well-formed request errors. */
  predicate WellFormed(e: ValidationError) {
    e.MultiError? && forall i :: 0 <= i < |e.errors| ==> WellFormedRequest(e.errors[i])
  }

  /** The inner error list of a request error (empty for anything else). */
  function InnerErrors(c: ValidationError): seq<ValidationError> {
    if c.RequestError? && c.err.MultiError? then c.err.errors else []
  }

  /** Every schema error under a list of request errors, outer then inner order. */
  function SchemaLeaves(cs: seq<ValidationError>): (r: seq<ValidationError>)
    ensures (forall i :: 0 <= i < |cs| ==> WellFormedRequest(cs[i])) ==>
      forall k :: 0 <= k < |r| ==> Recordable(r[k])
  {
    if |cs| == 0 then [] else InnerErrors(cs[0]) + SchemaLeaves(cs[1..])
  }

  /** The inner loop of the full flatteners: one record per schema error, in order;
      the first element that is not a schema error, or has an empty pointer, panics. */
  function FlattenSchemaErrors(es: seq<ValidationError>): (r: Run<seq<CHError>>)
    ensures r.Panics? <==> exists j :: 0 <= j < |es| && !Recordable(es[j])
    ensures r.Returns? ==>
      && |r.value| == |es|
      && forall k :: 0 <= k < |es| ==> r.value[k] == BuildRecord(es[k]).value
  {
    if |es| == 0 then Returns([])
    else if !es[0].SchemaError? then Panics
    else match BuildRecord(es[0])
      case Panics => Panics
      case Returns(head) =>
        match FlattenSchemaErrors(es[1..])
        case Panics => Panics
        case Returns(tail) => Returns([head] + tail)
  }

  /** The outer loop of the full flatteners: every child must be a request error wrapping
      an aggregate; the records of all children are concatenated in order. */
  function FlattenRequestErrors(cs: seq<ValidationError>): (r: Run<seq<CHError>>)
    ensures r.Panics? <==> exists i :: 0 <= i < |cs| && !WellFormedRequest(cs[i])
    ensures r.Returns? ==>
      && |r.value| == |SchemaLeaves(cs)|
      && forall k :: 0 <= k < |r.value| ==> r.value[k] == BuildRecord(SchemaLeaves(cs)[k]).value
  {
    if |cs| == 0 then Returns([])
    else if !cs[0].RequestError? || !cs[0].err.MultiError? then Panics
    else match FlattenSchemaErrors(cs[0].err.errors)
      case Panics => Panics
      case Returns(head) =>
        match FlattenRequestErrors(cs[1..])
        case Panics => Panics
        case Returns(tail) => Returns(head + tail)
  }

  /** The number of records is the sum of the inner list lengths. */
  function InnerCount(cs: seq<ValidationError>): nat {
    if |cs| == 0 then 0 else |InnerErrors(cs[0])| + InnerCount(cs[1..])
  }

  lemma {:induction false} LeavesCount(cs: seq<ValidationError>)
    ensures |SchemaLeaves(cs)| == InnerCount(cs)
  {
    if |cs| > 0 {
      LeavesCount(cs[1..]);
    }
  }
}
