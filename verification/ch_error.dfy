/** `validation/chError.go`: the fully flattening formatter whose record list starts nil. */
module ChError {
  import opened Wrappers
  import opened ErrorTree

  /** Flattens every schema error of every request error into one record each, outer then
      inner order. The list starts nil and stays nil when no schema error is found
      (`json.Marshal` then renders it as `null`). Panics unless the tree is a top-level
      aggregate of request errors wrapping aggregates of schema errors with non-empty
      pointers. */
  function FormatError(err: ValidationError): (r: Run<Option<seq<CHError>>>)
    ensures r.Panics? <==> !WellFormed(err)
    ensures r.Returns? ==> (r.value.None? <==> |SchemaLeaves(err.errors)| == 0)
    ensures r.Returns? && r.value.Some? ==>
      && |r.value.value| == |SchemaLeaves(err.errors)|
      && forall k :: 0 <= k < |r.value.value| ==>
           r.value.value[k] == BuildRecord(SchemaLeaves(err.errors)[k]).value
  {
    if !err.MultiError? then Panics
    else match FlattenRequestErrors(err.errors)
      case Panics => Panics
      case Returns(records) => Returns(if |records| == 0 then None else Some(records))
  }
}
