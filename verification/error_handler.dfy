/** `validation/errorHandler.go`: the fully flattening formatter whose record list starts
    as an empty, non-nil array. */
module ErrorHandler {
  import opened Wrappers
  import opened ErrorTree
  import ChError

  /** `GetErrors`: a fresh list that is empty but not nil. */
  function GetErrors(): (r: Option<seq<CHError>>)
    ensures r.Some? && |r.value| == 0
  {
    Some([])
  }

  /** Flattens every schema error into one record each, in walk order. Unlike the nil-start
      copy the list is never nil, so an error tree without schema errors yields an empty
      array (`[]` on the wire). Panics on the same malformed trees. */
  function FormatError(err: ValidationError): (r: Run<Option<seq<CHError>>>)
    ensures r.Panics? <==> !WellFormed(err)
    ensures r.Returns? ==>
      && r.value.Some?
      && |r.value.value| == |SchemaLeaves(err.errors)|
      && forall k :: 0 <= k < |r.value.value| ==>
           r.value.value[k] == BuildRecord(SchemaLeaves(err.errors)[k]).value
  {
    if !err.MultiError? then Panics
    else match FlattenRequestErrors(err.errors)
      case Panics => Panics
      case Returns(records) =>
        var errorsArr := GetErrors().value;
        assert errorsArr + records == records;
        Returns(Some(errorsArr + records))
  }

  /** The two fully flattening copies agree on every input except the empty result:
      they panic on the same trees and build the same records, but where this copy
      returns an empty array the nil-start copy returns nil. */
  lemma AgreesWithNilStartCopy(err: ValidationError)
    ensures FormatError(err).Panics? <==> ChError.FormatError(err).Panics?
    ensures FormatError(err).Returns? ==>
      var records := FormatError(err).value.value;
      ChError.FormatError(err).value == (if |records| == 0 then None else Some(records))
  {
    if FormatError(err).Returns? {
      var records := FormatError(err).value.value;
      var other := ChError.FormatError(err).value;
      if other.Some? {
        assert other.value == records;
      }
    }
  }
}
