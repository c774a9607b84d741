/** `validation/schema_testing/officers/officerDeltaSchema_test.go`: a local copy of the
    comparator, line for line the same algorithm as the common one. */
module OfficerDeltaSchemaTest {
  import opened ErrorTree
  import SchemaUnitTesting

  /** `compareActualToExpected`: the same verdict as the common comparator on every input,
      namely equal multisets of locations. */
  method CompareActualToExpected(actual: seq<CHError>, expected: seq<CHError>) returns (matched: bool)
    ensures matched <==> SchemaUnitTesting.SameLocations(actual, expected)
    ensures |actual| != |expected| ==> !matched
  {
    matched := SchemaUnitTesting.CompareActualToExpected(actual, expected);
  }
}
