/** `validation/schema_testing/common/schemaUnitTesting.go`: the order-independent
    comparison of two CH error arrays used by the schema tests. Only `location` is
    compared; the arrays match when they hold the same locations the same number of times. */
module SchemaUnitTesting {
  import opened Wrappers
  import opened ErrorTree

  /** The `location` of every record, in order. */
  function Locations(errs: seq<CHError>): (r: seq<string>)
    ensures |r| == |errs|
    ensures forall i :: 0 <= i < |errs| ==> r[i] == errs[i].location
  {
    seq(|errs|, i requires 0 <= i < |errs| => errs[i].location)
  }

  /** The reference meaning of a match: equal multisets of locations. */
  ghost predicate SameLocations(actual: seq<CHError>, expected: seq<CHError>) {
    multiset(Locations(actual)) == multiset(Locations(expected))
  }

  /** A Go map lookup with the zero value for a missing key. */
  function Count(diff: map<string, int>, key: string): int {
    if key in diff then diff[key] else 0
  }

  /** `CompareActualToExpected`: rejects arrays of different length, counts the expected
      locations, then consumes one count per actual location, bailing out as soon as an
      actual location has no count left and deleting keys whose count reaches zero. */
  method CompareActualToExpected(actual: seq<CHError>, expected: seq<CHError>) returns (matched: bool)
    ensures matched <==> SameLocations(actual, expected)
    ensures |actual| != |expected| ==> !matched
  {
    var actualLocs := Locations(actual);
    var expectedLocs := Locations(expected);
    if |actual| != |expected| {
      assert |multiset(actualLocs)| != |multiset(expectedLocs)|;
      return false;
    }

    var diff := CountLocations(expectedLocs);

    var j := 0;
    while j < |actual|
      invariant 0 <= j <= |actual|
      invariant forall l :: Count(diff, l) + multiset(actualLocs[..j])[l] == multiset(expectedLocs)[l]
      invariant forall l :: l in diff ==> diff[l] > 0
    {
      var loc := actualLocs[j];
      assert actualLocs[..j + 1] == actualLocs[..j] + [loc];
      if loc !in diff {
        ExhaustedLocationMismatch(actualLocs, j, multiset(expectedLocs));
        return false;
      }
      diff := diff[loc := diff[loc] - 1];
      if diff[loc] == 0 {
        diff := diff - {loc};
      }
      j := j + 1;
    }
    assert actualLocs[..|actual|] == actualLocs;
    EmptyDiffIffEqual(diff, multiset(actualLocs), multiset(expectedLocs));
    matched := |diff| == 0;
  }

  /** The first loop: `diff[loc]++` for every expected location, a missing key counting
      as zero. Every key present has a positive count. */
  method CountLocations(locs: seq<string>) returns (diff: map<string, int>)
    ensures forall l :: Count(diff, l) == multiset(locs)[l]
    ensures forall l :: l in diff ==> diff[l] > 0
  {
    diff := map[];
    var i := 0;
    while i < |locs|
      invariant 0 <= i <= |locs|
      invariant forall l :: Count(diff, l) == multiset(locs[..i])[l]
      invariant forall l :: l in diff ==> diff[l] > 0
    {
      var loc := locs[i];
      assert locs[..i + 1] == locs[..i] + [loc];
      diff := diff[loc := Count(diff, loc) + 1];
      i := i + 1;
    }
    assert locs[..|locs|] == locs;
  }

  /** When the actual location at `j` has no count left, the actual prefix up to and
      including it already holds that location more often than the expected array. */
  lemma ExhaustedLocationMismatch(actualLocs: seq<string>, j: nat, expected: multiset<string>)
    requires j < |actualLocs|
    requires multiset(actualLocs[..j])[actualLocs[j]] == expected[actualLocs[j]]
    ensures multiset(actualLocs) != expected
  {
    var loc := actualLocs[j];
    assert actualLocs == actualLocs[..j] + [loc] + actualLocs[j + 1..];
    assert multiset(actualLocs)[loc] >= multiset(actualLocs[..j])[loc] + 1;
  }

  /** With only positive counts left, the count map is empty exactly when the consumed
      multiset equals the expected one. */
  lemma EmptyDiffIffEqual(diff: map<string, int>, actual: multiset<string>, expected: multiset<string>)
    requires forall l :: Count(diff, l) + actual[l] == expected[l]
    requires forall l :: l in diff ==> diff[l] > 0
    ensures |diff| == 0 <==> actual == expected
  {
    if |diff| == 0 {
      assert diff == map[];
      assert forall l :: actual[l] == expected[l] by {
        forall l ensures actual[l] == expected[l] {
          assert Count(diff, l) == 0;
        }
      }
    } else {
      var l :| l in diff;
      assert actual[l] < expected[l];
    }
  }

  /** Locations distribute over concatenation. */
  lemma LocationsAppend(a: seq<CHError>, b: seq<CHError>)
    ensures Locations(a + b) == Locations(a) + Locations(b)
  {
  }

  /** Taking one record out of an array takes its location out of the locations. */
  lemma LocationsRemove(b: seq<CHError>, idx: nat)
    requires idx < |b|
    ensures multiset(Locations(b)) == multiset(Locations(b[..idx] + b[idx + 1..])) + multiset{b[idx].location}
  {
    assert b == b[..idx] + [b[idx]] + b[idx + 1..];
    LocationsAppend(b[..idx] + [b[idx]], b[idx + 1..]);
    LocationsAppend(b[..idx], [b[idx]]);
    LocationsAppend(b[..idx], b[idx + 1..]);
  }

  /** Permuting the records permutes their locations. */
  lemma {:induction false} PermutationKeepsLocations(a: seq<CHError>, b: seq<CHError>)
    requires multiset(a) == multiset(b)
    ensures multiset(Locations(a)) == multiset(Locations(b))
    decreases |a|
  {
    if |a| > 0 {
      var x := a[0];
      assert x in multiset(b) by { assert x in multiset(a); }
      var idx :| 0 <= idx < |b| && b[idx] == x;
      var rest := b[..idx] + b[idx + 1..];
      assert multiset(a[1..]) == multiset(rest) by {
        assert a == [x] + a[1..];
        assert multiset(a) == multiset{x} + multiset(a[1..]);
        assert b == b[..idx] + [x] + b[idx + 1..];
        assert multiset(b) == multiset(b[..idx]) + multiset{x} + multiset(b[idx + 1..]);
        assert multiset(rest) == multiset(b[..idx]) + multiset(b[idx + 1..]);
        assert multiset(a[1..]) == multiset(a) - multiset{x};
        assert multiset(rest) == multiset(b) - multiset{x};
      }
      PermutationKeepsLocations(a[1..], rest);
      LocationsRemove(b, idx);
      LocationsRemove(a, 0);
      assert a[..0] + a[1..] == a[1..];
    }
  }

  /** The verdict does not depend on the order of either array. */
  lemma OrderIndependent(a: seq<CHError>, a': seq<CHError>, e: seq<CHError>, e': seq<CHError>)
    requires multiset(a) == multiset(a') && multiset(e) == multiset(e')
    ensures SameLocations(a, e) <==> SameLocations(a', e')
  {
    PermutationKeepsLocations(a, a');
    PermutationKeepsLocations(e, e');
  }

  /** Only locations are compared: records that differ in any other field at the same
      positions give the same verdict. */
  lemma OnlyLocationsCompared(a: seq<CHError>, a': seq<CHError>, e: seq<CHError>)
    requires |a| == |a'|
    requires forall i :: 0 <= i < |a| ==> a[i].location == a'[i].location
    ensures SameLocations(a, e) <==> SameLocations(a', e)
  {
    assert Locations(a) == Locations(a');
  }

  /** Two records with different messages at the same location match. */
  lemma ContentDifferenceUndetected()
    ensures SameLocations(
      [CHError("must be a string", None, "officers.0.age", LocationTypeJsonPath, TypeChValidation)],
      [CHError("anything else", None, "officers.0.age", "", "")])
  {
  }
}
