/** The concrete behaviour the unit tests of the version type pin down. */
module VersionExamples {
  import opened Wrappers
  import opened Decimal
  import opened Strings
  import opened Versions

  /** "1.2.3" reads as major 1, minor 2, patch 3. */
  lemma ParseExample()
    ensures Parse("1.2.3") == Ok(Triple(1, 2, 3))
  {
    FormatExample();
    RoundTrip(Triple(1, 2, 3));
  }

  /** Version 1.2.3 is written "1.2.3". */
  lemma FormatExample()
    ensures Format(Triple(1, 2, 3)) == "1.2.3"
  {
    assert ToDecimal(1) == "1" && ToDecimal(2) == "2" && ToDecimal(3) == "3";
  }

  /** "1.2" has two parts and is refused with the text itself. */
  lemma TooFewPartsExample()
    ensures Parse("1.2") == Err(InvalidVersionString(Input("1.2")))
  {
    assert Occurrences("1.2", '.') == 1;
    ParseRejectsDotCount("1.2");
  }

  /** An empty field is refused with the parser's `Empty` error. */
  lemma EmptyFieldExample()
    ensures Parse("1..3") == Err(InvalidVersionString(FieldError(Empty)))
  {
    JoinThree("1", "", "3", '.');
    assert "1" + "." + "" + "." + "3" == "1..3";
    SplitJoin(["1", "", "3"], '.');
  }

  /** Bumping 1.2.3 at major, then minor, then patch gives 2.0.0, 2.1.0, 2.1.1. */
  method IncrementSequence() returns (afterMajor: Triple, afterMinor: Triple, afterPatch: Triple)
    ensures afterMajor == Triple(2, 0, 0)
    ensures afterMinor == Triple(2, 1, 0)
    ensures afterPatch == Triple(2, 1, 1)
  {
    var v := new Version(1, 2, 3);
    v.Increment(Major);
    afterMajor := v.Value();
    v.Increment(Minor);
    afterMinor := v.Value();
    v.Increment(Patch);
    afterPatch := v.Value();
  }

  /** Versions built from the same counters are equal; from different ones, not. */
  method EqualityExample() returns (same: bool, different: bool)
    ensures same && !different
  {
    var a := new Version(1, 2, 3);
    var b := new Version(1, 2, 3);
    var c := new Version(1, 2, 4);
    same := a.Equals(b);
    different := a.Equals(c);
  }

  /** Bumping a copy leaves the original as it was. */
  method CopyExample() returns (original: Triple, copy: Triple)
    ensures original == Triple(1, 2, 3) && copy == Triple(2, 0, 0)
  {
    var v1 := new Version(1, 2, 3);
    var v2 := v1.Clone();
    v2.Increment(Major);
    original := v1.Value();
    copy := v2.Value();
  }
}
