/**
 * The version of a tracked item: three 16-bit counters, major.minor.patch,
 * read from and written to the text form "major.minor.patch", and bumped in
 * place one level at a time.
 */
module Versions {
  import opened Wrappers
  import opened Decimal
  import opened Strings

  /** The level a version is bumped at. */
  datatype VersionChange = Major | Minor | Patch

  /**
   * What an `InvalidVersionString` carries: the whole input when it does not
   * have three dot-separated parts, or the integer parser's error for the
   * first field that is not a `u16`.
   */
  datatype Detail = Input(text: string) | FieldError(kind: IntErrorKind)

  datatype VersionError = InvalidVersionString(detail: Detail)

  /** The three counters of a version as a value; versions compare equal field by field. */
  datatype Triple = Triple(major: U16, minor: U16, patch: U16)

  /** `Version::from_string` on values: split on '.', demand three parts, parse major, minor, patch in that order. */
  function Parse(text: string): Result<Triple, VersionError> {
    var parts := Split(text, '.');
    if |parts| != 3 then Err(InvalidVersionString(Input(text)))
    else
      match ParseU16(parts[0])
      case Err(kind) => Err(InvalidVersionString(FieldError(kind)))
      case Ok(major) =>
        match ParseU16(parts[1])
        case Err(kind) => Err(InvalidVersionString(FieldError(kind)))
        case Ok(minor) =>
          match ParseU16(parts[2])
          case Err(kind) => Err(InvalidVersionString(FieldError(kind)))
          case Ok(patch) => Ok(Triple(major, minor, patch))
  }

  /** `Version::to_string` on values. */
  function Format(t: Triple): string {
    ToDecimal(t.major) + "." + ToDecimal(t.minor) + "." + ToDecimal(t.patch)
  }

  /** Bumping at `change` keeps the bumped counter inside `u16`. */
  predicate CanIncrement(t: Triple, change: VersionChange) {
    match change
    case Major => t.major < MaxU16
    case Minor => t.minor < MaxU16
    case Patch => t.patch < MaxU16
  }

  /** What `increment` leaves behind: the level bumped, every lower level zero. */
  function Incremented(t: Triple, change: VersionChange): Triple
    requires CanIncrement(t, change)
  {
    match change
    case Major => Triple(t.major + 1, 0, 0)
    case Minor => Triple(t.major, t.minor + 1, 0)
    case Patch => Triple(t.major, t.minor, t.patch + 1)
  }

  /** Lexicographic order on (major, minor, patch). */
  predicate Below(a: Triple, b: Triple) {
    a.major < b.major
    || (a.major == b.major && a.minor < b.minor)
    || (a.major == b.major && a.minor == b.minor && a.patch < b.patch)
  }

  /** `b` differs from `a` at level `change` or at a higher one. */
  predicate DiffersAtOrAbove(a: Triple, b: Triple, change: VersionChange) {
    match change
    case Major => a.major != b.major
    case Minor => a.major != b.major || a.minor != b.minor
    case Patch => a != b
  }

  /** A text whose split on '.' gives a different number of parts than three is refused, carrying the text itself. */
  lemma ParseRejectsDotCount(text: string)
    requires Occurrences(text, '.') != 2
    ensures Parse(text) == Err(InvalidVersionString(Input(text)))
  {
    SplitCount(text, '.');
  }

  /**
   * Parse succeeds exactly when the text has three dot-separated parts that
   * are each `u16` text, and then yields those numbers as major, minor, patch.
   */
  lemma ParseAccepts(text: string)
    ensures Parse(text).Ok? <==>
      var parts := Split(text, '.');
      |parts| == 3 && IsU16Text(parts[0]) && IsU16Text(parts[1]) && IsU16Text(parts[2])
    ensures Parse(text).Ok? ==>
      var parts := Split(text, '.');
      Parse(text).value == Triple(U16Value(parts[0]), U16Value(parts[1]), U16Value(parts[2]))
  {
    var parts := Split(text, '.');
    if |parts| == 3 {
      ParseU16Accepts(parts[0]);
      ParseU16Accepts(parts[1]);
      ParseU16Accepts(parts[2]);
    }
  }

  /** With three parts, the first part that is not `u16` text decides the error, which carries the parser's error. */
  lemma ParseReportsFirstBadField(text: string, i: nat)
    requires |Split(text, '.')| == 3 && i < 3
    requires !IsU16Text(Split(text, '.')[i])
    requires forall j :: 0 <= j < i ==> IsU16Text(Split(text, '.')[j])
    ensures ParseU16(Split(text, '.')[i]).Err?
    ensures Parse(text) == Err(InvalidVersionString(FieldError(ParseU16(Split(text, '.')[i]).error)))
  {
    var parts := Split(text, '.');
    ParseU16Accepts(parts[0]);
    ParseU16Accepts(parts[1]);
    ParseU16Accepts(parts[2]);
  }

  /** The text form is the three counters in decimal without leading zeros, and splits back into exactly them. */
  lemma FormatFields(t: Triple)
    ensures Split(Format(t), '.') == [ToDecimal(t.major), ToDecimal(t.minor), ToDecimal(t.patch)]
    ensures Canonical(ToDecimal(t.major)) && Canonical(ToDecimal(t.minor)) && Canonical(ToDecimal(t.patch))
  {
    var parts := [ToDecimal(t.major), ToDecimal(t.minor), ToDecimal(t.patch)];
    forall i | 0 <= i < 3 ensures '.' !in parts[i] {
      assert AllDigits(parts[i]) && !IsDigit('.');
    }
    JoinThree(parts[0], parts[1], parts[2], '.');
    SplitJoin(parts, '.');
  }

  /** Reading back a written version gives the same version. */
  lemma RoundTrip(t: Triple)
    ensures Parse(Format(t)) == Ok(t)
  {
    FormatFields(t);
    ParseToDecimal(t.major);
    ParseToDecimal(t.minor);
    ParseToDecimal(t.patch);
  }

  /** Writing a parsed version reproduces its text when the fields had no '+' and no leading zeros. */
  lemma FormatOfParse(text: string)
    requires Parse(text).Ok?
    requires forall i :: 0 <= i < |Split(text, '.')| ==> Canonical(Split(text, '.')[i])
    ensures Format(Parse(text).value) == text
  {
    var parts := Split(text, '.');
    ParseAccepts(text);
    var t := Parse(text).value;
    forall i | 0 <= i < 3 ensures Unsigned(parts[i]) == parts[i] && ToDecimal(Value(parts[i])) == parts[i] {
      CanonicalIsDecimal(parts[i]);
    }
    assert parts == [parts[0], parts[1], parts[2]];
    JoinThree(parts[0], parts[1], parts[2], '.');
  }

  /** Bumping moves a version strictly up, to the least version that differs from it at that level or above. */
  lemma IncrementedIsNextAtLevel(t: Triple, change: VersionChange, u: Triple)
    requires CanIncrement(t, change)
    ensures Below(t, Incremented(t, change)) && DiffersAtOrAbove(t, Incremented(t, change), change)
    ensures Below(t, u) && DiffersAtOrAbove(t, u, change) ==> !Below(u, Incremented(t, change))
  {
  }

  /**
   * A version whose counters change in place. Rust copies the struct on
   * assignment; here a copy is an explicit `Clone`, a fresh object.
   */
  class Version {
    var major: U16
    var minor: U16
    var patch: U16

    /** The counters as a value. */
    function Value(): Triple
      reads this
    {
      Triple(major, minor, patch)
    }

    /** `Version::new`. */
    constructor (major: U16, minor: U16, patch: U16)
      ensures Value() == Triple(major, minor, patch)
    {
      this.major := major;
      this.minor := minor;
      this.patch := patch;
    }

    /** `Version::from_string`: a new version holding what `text` denotes, or the error `Parse` reports. */
    static method FromString(text: string) returns (r: Result<Version, VersionError>)
      ensures r.Err? <==> Parse(text).Err?
      ensures r.Err? ==> r.error == Parse(text).error
      ensures r.Ok? ==> fresh(r.value) && r.value.Value() == Parse(text).value
    {
      match Parse(text)
      case Err(e) =>
        r := Err(e);
      case Ok(t) =>
        var v := new Version(t.major, t.minor, t.patch);
        r := Ok(v);
    }

    /** `Version::to_string`: text that parses back to exactly this version. */
    function ToString(): (s: string)
      reads this
      ensures Parse(s) == Ok(Value())
    {
      RoundTrip(Value());
      Format(Value())
    }

    /** Derived `PartialEq`: field-wise comparison. */
    predicate Equals(other: Version)
      reads this, other
      ensures Equals(other) <==> Value() == other.Value()
    {
      major == other.major && minor == other.minor && patch == other.patch
    }

    /** Derived `Clone` (and the implicit copy): a new object with the same counters. */
    method Clone() returns (c: Version)
      ensures fresh(c) && c.Value() == Value()
    {
      c := new Version(major, minor, patch);
    }

    /** `Version::increment`: bump one level, zero every lower level. */
    method Increment(change: VersionChange)
      requires CanIncrement(Value(), change)
      modifies this
      ensures Value() == Incremented(old(Value()), change)
    {
      match change
      case Major =>
        major := major + 1;
        minor := 0;
        patch := 0;
      case Minor =>
        minor := minor + 1;
        patch := 0;
      case Patch =>
        patch := patch + 1;
    }
  }
}
