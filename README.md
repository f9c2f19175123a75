# Version of a tracked item, in Dafny

This project models the `Version` type of the domain crate (`domain/src/version.rs`).
A version is three unsigned 16-bit counters, major, minor and patch. The model covers:

- reading a version from the text `"major.minor.patch"`;
- writing it back out in that form;
- bumping it in place at one level, which zeroes every lower level;
- comparing versions field by field and copying them.

Layout:

- `wrappers.dfy`: `Result`, the model of Rust's `Result`.
- `strings.dfy`: `Split` and `Join`. `Split` is Rust's `str::split(char)` followed by `collect()`.
- `decimal.dfy`: decimal text for `u16`. `ParseU16` is the standard library's `u16` parse: empty text, a lone sign, one tolerated leading `+`, and a digit loop that stops at the first non-digit or the first overflow. `ToDecimal` is `format!("{}")`.
- `version.dfy`: `Triple`, the value of a version, with the pure `Parse`, `Format` and `Incremented`. The class `Version` has mutable `major`/`minor`/`patch` fields. `Increment` updates them in place.
- `version_examples.dfy`: the unit tests of `version.rs`, stated as lemmas and client methods.

`Version::from_string` allocates a new object here, so it is a method. It is specified by the pure function `Parse`, which the lemmas reason about. Rust copies a `Version` on assignment. In Dafny that copy is an explicit `Clone` that returns a fresh object, so incrementing the copy provably leaves the original untouched.

## Model

| member | source | states |
|---|---|---|
| `Strings.Split` | domain/src/version.rs:19 | the parts contain no `'.'`, there is always at least one, and joining them with `'.'` gives back the input |
| `Strings.SplitCount` | domain/src/version.rs:19-21 | text with n separators splits into exactly n + 1 parts, so the three-part test means exactly two dots |
| `Strings.SplitJoin` | domain/src/version.rs:19 | splitting separator-free parts joined by the separator gives back those parts |
| `Strings.JoinThree` | domain/src/version.rs:55 | three parts joined are first, separator, second, separator, third |
| `Decimal.DigitRun` | domain/src/version.rs:26-28 | the leading run of digits is all digits and is followed by a non-digit or by the end |
| `Decimal.AccumulateFrom` | domain/src/version.rs:26-28 | the parse's digit loop overflows iff the leading digit run exceeds 65535; otherwise it stops at the first non-digit, or yields the value of the digits |
| `Decimal.ParseU16Accepts` | domain/src/version.rs:26-28 | a field parses iff it is an optional `+` then one or more digits worth at most 65535; the result is their value, with leading zeros ignored |
| `Decimal.ParseU16Rejects` | domain/src/version.rs:26-28 | the error kinds: empty text is `Empty`; a lone `+` is `InvalidDigit`; a digit run over 65535 is `PosOverflow`; a non-digit reached while the value still fits is `InvalidDigit` |
| `Decimal.ToDecimal` | domain/src/version.rs:55 | a counter is written as digits without leading zeros whose value is the counter |
| `Decimal.ParseToDecimal` | domain/src/version.rs:26-28 | reading a counter written as on line 55 gives the counter back |
| `Decimal.CanonicalIsDecimal` | domain/src/version.rs:55 | digits without leading zeros are exactly what is written for their value |
| `Decimal.PrefixValue` | domain/src/version.rs:26-28 | a prefix of a digit string is worth no more than the whole, so an overflow in the loop means the whole field overflows |
| `Versions.ParseRejectsDotCount` | domain/src/version.rs:19-23 | text without exactly two dots is refused with `InvalidVersionString` carrying the input text |
| `Versions.ParseAccepts` | domain/src/version.rs:25-29 | parsing succeeds iff there are three parts and each is `u16` text; the result is major, minor, patch from the parts in that order |
| `Versions.ParseReportsFirstBadField` | domain/src/version.rs:26-28 | with three parts, the first part that is not `u16` text decides the error, which is `InvalidVersionString` carrying that parse error, as the conversion at lines 64-68 maps it |
| `Versions.FormatFields` | domain/src/version.rs:54-56 | the text is the three counters in decimal without leading zeros, and it splits on `'.'` into exactly those three |
| `Versions.RoundTrip` | domain/src/version.rs:18-56 | parsing the text of any version gives that version back |
| `Versions.FormatOfParse` | domain/src/version.rs:18-56 | writing a parsed version reproduces the input text when no field had a `+` or a leading zero |
| `Versions.IncrementedIsNextAtLevel` | domain/src/version.rs:39-52 | bumping moves a version strictly up in (major, minor, patch) order, to the least version that differs from it at that level or above |
| `Versions.Version.constructor` | domain/src/version.rs:31-37 | a new version holds exactly the given major, minor, patch |
| `Versions.Version.FromString` | domain/src/version.rs:18-30 | fails exactly when `Parse` fails, with the same error; otherwise returns a fresh version holding the parsed value |
| `Versions.Version.ToString` | domain/src/version.rs:54-56 | the text parses back to exactly this version |
| `Versions.Version.Equals` | domain/src/version.rs:4 | two versions are equal iff all three counters are equal |
| `Versions.Version.Clone` | domain/src/version.rs:4 | a copy is a new object with the same counters |
| `Versions.Version.Increment` | domain/src/version.rs:39-52 | the bumped level goes up by one, every lower level becomes 0, every higher level is unchanged; requires the bumped counter below 65535 |
| `VersionExamples.ParseExample` | domain/src/version.rs:85-90 | `"1.2.3"` reads as major 1, minor 2, patch 3 |
| `VersionExamples.FormatExample` | domain/src/version.rs:93-96 | version 1.2.3 is written `"1.2.3"` |
| `VersionExamples.TooFewPartsExample` | domain/src/version.rs:118-127 | `"1.2"` is refused, and the error carries `"1.2"` |
| `VersionExamples.EmptyFieldExample` | domain/src/version.rs:130-133 | an empty field is refused with the parser's `Empty` error |
| `VersionExamples.IncrementSequence` | domain/src/version.rs:98-115 | 1.2.3 bumped at major, then minor, then patch gives 2.0.0, then 2.1.0, then 2.1.1 |
| `VersionExamples.EqualityExample` | domain/src/version.rs:135-147 | 1.2.3 equals 1.2.3 and differs from 1.2.4 |
| `VersionExamples.CopyExample` | domain/src/version.rs:149-165 | bumping a copy of 1.2.3 at major gives 2.0.0 and leaves the original at 1.2.3 |

## Left out

- Error messages are not modelled. This covers the `Display` and `Debug` text (`domain/src/version.rs:72-78`, 168-171) and the standard library's `ParseIntError` messages. `InvalidVersionString` holds a structured detail instead of a string. The detail is either the input text or the parse error kind.
- The `u16` parse works on UTF-8 bytes. The model works on characters. The outcome is the same, because any non-ASCII byte is an invalid digit.
- `Versions.Version.Increment`: requires the bumped counter to be below 65535. Rust's `+= 1` on a `u16` at 65535 panics in debug builds and wraps to 0 in release builds. The model does not describe either outcome.
- `Version` as a Rust `Copy` value is modelled as an object with an explicit `Clone`. Implicit copies on assignment do not exist in Dafny.
- `domain/src/file_name.rs` is not part of this model. It wraps a date-time library and reads the wall clock. It also calls `Version::file_safe_string`, which `version.rs` does not define.
- `domain/src/instance.rs`, `domain/src/item.rs` and `domain/src/tag.rs` are not part of this model. They only declare data and have no operations.
- The following are not in `version.rs`, so they are not modelled: an ordering on versions, a `'-'`-separated text form, and a non-mutating "derive child" operation. `Below` exists only to state what `Increment` does.
