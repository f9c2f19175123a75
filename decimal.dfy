/**
 * Decimal text for 16-bit unsigned integers: the parse Rust's standard
 * library runs for `"…".parse::<u16>()` and the rendering `format!("{}")`
 * produces.
 */
module Decimal {
  import opened Wrappers

  const MaxU16: nat := 65535

  /** Rust's `u16`. */
  type U16 = n: nat | n <= MaxU16

  /** Why the integer parse refused its text (the kinds an unsigned parse can report). */
  datatype IntErrorKind = Empty | InvalidDigit | PosOverflow

  predicate IsDigit(c: char) {
    '0' <= c <= '9'
  }

  function DigitValue(c: char): (d: nat)
    requires IsDigit(c)
    ensures d <= 9
  {
    c as int - '0' as int
  }

  function DigitChar(d: nat): (c: char)
    requires d <= 9
    ensures IsDigit(c) && DigitValue(c) == d
  {
    ('0' as int + d) as char
  }

  predicate AllDigits(s: string) {
    forall i :: 0 <= i < |s| ==> IsDigit(s[i])
  }

  /** The number a run of decimal digits denotes, most significant digit first. */
  function Value(s: string): nat
    requires AllDigits(s)
    decreases |s|
  {
    if s == [] then 0 else Value(s[..|s| - 1]) * 10 + DigitValue(s[|s| - 1])
  }

  /** The text after the one leading '+' the parse tolerates. */
  function Unsigned(s: string): string {
    if |s| > 0 && s[0] == '+' then s[1..] else s
  }

  /** Text the `u16` parse accepts: an optional '+', then at least one digit, denoting at most 65535. */
  predicate IsU16Text(s: string) {
    var d := Unsigned(s);
    |d| > 0 && AllDigits(d) && Value(d) <= MaxU16
  }

  /** The number accepted text denotes; leading zeros do not matter. */
  function U16Value(s: string): U16
    requires IsU16Text(s)
  {
    Value(Unsigned(s))
  }

  /** Digits without leading zeros, the form `format!("{}")` writes. */
  predicate Canonical(s: string) {
    |s| > 0 && AllDigits(s) && (s[0] == '0' ==> |s| == 1)
  }

  /** How many digits `s` starts with. */
  function DigitRun(s: string): (k: nat)
    ensures k <= |s| && AllDigits(s[..k])
    ensures k < |s| ==> !IsDigit(s[k])
    decreases |s|
  {
    if s == [] || !IsDigit(s[0]) then 0
    else
      var k := 1 + DigitRun(s[1..]);
      assert forall i :: 1 <= i < k ==> s[..k][i] == s[1..][..k - 1][i - 1];
      k
  }

  /**
   * The digit loop of the parse: left to right, `acc * 10 + digit` with
   * checked arithmetic, stopping at the first character that is not a
   * digit or at the first step that leaves the `u16` range.
   */
  function Accumulate(digits: string, acc: U16): Result<U16, IntErrorKind>
    decreases |digits|
  {
    if digits == [] then Ok(acc)
    else if !IsDigit(digits[0]) then Err(InvalidDigit)
    else
      var next := acc * 10 + DigitValue(digits[0]);
      if next > MaxU16 then Err(PosOverflow) else Accumulate(digits[1..], next)
  }

  /**
   * `<u16 as FromStr>::from_str`: empty text is `Empty`; a lone sign is
   * `InvalidDigit`; one leading '+' is skipped ('-' is not, and is then an
   * invalid digit); the rest goes through the digit loop.
   */
  function ParseU16(s: string): Result<U16, IntErrorKind> {
    if s == [] then Err(Empty)
    else if s == "+" || s == "-" then Err(InvalidDigit)
    else Accumulate(Unsigned(s), 0)
  }

  /** `format!("{}", n)`: the decimal digits of `n`. */
  function ToDecimal(n: nat): (s: string)
    ensures Canonical(s) && Value(s) == n
    decreases n
  {
    if n < 10 then [DigitChar(n)]
    else
      var p := ToDecimal(n / 10);
      var s := p + [DigitChar(n % 10)];
      assert s[..|s| - 1] == p;
      s
  }

  /** The value of a prefix of digits is at most the value of the whole. */
  lemma {:induction false} PrefixValue(s: string, j: nat)
    requires AllDigits(s) && j <= |s|
    ensures AllDigits(s[..j]) && Value(s[..j]) <= Value(s)
    decreases |s|
  {
    if j < |s| {
      var p := s[..|s| - 1];
      PrefixValue(p, j);
      assert p[..j] == s[..j];
    } else {
      assert s[..j] == s;
    }
  }

  /**
   * Where the digit loop ends, from any point inside the leading digit run
   * of `d` whose value so far fits: overflow if the run's value exceeds
   * 65535, otherwise an invalid digit if the run stops early, otherwise the
   * value of `d`.
   */
  lemma {:induction false} AccumulateFrom(d: string, j: nat)
    requires j <= DigitRun(d)
    requires AllDigits(d[..j]) && Value(d[..j]) <= MaxU16
    ensures Accumulate(d[j..], Value(d[..j])) ==
      var k := DigitRun(d);
      if Value(d[..k]) > MaxU16 then Err(PosOverflow)
      else if k < |d| then Err(InvalidDigit)
      else Ok(Value(d[..k]))
    decreases |d| - j
  {
    var k := DigitRun(d);
    if j == k {
      if k < |d| {
        assert d[j..][0] == d[k];
      } else {
        assert d[j..] == [];
      }
    } else {
      var p := d[..j + 1];
      assert p[..j] == d[..j];
      assert d[j..][0] == d[j];
      assert d[j..][1..] == d[j + 1..];
      assert d[..k][..j + 1] == p;
      PrefixValue(d[..k], j + 1);
      if Value(p) <= MaxU16 {
        AccumulateFrom(d, j + 1);
      }
    }
  }

  /** The digit loop started at zero on `d`. */
  lemma AccumulateWhole(d: string)
    ensures Accumulate(d, 0) ==
      var k := DigitRun(d);
      if Value(d[..k]) > MaxU16 then Err(PosOverflow)
      else if k < |d| then Err(InvalidDigit)
      else Ok(Value(d[..k]))
  {
    assert d[..0] == [] && d[0..] == d;
    AccumulateFrom(d, 0);
  }

  /** The parse succeeds exactly on `u16` text, and yields the number the text denotes. */
  lemma ParseU16Accepts(s: string)
    ensures ParseU16(s).Ok? <==> IsU16Text(s)
    ensures ParseU16(s).Ok? ==> ParseU16(s).value == U16Value(s)
  {
    if s != [] && s != "+" && s != "-" {
      var d := Unsigned(s);
      AccumulateWhole(d);
      var k := DigitRun(d);
      if k == |d| {
        assert d[..k] == d;
      } else {
        assert !AllDigits(d);
      }
    }
  }

  /**
   * Why the parse fails: no text at all; a digit run that overflows before
   * any other character stops it; or a character that is not a digit (a
   * lone or doubled sign, a '-', a letter, a space) reached while the value
   * read so far still fits.
   */
  lemma ParseU16Rejects(s: string)
    ensures s == [] ==> ParseU16(s) == Err(Empty)
    ensures s != [] && Unsigned(s) == [] ==> ParseU16(s) == Err(InvalidDigit)
    ensures var d := Unsigned(s); var k := DigitRun(d);
      s != [] && Value(d[..k]) > MaxU16 ==> ParseU16(s) == Err(PosOverflow)
    ensures var d := Unsigned(s); var k := DigitRun(d);
      s != [] && 0 < |d| && k < |d| && Value(d[..k]) <= MaxU16 ==> ParseU16(s) == Err(InvalidDigit)
  {
    if s != [] && s != "+" && s != "-" {
      AccumulateWhole(Unsigned(s));
    }
  }

  /** Reading back what `format!("{}")` wrote gives the number again. */
  lemma ParseToDecimal(n: U16)
    ensures ParseU16(ToDecimal(n)) == Ok(n)
  {
    var s := ToDecimal(n);
    assert Unsigned(s) == s;
    ParseU16Accepts(s);
  }

  /** Digits without leading zeros are exactly what `format!("{}")` writes for their value. */
  lemma {:induction false} CanonicalIsDecimal(s: string)
    requires Canonical(s)
    ensures ToDecimal(Value(s)) == s
    decreases |s|
  {
    if |s| == 1 {
      assert s == [s[0]];
    } else {
      var p := s[..|s| - 1];
      assert p[0] == s[0];
      PrefixValue(p, 1);
      assert p[..1] == [p[0]];
      CanonicalIsDecimal(p);
      assert s == p + [s[|s| - 1]];
    }
  }
}
