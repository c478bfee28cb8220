/**
 Decimal conversions the wrapper relies on: Python's `str(n)` for an integer and
 `int(s)` for a base-10 string. `int` is restricted to ASCII digits: Python's
 acceptance of other Unicode decimal digits and of `_` separators is not modelled.
 */
module Numbers {
  import opened Wrappers
  import opened Strings

  predicate IsAsciiDigit(c: char) {
    '0' <= c <= '9'
  }

  predicate AllDigits(s: string) {
    forall i :: 0 <= i < |s| ==> IsAsciiDigit(s[i])
  }

  function DigitValue(c: char): nat
    requires IsAsciiDigit(c)
  {
    (c as int) - ('0' as int)
  }

  function DigitChar(d: nat): (c: char)
    requires d < 10
    ensures IsAsciiDigit(c) && DigitValue(c) == d
  {
    ('0' as int + d) as char
  }

  /** The value of a string of decimal digits, most significant first. */
  function DigitsValue(s: string): nat
    requires AllDigits(s)
  {
    if |s| == 0 then 0 else DigitsValue(s[..|s| - 1]) * 10 + DigitValue(s[|s| - 1])
  }

  /** The shortest decimal spelling of `n`. */
  function NatToDigits(n: nat): (r: string)
    ensures |r| > 0 && AllDigits(r)
    ensures |r| > 1 ==> r[0] != '0'
  {
    if n < 10 then [DigitChar(n)] else NatToDigits(n / 10) + [DigitChar(n % 10)]
  }

  /** Python `str(n)` for an `int`. */
  function IntToString(n: int): (r: string)
    ensures |r| > 0
    ensures forall i :: 0 <= i < |r| ==> IsAsciiDigit(r[i]) || (i == 0 && r[i] == '-')
  {
    if n < 0 then "-" + NatToDigits(-n) else NatToDigits(n)
  }

  /** The characters `int()` skips around a number: `str.isspace()` characters except the
      four ASCII information separators U+001C..U+001F, which CPython passes through
      unchanged and then rejects. */
  const IntSpace: set<char> := Whitespace - {'\U{1C}', '\U{1D}', '\U{1E}', '\U{1F}'}

  /** Python `int(s)` in base 10: surrounding `IntSpace` is ignored, one optional sign is
      allowed, and at least one digit must follow; anything else raises `ValueError`,
      modelled as `None`. */
  function PyInt(s: string): Option<int> {
    var t := Strip(s, IntSpace);
    if |t| > 0 && (t[0] == '-' || t[0] == '+') then
      var digits := t[1..];
      if |digits| > 0 && AllDigits(digits) then
        var v: int := DigitsValue(digits);
        Some(if t[0] == '-' then -v else v)
      else None
    else if |t| > 0 && AllDigits(t) then Some(DigitsValue(t))
    else None
  }

  /** Text made only of whitespace is rejected, information separators included. */
  lemma PyIntRejectsBlank(s: string)
    requires AllIn(s, Whitespace)
    ensures PyInt(s) == None
  {
    var i := StripFrame(s, IntSpace);
    var t := Strip(s, IntSpace);
    if |t| > 0 {
      assert t[0] == s[i] && s[i] in Whitespace;
    }
  }

  /** An information separator in front of a number makes `int()` fail, although
      `str.isspace()` holds for it. */
  lemma PyIntRejectsSeparator()
    ensures PyInt("\U{1C}5") == None
    ensures PyInt(" 5\n") == Some(5)
  {
    StripUnchanged("\U{1C}5", IntSpace);
    assert " 5\n" == " " + "5" + "\n";
    StripOf(" ", "5", "\n", IntSpace);
  }

  /** Text already trimmed by `str.strip()` is left alone by `int()`'s own trimming. */
  lemma StrippedForInt(s: string)
    ensures Strip(Strip(s, Whitespace), IntSpace) == Strip(s, Whitespace)
  {
    StripUnchanged(Strip(s, Whitespace), IntSpace);
  }

  /** When the trimmed text starts with a digit there is no sign: it parses exactly when
      every character is a digit, and then to a non-negative value. */
  lemma PyIntUnsigned(s: string)
    requires var t := Strip(s, IntSpace); |t| > 0 && IsAsciiDigit(t[0])
    ensures PyInt(s).Some? <==> AllDigits(Strip(s, IntSpace))
    ensures PyInt(s).Some? ==> PyInt(s) == Some(DigitsValue(Strip(s, IntSpace))) && PyInt(s).value >= 0
  {
  }

  lemma {:induction false} DigitsRoundTrip(n: nat)
    ensures DigitsValue(NatToDigits(n)) == n
  {
    if n >= 10 {
      var r := NatToDigits(n);
      assert r[..|r| - 1] == NatToDigits(n / 10);
      DigitsRoundTrip(n / 10);
    }
  }

  /** `str(n)` neither starts nor ends with whitespace. */
  lemma IntToStringEnds(n: int)
    ensures IntToString(n)[0] !in Whitespace
    ensures IntToString(n)[|IntToString(n)| - 1] !in Whitespace
  {
    var r := IntToString(n);
    assert IsAsciiDigit(r[0]) || r[0] == '-';
    assert IsAsciiDigit(r[|r| - 1]);
  }

  lemma PyIntOfDigits(t: string)
    requires Strip(t, IntSpace) == t && |t| > 0 && AllDigits(t)
    ensures PyInt(t) == Some(DigitsValue(t))
  {
    assert IsAsciiDigit(t[0]);
  }

  lemma PyIntOfNegative(t: string)
    requires Strip(t, IntSpace) == t && |t| > 1 && t[0] == '-' && AllDigits(t[1..])
    ensures PyInt(t) == Some(-(DigitsValue(t[1..]) as int))
  {
  }

  lemma NegativeRoundTrip(n: int)
    requires n < 0
    requires Strip(IntToString(n), IntSpace) == IntToString(n)
    ensures PyInt(IntToString(n)) == Some(n)
  {
    var d := NatToDigits(-n);
    assert IntToString(n) == "-" + d;
    assert ("-" + d)[1..] == d;
    PyIntOfNegative("-" + d);
    DigitsRoundTrip(-n);
  }

  lemma NonNegativeRoundTrip(n: int)
    requires n >= 0
    requires Strip(IntToString(n), IntSpace) == IntToString(n)
    ensures PyInt(IntToString(n)) == Some(n)
  {
    var d := NatToDigits(n);
    assert IntToString(n) == d;
    PyIntOfDigits(d);
    DigitsRoundTrip(n);
  }

  /** `int(str(n)) == n` for every integer. */
  lemma IntRoundTrip(n: int)
    ensures PyInt(IntToString(n)) == Some(n)
  {
    IntToStringEnds(n);
    StripUnchanged(IntToString(n), IntSpace);
    if n < 0 {
      NegativeRoundTrip(n);
    } else {
      NonNegativeRoundTrip(n);
    }
  }

  /** `int` ignores the whitespace it skips around the spelling of a number. */
  lemma PaddedIntRoundTrip(p: string, n: int, q: string)
    requires AllIn(p, IntSpace) && AllIn(q, IntSpace)
    ensures PyInt(p + IntToString(n) + q) == Some(n)
  {
    IntToStringEnds(n);
    StripOf(p, IntToString(n), q, IntSpace);
    StripUnchanged(IntToString(n), IntSpace);
    IntRoundTrip(n);
  }
}
