/** `Integer.parseInt(s)` with radix 10, restricted to ASCII digits, and the
    decimal formatting of an integer that it inverts. */
module ParseInt {
  import opened Wrappers
  import opened JavaInt

  predicate IsDigit(c: char) {
    '0' <= c <= '9'
  }

  function DigitValue(c: char): (d: int)
    requires IsDigit(c)
    ensures 0 <= d <= 9
  {
    c as int - '0' as int
  }

  predicate AllDigits(s: string) {
    forall i :: 0 <= i < |s| ==> IsDigit(s[i])
  }

  function Pow10(n: nat): (p: nat)
    ensures 0 < p
  {
    if n == 0 then 1 else 10 * Pow10(n - 1)
  }

  /** The value of a string of decimal digits, most significant first. */
  function DigitsValue(s: string): (v: nat)
    requires AllDigits(s)
    ensures v < Pow10(|s|)
  {
    if s == [] then 0 else DigitsValue(s[..|s| - 1]) * 10 + DigitValue(s[|s| - 1])
  }

  /** The text is an optional '+' or '-' followed by one or more digits whose
      signed value fits in an `int`; anything else is a NumberFormatException,
      here `None`. Leading zeros are allowed, white space is not. */
  function ParseInt32(s: string): (r: Option<int>)
    ensures r.Some? ==> IsInt32(r.value)
    ensures r.Some? ==> |s| > 0 && (r.value < 0 ==> s[0] == '-')
  {
    if s == [] then None
    else
      var start := if s[0] == '-' || s[0] == '+' then 1 else 0;
      var digits := s[start..];
      if digits == [] || !AllDigits(digits) then None
      else
        var magnitude: int := DigitsValue(digits);
        var v: int := if s[0] == '-' then -magnitude else magnitude;
        if IsInt32(v) then Some(v) else None
  }

  function DigitChar(d: int): (c: char)
    requires 0 <= d <= 9
    ensures IsDigit(c) && DigitValue(c) == d
  {
    ('0' as int + d) as char
  }

  /** The shortest decimal text of `n`, most significant digit first. */
  function Digits(n: nat): (s: string)
    ensures s != [] && AllDigits(s)
  {
    if n < 10 then [DigitChar(n)] else Digits(n / 10) + [DigitChar(n % 10)]
  }

  /** Decimal text of an integer, with a leading '-' when it is negative
      (what `Integer.toString` produces for an `int`). */
  function Format(n: int): (s: string)
  {
    if n < 0 then "-" + Digits(-n) else Digits(n)
  }

  lemma {:induction false} DigitsRoundTrip(n: nat)
    ensures DigitsValue(Digits(n)) == n
  {
    if n >= 10 {
      var s := Digits(n);
      assert s[..|s| - 1] == Digits(n / 10);
      DigitsRoundTrip(n / 10);
    }
  }

  /** Parsing the decimal text of a number gives back the number exactly when
      it fits in an `int`, and fails otherwise. */
  lemma ParseFormatRoundTrip(n: int)
    ensures ParseInt32(Format(n)) == if IsInt32(n) then Some(n) else None
  {
    var s := Format(n);
    if n < 0 {
      assert s[1..] == Digits(-n);
      DigitsRoundTrip(-n);
    } else {
      assert s[0..] == Digits(n);
      DigitsRoundTrip(n);
    }
  }

  /** Leading zeros do not change a digit string's value. */
  lemma {:induction false} LeadingZeroValue(s: string)
    requires AllDigits(s)
    ensures AllDigits("0" + s) && DigitsValue("0" + s) == DigitsValue(s)
  {
    if s != [] {
      assert ("0" + s)[..|s|] == "0" + s[..|s| - 1];
      LeadingZeroValue(s[..|s| - 1]);
    }
  }

  /** A leading '+' or leading zeros are accepted and do not change the value. */
  lemma ParsePlusAndLeadingZero(n: int)
    requires 0 <= n <= IntMax
    ensures ParseInt32("+" + Format(n)) == Some(n)
    ensures ParseInt32("0" + Format(n)) == Some(n)
  {
    DigitsRoundTrip(n);
    var p := "+" + Format(n);
    assert p[1..] == Digits(n);
    LeadingZeroValue(Digits(n));
    var z := "0" + Format(n);
    assert z[0..] == z;
  }

  /** Any character other than an ASCII digit, except a sign in front, makes
      the whole text fail to parse: there is no trimming and no partial parse. */
  lemma ParseRejectsNonDigit(s: string, i: int)
    requires 0 <= i < |s| && !IsDigit(s[i])
    requires i == 0 ==> s[0] != '-' && s[0] != '+'
    ensures ParseInt32(s) == None
  {
  }

  /** The empty text and a bare sign are not numbers. */
  lemma ParseRejectsEmptyAndBareSign()
    ensures ParseInt32("") == None
    ensures ParseInt32("-") == None
    ensures ParseInt32("+") == None
  {
  }
}
