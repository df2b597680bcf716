/** Base-10 integer parsing as done by Python's `int(text)` on an already
    trimmed cell text, restricted to ASCII: an optional `+` or `-` followed by
    one or more digits `0`-`9` (leading zeros allowed). Anything else is a
    parse failure, which the program sees as a `ValueError`. */
module IntParse {
  import opened Wrappers

  predicate IsDigit(c: char) {
    '0' <= c <= '9'
  }

  predicate IsSign(c: char) {
    c == '+' || c == '-'
  }

  function DigitValue(c: char): nat
    requires IsDigit(c)
  {
    c as int - '0' as int
  }

  function DigitChar(d: nat): (c: char)
    requires d < 10
    ensures IsDigit(c) && DigitValue(c) == d
  {
    ('0' as int + d) as char
  }

  predicate AllDigits(s: string) {
    forall i :: 0 <= i < |s| ==> IsDigit(s[i])
  }

  /** The accepted text shape, stated character by character: a digit or a
      sign first, digits after it, and at least one digit in all. */
  predicate IsIntLiteral(s: string) {
    && |s| > 0
    && (IsDigit(s[0]) || (IsSign(s[0]) && |s| > 1))
    && forall i :: 0 < i < |s| ==> IsDigit(s[i])
  }

  /** Value of a digit string read most significant digit first. */
  function DigitsValue(s: string): nat
    requires AllDigits(s)
  {
    if |s| == 0 then 0 else DigitsValue(s[..|s| - 1]) * 10 + DigitValue(s[|s| - 1])
  }

  /** Python's `int(s)` for the accepted shape; `None` stands for `ValueError`. */
  function ParseInt(s: string): (r: Option<int>)
    ensures r.Some? <==> IsIntLiteral(s)
    ensures r.Some? && r.value < 0 ==> s[0] == '-'
    ensures r.Some? && s[0] == '-' ==> r.value <= 0
  {
    if |s| > 0 && IsSign(s[0]) then
      var digits := s[1..];
      if |digits| > 0 && AllDigits(digits) then
        var magnitude: int := DigitsValue(digits);
        Some(if s[0] == '-' then -magnitude else magnitude)
      else
        assert !AllDigits(digits) || |s| == 1;
        None
    else if |s| > 0 && AllDigits(s) then
      Some(DigitsValue(s))
    else
      None
  }

  /** A character that is neither a digit nor a sign makes the parse fail. */
  lemma ParseRejectsForeignChar(s: string, i: nat)
    requires i < |s| && !IsDigit(s[i]) && !IsSign(s[i])
    ensures ParseInt(s) == None
  {
  }

  /** A leading zero does not change a digit string's value. */
  lemma {:induction false} LeadingZeroValue(d: string)
    requires AllDigits(d)
    ensures AllDigits("0" + d) && DigitsValue("0" + d) == DigitsValue(d)
  {
    var z := "0" + d;
    assert AllDigits(z) by {
      forall i | 0 <= i < |z| ensures IsDigit(z[i]) {
        if i > 0 { assert z[i] == d[i - 1]; }
      }
    }
    if |d| > 0 {
      var n := |d| - 1;
      LeadingZeroValue(d[..n]);
      assert z[..|z| - 1] == "0" + d[..n];
      assert z[|z| - 1] == d[n];
    }
  }

  /** A `+` sign in front of digits is ignored. */
  lemma ParsePlus(d: string)
    requires |d| > 0 && AllDigits(d)
    ensures ParseInt("+" + d) == ParseInt(d)
  {
    assert ("+" + d)[1..] == d;
  }

  /** Leading zeros are ignored. */
  lemma ParseLeadingZero(d: string)
    requires |d| > 0 && AllDigits(d)
    ensures ParseInt("0" + d) == ParseInt(d)
  {
    LeadingZeroValue(d);
  }

  /** A `-` sign in front of digits negates their value (so `-0` is 0). */
  lemma ParseMinus(d: string)
    requires |d| > 0 && AllDigits(d)
    ensures ParseInt(d).Some? && ParseInt("-" + d) == Some(-ParseInt(d).value)
  {
    assert ("-" + d)[1..] == d;
  }

  /** Canonical decimal text of a natural number, as Python's `str` writes it. */
  function ShowNat(n: nat): (s: string)
    ensures |s| > 0 && AllDigits(s)
  {
    if n < 10 then [DigitChar(n)] else ShowNat(n / 10) + [DigitChar(n % 10)]
  }

  /** Canonical decimal text of an integer, with a leading `-` when negative. */
  function ShowInt(n: int): string
  {
    if n < 0 then "-" + ShowNat(-n) else ShowNat(n)
  }

  lemma {:induction false} ShowNatValue(n: nat)
    ensures DigitsValue(ShowNat(n)) == n
  {
    var s := ShowNat(n);
    if n >= 10 {
      ShowNatValue(n / 10);
      assert s[..|s| - 1] == ShowNat(n / 10);
    }
  }

  /** Parsing undoes printing: every integer, negative ones included, is read
      back from its decimal text. */
  lemma ParseShowRoundTrip(n: int)
    ensures ParseInt(ShowInt(n)) == Some(n)
  {
    if n < 0 {
      ShowNatValue(-n);
      assert ShowInt(n)[1..] == ShowNat(-n);
    } else {
      ShowNatValue(n);
    }
  }
}
