/** Signed 64-bit integers and their base-10 text form, as read by Go's
    `strconv.ParseInt(s, 10, 64)`: an optional `+` or `-` sign followed by at
    least one ASCII digit, nothing else (no underscores, no base prefix, no
    surrounding blanks), and a value that fits in 64 bits. */
module Decimal {
  import opened Wrappers

  const MinInt64: int := -0x8000_0000_0000_0000
  const MaxInt64: int := 0x7FFF_FFFF_FFFF_FFFF

  type Int64 = x: int | MinInt64 <= x <= MaxInt64

  predicate IsDigit(c: char) {
    '0' <= c <= '9'
  }

  predicate AllDigits(s: string) {
    forall i :: 0 <= i < |s| ==> IsDigit(s[i])
  }

  function DigitValue(c: char): nat
    requires IsDigit(c)
  {
    c as int - '0' as int
  }

  function DigitChar(d: nat): (c: char)
    requires d < 10
    ensures IsDigit(c) && DigitValue(c) == d
  {
    ('0' as int + d) as char
  }

  /** The number an all-digit string denotes, most significant digit first. */
  function DigitsValue(s: string): nat
    requires AllDigits(s)
  {
    if |s| == 0 then 0
    else DigitsValue(s[..|s| - 1]) * 10 + DigitValue(s[|s| - 1])
  }

  /** `strconv.ParseInt(s, 10, 64)`: `None` stands for both its syntax error
      and its range error, since the caller only tests `err == nil`. */
  function ParseInt64(s: string): (r: Option<Int64>)
    ensures r.Some? ==> |s| > 0 && (IsDigit(s[0]) || s[0] == '+' || s[0] == '-')
    ensures r.Some? ==> forall i :: 0 < i < |s| ==> IsDigit(s[i])
    ensures r.Some? && s[0] == '-' ==> r.value <= 0
    ensures r.Some? && s[0] != '-' ==> r.value >= 0
  {
    if |s| == 0 then None
    else
      var signed := s[0] == '+' || s[0] == '-';
      var digits := if signed then s[1..] else s;
      if |digits| == 0 || !AllDigits(digits) then None
      else
        var magnitude: int := DigitsValue(digits);
        var v := if s[0] == '-' then -magnitude else magnitude;
        if MinInt64 <= v <= MaxInt64 then Some(v) else None
  }

  /** Shortest decimal text of a natural number (no sign, no leading zero). */
  function FormatNat(n: nat): (s: string)
    ensures |s| > 0 && AllDigits(s)
    ensures |s| > 1 ==> s[0] != '0'
  {
    if n < 10 then [DigitChar(n)]
    else FormatNat(n / 10) + [DigitChar(n % 10)]
  }

  /** `strconv.FormatInt(n, 10)`: the canonical literal of an integer. */
  function FormatInt(n: int): (s: string)
    ensures |s| > 0
    ensures n < 0 <==> s[0] == '-'
  {
    if n < 0 then "-" + FormatNat(-n) else FormatNat(n)
  }

  /** Reading back the digits of `FormatNat(n)` gives `n`. */
  lemma {:induction false} DigitsValueOfFormatNat(n: nat)
    ensures DigitsValue(FormatNat(n)) == n
    decreases n
  {
    var s := FormatNat(n);
    if n >= 10 {
      var prefix := FormatNat(n / 10);
      assert s == prefix + [DigitChar(n % 10)];
      assert s[..|s| - 1] == prefix;
      DigitsValueOfFormatNat(n / 10);
    }
  }

  /** Parsing the canonical literal of any integer yields that integer when it
      fits in 64 bits, and a range error otherwise. */
  lemma ParseFormatInt(n: int)
    ensures ParseInt64(FormatInt(n)) == (if MinInt64 <= n <= MaxInt64 then Some(n) else None)
  {
    var s := FormatInt(n);
    if n < 0 {
      assert s[1..] == FormatNat(-n);
      DigitsValueOfFormatNat(-n);
    } else {
      assert IsDigit(s[0]);
      DigitsValueOfFormatNat(n);
    }
  }

  /** A leading zero, after or without a `-`, and an explicit `+` do not
      change the value read. */
  lemma {:induction false} ParseIgnoresLeadingZero(s: string)
    requires |s| > 0 && AllDigits(s)
    ensures ParseInt64("0" + s) == ParseInt64(s)
    ensures ParseInt64("+" + s) == ParseInt64(s)
    ensures ParseInt64("-0" + s) == ParseInt64("-" + s)
    ensures ParseInt64("-0") == Some(0)
  {
    var z := "0" + s;
    assert AllDigits(z);
    DigitsValueLeadingZero(s);
    assert ("+" + s)[1..] == s;
    assert ("-0" + s)[1..] == z;
    assert ("-" + s)[1..] == s;
    assert "-0"[1..] == "0";
    assert AllDigits("0") && DigitsValue("0") == 0;
  }

  lemma {:induction false} DigitsValueLeadingZero(s: string)
    requires AllDigits(s)
    ensures AllDigits("0" + s) && DigitsValue("0" + s) == DigitsValue(s)
    decreases |s|
  {
    var z := "0" + s;
    assert AllDigits(z);
    if |s| > 0 {
      assert z[..|z| - 1] == "0" + s[..|s| - 1];
      assert z[|z| - 1] == s[|s| - 1];
      DigitsValueLeadingZero(s[..|s| - 1]);
    }
  }
}
