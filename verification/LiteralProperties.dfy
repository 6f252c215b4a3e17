/** Properties of the two literal helpers: quote stripping and timestamp
    conversion. */
module LiteralProperties {
  import opened Wrappers
  import opened Decimal
  import opened QueryParser

  /** Stripping quotes is exactly the inverse of adding them: a literal is a
      string value `v` if and only if it is `'v'`. In particular `''` is the
      empty string and a lone `'` is not a string value. */
  lemma ExtractStringValueInverse(s: string, v: string)
    ensures ExtractStringValue(s) == Success(v) <==> s == Quote(v)
  {
  }

  /** A quoted literal never reads as a decimal integer. */
  lemma QuotedIsNotInteger(v: string)
    ensures ParseInt64(Quote(v)).None?
  {
  }

  /** The canonical decimal text of `n` gives `n` nanoseconds. */
  lemma TimestampFromFormatted(n: Int64, parseTime: DateTimeParser)
    ensures ConvertToTimestamp(FormatInt(n), parseTime) == Success(n)
  {
    ParseFormatInt(n);
  }

  /** A quoted literal is handed, without its quotes, to the date-time parser,
      whose verdict decides the outcome. */
  lemma TimestampFromQuoted(v: string, parseTime: DateTimeParser)
    ensures ConvertToTimestamp(Quote(v), parseTime) ==
      (match parseTime(v)
       case Some(nanos) => Success(nanos)
       case None => Failure(InvalidDateTime(v)))
  {
  }

  /** A date-time and the integer count of nanoseconds it denotes give the
      same timestamp. */
  lemma TimestampFormsAgree(v: string, n: Int64, parseTime: DateTimeParser)
    requires parseTime(v) == Some(n)
    ensures ConvertToTimestamp(Quote(v), parseTime) == ConvertToTimestamp(FormatInt(n), parseTime) == Success(n)
  {
    TimestampFromFormatted(n, parseTime);
    TimestampFromQuoted(v, parseTime);
  }

  /** A literal that is neither a 64-bit decimal integer nor quoted is
      rejected as not being a string value; an out-of-range integer is one. */
  lemma TimestampRejectsBareText(s: string, parseTime: DateTimeParser)
    requires ParseInt64(s).None?
    requires !(|s| >= 2 && s[0] == '\'' && s[|s| - 1] == '\'')
    ensures ConvertToTimestamp(s, parseTime) == Failure(NotAStringValue(s))
  {
  }

  /** Integers beyond 64 bits do not wrap around: the literal falls through
      to the string form and is rejected. */
  lemma TimestampRejectsOutOfRange(n: int, parseTime: DateTimeParser)
    requires n < MinInt64 || n > MaxInt64
    ensures ConvertToTimestamp(FormatInt(n), parseTime) == Failure(NotAStringValue(FormatInt(n)))
  {
    ParseFormatInt(n);
    var s := FormatInt(n);
    if n >= 0 {
      assert IsDigit(s[0]);
    }
  }
}
