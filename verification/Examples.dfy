/** Worked examples of whole translations, each on the tree the SQL library
    builds for the filter text quoted above it. The date-time parser used here
    knows a single instant, 2020-01-01T00:00:00Z. */
module Examples {
  import opened Wrappers
  import opened Decimal
  import opened QueryParser
  import LiteralProperties
  import FilterProperties

  const NewYear2020: Int64 := 1_577_836_800_000_000_000

  function KnownInstants(text: string): Option<Int64> {
    if text == "2020-01-01T00:00:00Z" then Some(NewYear2020) else None
  }

  /** `name = 'v'` */
  function StringEq(name: string, v: string): Expr {
    Comparison(Column(name), "=", Value(Quote(v)))
  }

  /** `name = n` */
  function IntegerEq(name: string, n: Int64): Expr {
    Comparison(Column(name), "=", Value(FormatInt(n)))
  }

  // WorkflowID = 'wf1' AND StartTime = '2020-01-01T00:00:00Z' AND SearchPrecision = 'Day'
  lemma DateTimeFilter()
    ensures Parse(And(And(StringEq(WorkflowID, "wf1"), StringEq(StartTime, "2020-01-01T00:00:00Z")),
                      StringEq(SearchPrecision, PrecisionDay)), KnownInstants)
      == Success(ParsedQuery(Some("wf1"), None, NewYear2020, 0, Some(PrecisionDay), None, false))
  {
    var instant := "2020-01-01T00:00:00Z";
    var q1 := EmptyQuery.(workflowID := Some("wf1"));
    var q2 := q1.(startTime := NewYear2020);
    FilterProperties.StringFilterFirstValue(WorkflowID, "wf1", EmptyQuery, KnownInstants);
    assert ConvertWhereExpr(StringEq(WorkflowID, "wf1"), EmptyQuery, KnownInstants) == Success(q1);
    LiteralProperties.TimestampFromQuoted(instant, KnownInstants);
    FilterProperties.TimeFilterOverwrites(StartTime, Quote(instant), NewYear2020, q1, KnownInstants);
    assert ConvertWhereExpr(StringEq(StartTime, instant), q1, KnownInstants) == Success(q2);
    FilterProperties.PrecisionAcceptedIffValid(PrecisionDay, q2, KnownInstants);
    assert ConvertWhereExpr(StringEq(SearchPrecision, PrecisionDay), q2, KnownInstants)
      == Success(q2.(searchPrecision := Some(PrecisionDay)));
  }

  // StartTime = 100 AND CloseTime = 200 AND SearchPrecision = 'Hour'
  lemma BothTimeFilters()
    ensures Parse(And(And(IntegerEq(StartTime, 100), IntegerEq(CloseTime, 200)),
                      StringEq(SearchPrecision, PrecisionHour)), KnownInstants)
      == Failure(MissingTimeFilter)
  {
    var q1 := EmptyQuery.(startTime := 100);
    var q2 := q1.(closeTime := 200);
    LiteralProperties.TimestampFromFormatted(100, KnownInstants);
    LiteralProperties.TimestampFromFormatted(200, KnownInstants);
    FilterProperties.TimeFilterOverwrites(StartTime, FormatInt(100), 100, EmptyQuery, KnownInstants);
    FilterProperties.TimeFilterOverwrites(CloseTime, FormatInt(200), 200, q1, KnownInstants);
    assert ConvertWhereExpr(IntegerEq(CloseTime, 200), q1, KnownInstants) == Success(q2);
    FilterProperties.PrecisionAcceptedIffValid(PrecisionHour, q2, KnownInstants);
  }

  // WorkflowType = 'x' AND WorkflowType = 'y' AND StartTime = 1 AND SearchPrecision = 'Second'
  lemma ContradictoryWorkflowType()
    ensures Parse(And(And(And(StringEq(WorkflowType, "x"), StringEq(WorkflowType, "y")), IntegerEq(StartTime, 1)),
                      StringEq(SearchPrecision, PrecisionSecond)), KnownInstants)
      == Success(ParsedQuery(None, Some("x"), 1, 0, Some(PrecisionSecond), None, true))
  {
  }

  // CloseStatus = 'Completed' AND StartTime = 1 AND SearchPrecision = 'Minute'
  lemma CloseStatusFilter()
    ensures Parse(And(And(StringEq(CloseStatus, "Completed"), IntegerEq(StartTime, 1)),
                      StringEq(SearchPrecision, PrecisionMinute)), KnownInstants)
      == Failure(UnknownFilter(CloseStatus))
  {
  }

  // StartTime > 100 AND SearchPrecision = 'Day'
  lemma GreaterThanStartTime()
    ensures Parse(And(Comparison(Column(StartTime), ">", Value(FormatInt(100))),
                      StringEq(SearchPrecision, PrecisionDay)), KnownInstants)
      == Failure(UnsupportedOperator(StartTime))
  {
    LiteralProperties.TimestampFromFormatted(100, KnownInstants);
  }

  // StartTime = 0 AND SearchPrecision = 'Day': a zero timestamp counts as absent.
  lemma ZeroStartTime()
    ensures Parse(And(IntegerEq(StartTime, 0), StringEq(SearchPrecision, PrecisionDay)), KnownInstants)
      == Failure(MissingTimeFilter)
  {
  }
}
