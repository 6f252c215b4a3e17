/** Properties of one comparison leaf, field by field. */
module FilterProperties {
  import opened Wrappers
  import opened Decimal
  import opened QueryParser
  import LiteralProperties

  /** The first value given for WorkflowID, RunID or WorkflowType is stored;
      nothing else changes. */
  lemma StringFilterFirstValue(name: string, val: string, q: ParsedQuery, parseTime: DateTimeParser)
    requires name in StringFilters
    requires StringFilter(q, name).None?
    ensures var r := ConvertComparison(Column(name), "=", Value(Quote(val)), q, parseTime);
      && r.Success?
      && StringFilter(r.value, name) == Some(val)
      && r.value.emptyResult == q.emptyResult
      && OnlyFilterChanged(q, r.value, name)
  {
  }

  /** A different second value for WorkflowID, RunID or WorkflowType is not an
      error: the query becomes empty and the stored value is kept. */
  lemma StringFilterConflictEmptiesResult(name: string, val: string, q: ParsedQuery, parseTime: DateTimeParser)
    requires name in StringFilters
    requires StringFilter(q, name).Some? && StringFilter(q, name).value != val
    ensures ConvertComparison(Column(name), "=", Value(Quote(val)), q, parseTime) == Success(q.(emptyResult := true))
  {
  }

  /** Repeating the stored value of WorkflowID, RunID or WorkflowType changes
      nothing. */
  lemma StringFilterRepeatIsNoOp(name: string, q: ParsedQuery, parseTime: DateTimeParser)
    requires name in StringFilters
    requires StringFilter(q, name).Some?
    ensures ConvertComparison(Column(name), "=", Value(Quote(StringFilter(q, name).value)), q, parseTime) == Success(q)
  {
  }

  /** StartTime and CloseTime take the value of each new literal, integer or
      date-time, whatever they held, and nothing else changes. */
  lemma TimeFilterOverwrites(name: string, literal: string, n: Int64, q: ParsedQuery, parseTime: DateTimeParser)
    requires name in TimeFilters
    requires ConvertToTimestamp(literal, parseTime) == Success(n)
    ensures var r := ConvertComparison(Column(name), "=", Value(literal), q, parseTime);
      && r == Success(WithTimeFilter(q, name, n))
      && TimeFilter(r.value, name) == n
      && OnlyFilterChanged(q, r.value, name)
  {
  }

  /** Of two comparisons on the same time filter joined by AND, the later one
      wins, whatever form their literals take. */
  lemma LastTimeFilterWins(name: string, la: string, a: Int64, lb: string, b: Int64, q: ParsedQuery, parseTime: DateTimeParser)
    requires name in TimeFilters
    requires ConvertToTimestamp(la, parseTime) == Success(a)
    requires ConvertToTimestamp(lb, parseTime) == Success(b)
    ensures ConvertWhereExpr(And(Comparison(Column(name), "=", Value(la)),
                                 Comparison(Column(name), "=", Value(lb))), q, parseTime)
            == Success(WithTimeFilter(q, name, b))
  {
    var first := Comparison(Column(name), "=", Value(la));
    var second := Comparison(Column(name), "=", Value(lb));
    TimeFilterOverwrites(name, la, a, q, parseTime);
    var afterFirst := WithTimeFilter(q, name, a);
    assert ConvertWhereExpr(first, q, parseTime) == Success(afterFirst);
    TimeFilterOverwrites(name, lb, b, afterFirst, parseTime);
    assert ConvertWhereExpr(second, afterFirst, parseTime) == Success(WithTimeFilter(afterFirst, name, b));
    assert ConvertAndExpr(first, second, q, parseTime) == Success(WithTimeFilter(afterFirst, name, b));
    assert WithTimeFilter(afterFirst, name, b) == WithTimeFilter(q, name, b);
  }

  /** A second, different SearchPrecision is an error, reported before the
      value is checked against the four precisions. */
  lemma DuplicatePrecisionReportedFirst(val: string, q: ParsedQuery, parseTime: DateTimeParser)
    requires q.searchPrecision.Some? && q.searchPrecision.value != val
    ensures ConvertComparison(Column(SearchPrecision), "=", Value(Quote(val)), q, parseTime) == Failure(DuplicatePrecision)
  {
  }

  /** A SearchPrecision is recorded exactly when it is one of the four values
      and agrees with any earlier one; repeating the same one is accepted. */
  lemma PrecisionAcceptedIffValid(val: string, q: ParsedQuery, parseTime: DateTimeParser)
    requires q.searchPrecision.None? || q.searchPrecision == Some(val)
    ensures var r := ConvertComparison(Column(SearchPrecision), "=", Value(Quote(val)), q, parseTime);
      && (val in Precisions ==> r == Success(q.(searchPrecision := Some(val))))
      && (val !in Precisions ==> r == Failure(InvalidPrecision(val)))
  {
  }

  /** On any handled filter, a well-formed literal with an operator other
      than `=` is rejected, naming the filter. */
  lemma OnlyEqualityAccepted(name: string, op: string, literal: string, q: ParsedQuery, parseTime: DateTimeParser)
    requires name in HandledFilters
    requires op != "="
    requires name in TimeFilters ==> ConvertToTimestamp(literal, parseTime).Success?
    requires name !in TimeFilters ==> ExtractStringValue(literal).Success?
    ensures ConvertComparison(Column(name), op, Value(literal), q, parseTime) == Failure(UnsupportedOperator(name))
  {
  }

  /** A malformed literal is reported before the operator is looked at. */
  lemma LiteralCheckedBeforeOperator(name: string, op: string, literal: string, q: ParsedQuery, parseTime: DateTimeParser)
    requires name in HandledFilters
    ensures name in TimeFilters && ConvertToTimestamp(literal, parseTime).Failure? ==>
      ConvertComparison(Column(name), op, Value(literal), q, parseTime) == Failure(ConvertToTimestamp(literal, parseTime).error)
    ensures name !in TimeFilters && ExtractStringValue(literal).Failure? ==>
      ConvertComparison(Column(name), op, Value(literal), q, parseTime) == Failure(NotAStringValue(literal))
  {
  }

  /** A left side that is not a column is rejected first, then a right side
      that is not a literal; then an unknown name, whatever the operator and
      literal. */
  lemma MalformedComparisonRejected(left: Operand, op: string, right: Literal, q: ParsedQuery, parseTime: DateTimeParser)
    ensures left.NotColumn? ==>
      ConvertComparison(left, op, right, q, parseTime) == Failure(InvalidFilterName(left.rendered))
    ensures left.Column? && right.NotValue? ==>
      ConvertComparison(left, op, right, q, parseTime) == Failure(InvalidValue(right.rendered))
    ensures left.Column? && right.Value? && left.name !in HandledFilters ==>
      ConvertComparison(left, op, right, q, parseTime) == Failure(UnknownFilter(left.name))
  {
  }

  /** CloseStatus is a declared name but is not handled. */
  lemma CloseStatusIsUnknown(op: string, literal: string, q: ParsedQuery, parseTime: DateTimeParser)
    ensures ConvertComparison(Column(CloseStatus), op, Value(literal), q, parseTime) == Failure(UnknownFilter(CloseStatus))
  {
  }
}
