/** The archival visibility-query translator of the Google Cloud Storage
    archiver: it takes the WHERE expression of `select * from dummy where <query>`
    and turns it into a `ParsedQuery` describing which archived workflow
    records to look up.

    The SQL grammar itself is an external library; this model starts from the
    expression tree it produces (`Expr`), with column names and literal values
    already rendered back to text. Parsing an RFC 3339 date-time and converting
    it to Unix nanoseconds is likewise external and is passed in as a
    `DateTimeParser`. */
module QueryParser {
  import opened Wrappers
  import opened Decimal

  // Names a filter may compare against.
  const WorkflowID: string := "WorkflowID"
  const RunID: string := "RunID"
  const WorkflowType: string := "WorkflowType"
  const CloseTime: string := "CloseTime"
  const StartTime: string := "StartTime"
  const CloseStatus: string := "CloseStatus"
  const SearchPrecision: string := "SearchPrecision"

  // Values SearchPrecision may take.
  const PrecisionDay: string := "Day"
  const PrecisionHour: string := "Hour"
  const PrecisionMinute: string := "Minute"
  const PrecisionSecond: string := "Second"

  const Precisions: set<string> := {PrecisionDay, PrecisionHour, PrecisionMinute, PrecisionSecond}

  /** Filters on a workflow attribute: set once, a contradicting second value
      makes the whole query empty. */
  const StringFilters: set<string> := {WorkflowID, RunID, WorkflowType}

  /** Filters on a timestamp: the last comparison wins. */
  const TimeFilters: set<string> := {StartTime, CloseTime}

  /** Every name the translator accepts; `CloseStatus` is declared but not among them. */
  const HandledFilters: set<string> := StringFilters + TimeFilters + {SearchPrecision}

  /** Left side of a comparison: a bare column, or any other expression (kept
      only as its rendering for the error). */
  datatype Operand = Column(name: string) | NotColumn(rendered: string)

  /** Right side of a comparison: a literal as the SQL library renders it
      (`'abc'` for a string, `123` for a number), or any other expression. */
  datatype Literal = Value(rendered: string) | NotValue(rendered: string)

  /** The WHERE expression tree. `Other` is every node kind the translator does
      not handle (OR, NOT, function calls, ...); `Nil` is a missing subtree. */
  datatype Expr =
    | Comparison(left: Operand, op: string, right: Literal)
    | And(lhs: Expr, rhs: Expr)
    | Paren(inner: Expr)
    | Other
    | Nil

  /** The translated query. A nil `*string` in the Go code is `None`; a timestamp
      of 0 means that no such filter was given. */
  datatype ParsedQuery = ParsedQuery(
    workflowID: Option<string>,
    workflowType: Option<string>,
    startTime: Int64,
    closeTime: Int64,
    searchPrecision: Option<string>,
    runID: Option<string>,
    emptyResult: bool)

  const EmptyQuery: ParsedQuery := ParsedQuery(None, None, 0, 0, None, None, false)

  /** Everything that stops a translation; there is never a partial result. */
  datatype ParseError =
    | NilExpression                   // a missing subtree
    | UnsupportedExpression           // a node other than comparison, AND or parentheses
    | InvalidFilterName(rendered: string)
    | InvalidValue(rendered: string)
    | NotAStringValue(literal: string)
    | UnsupportedOperator(filter: string)
    | DuplicatePrecision
    | InvalidPrecision(precision: string)
    | UnknownFilter(filter: string)
    | InvalidDateTime(text: string)   // the RFC 3339 parser rejected the text
    | MissingTimeFilter               // not exactly one of StartTime and CloseTime
    | MissingPrecision

  /** RFC 3339 date-time text to Unix nanoseconds, `None` when the text is not
      a date-time. */
  type DateTimeParser = string -> Option<Int64>

  /** The literal `'v'` of a string `v`, as the SQL library renders it. */
  function Quote(v: string): string {
    "'" + v + "'"
  }

  /** Strips the single quotes around a string literal; anything not starting
      and ending with a quote (including a lone `'`) is not a string value. */
  function ExtractStringValue(s: string): (r: Result<string, ParseError>)
    ensures r.Success? ==> Quote(r.value) == s
    ensures r.Failure? ==> r.error == NotAStringValue(s)
  {
    if |s| >= 2 && s[0] == '\'' && s[|s| - 1] == '\'' then
      Success(s[1..|s| - 1])
    else
      Failure(NotAStringValue(s))
  }

  /** A timestamp literal: first read as a decimal 64-bit integer (already in
      nanoseconds); failing that, it must be a quoted RFC 3339 date-time. */
  function ConvertToTimestamp(timeStr: string, parseTime: DateTimeParser): (r: Result<Int64, ParseError>)
    ensures ParseInt64(timeStr).Some? ==> r == Success(ParseInt64(timeStr).value)
    ensures r.Failure? ==> ParseInt64(timeStr).None?
    ensures r.Success? && ParseInt64(timeStr).None? ==>
      exists v :: Quote(v) == timeStr && parseTime(v) == Some(r.value)
  {
    match ParseInt64(timeStr)
    case Some(timestamp) => Success(timestamp)
    case None =>
      var text :- ExtractStringValue(timeStr);
      match parseTime(text)
      case Some(nanos) => Success(nanos)
      case None => Failure(InvalidDateTime(text))
  }

  /** A set-once filter holding a value other than `val`. */
  predicate Conflicts(current: Option<string>, val: string) {
    current.Some? && current.value != val
  }

  function StringFilter(q: ParsedQuery, name: string): Option<string>
    requires name in StringFilters
  {
    if name == WorkflowID then q.workflowID
    else if name == RunID then q.runID
    else q.workflowType
  }

  function WithStringFilter(q: ParsedQuery, name: string, val: string): ParsedQuery
    requires name in StringFilters
  {
    if name == WorkflowID then q.(workflowID := Some(val))
    else if name == RunID then q.(runID := Some(val))
    else q.(workflowType := Some(val))
  }

  function TimeFilter(q: ParsedQuery, name: string): Int64
    requires name in TimeFilters
  {
    if name == StartTime then q.startTime else q.closeTime
  }

  function WithTimeFilter(q: ParsedQuery, name: string, t: Int64): ParsedQuery
    requires name in TimeFilters
  {
    if name == StartTime then q.(startTime := t) else q.(closeTime := t)
  }

  /** `q'` keeps everything `q` has committed to: a set-once value is never
      replaced and an empty result is never undone. */
  predicate Extends(q: ParsedQuery, q': ParsedQuery) {
    && (q.workflowID.Some? ==> q'.workflowID == q.workflowID)
    && (q.runID.Some? ==> q'.runID == q.runID)
    && (q.workflowType.Some? ==> q'.workflowType == q.workflowType)
    && (q.searchPrecision.Some? ==> q'.searchPrecision == q.searchPrecision)
    && (q.emptyResult ==> q'.emptyResult)
  }

  /** The precision, when present, is one of the four recognised values. */
  predicate PrecisionValid(q: ParsedQuery) {
    q.searchPrecision.Some? ==> q.searchPrecision.value in Precisions
  }

  /** `q'` differs from `q` at most in the filter `name` and, for a set-once
      filter, in the empty-result flag. */
  predicate OnlyFilterChanged(q: ParsedQuery, q': ParsedQuery, name: string) {
    && (name != WorkflowID ==> q'.workflowID == q.workflowID)
    && (name != RunID ==> q'.runID == q.runID)
    && (name != WorkflowType ==> q'.workflowType == q.workflowType)
    && (name != StartTime ==> q'.startTime == q.startTime)
    && (name != CloseTime ==> q'.closeTime == q.closeTime)
    && (name != SearchPrecision ==> q'.searchPrecision == q.searchPrecision)
    && (name !in StringFilters ==> q'.emptyResult == q.emptyResult)
  }

  /** One comparison leaf `left op right`. The sides are checked first (column,
      then literal), then the name; for each handled name the literal's form
      is checked before the operator, and for SearchPrecision a conflicting
      repetition is reported before an unknown precision value. */
  function ConvertComparison(left: Operand, op: string, right: Literal, q: ParsedQuery,
                             parseTime: DateTimeParser): (r: Result<ParsedQuery, ParseError>)
    ensures r.Success? ==>
      left.Column? && right.Value? && op == "=" && left.name in HandledFilters
    ensures r.Success? ==> Extends(q, r.value) && OnlyFilterChanged(q, r.value, left.name)
    ensures r.Success? && r.value.searchPrecision.Some? && r.value.searchPrecision != q.searchPrecision ==>
      r.value.searchPrecision.value in Precisions
  {
    match left
    case NotColumn(rendered) => Failure(InvalidFilterName(rendered))
    case Column(name) =>
      match right
      case NotValue(rendered) => Failure(InvalidValue(rendered))
      case Value(valStr) =>
        if name in StringFilters then
          var val :- ExtractStringValue(valStr);
          if op != "=" then Failure(UnsupportedOperator(name))
          else if Conflicts(StringFilter(q, name), val) then Success(q.(emptyResult := true))
          else Success(WithStringFilter(q, name, val))
        else if name in TimeFilters then
          var timestamp :- ConvertToTimestamp(valStr, parseTime);
          if op != "=" then Failure(UnsupportedOperator(name))
          else Success(WithTimeFilter(q, name, timestamp))
        else if name == SearchPrecision then
          var val :- ExtractStringValue(valStr);
          if op != "=" then Failure(UnsupportedOperator(name))
          else if Conflicts(q.searchPrecision, val) then Failure(DuplicatePrecision)
          else if val !in Precisions then Failure(InvalidPrecision(val))
          else Success(q.(searchPrecision := Some(val)))
        else
          Failure(UnknownFilter(name))
  }

  /** Depth-first, left-to-right walk of the WHERE tree, threading the query
      being built; the first error ends the walk. */
  function ConvertWhereExpr(e: Expr, q: ParsedQuery, parseTime: DateTimeParser): (r: Result<ParsedQuery, ParseError>)
    ensures r.Success? ==> Extends(q, r.value)
    ensures r.Success? && PrecisionValid(q) ==> PrecisionValid(r.value)
    decreases e, 1
  {
    match e
    case Nil => Failure(NilExpression)
    case Comparison(left, op, right) => ConvertComparison(left, op, right, q, parseTime)
    case And(lhs, rhs) => ConvertAndExpr(lhs, rhs, q, parseTime)
    case Paren(inner) => ConvertParenExpr(inner, q, parseTime)
    case Other => Failure(UnsupportedExpression)
  }

  /** Parentheses only group. */
  function ConvertParenExpr(inner: Expr, q: ParsedQuery, parseTime: DateTimeParser): (r: Result<ParsedQuery, ParseError>)
    ensures r.Success? ==> Extends(q, r.value)
    ensures r.Success? && PrecisionValid(q) ==> PrecisionValid(r.value)
    decreases Paren(inner), 0
  {
    ConvertWhereExpr(inner, q, parseTime)
  }

  /** AND: the left operand, then the right one on the query it produced. */
  function ConvertAndExpr(lhs: Expr, rhs: Expr, q: ParsedQuery, parseTime: DateTimeParser): (r: Result<ParsedQuery, ParseError>)
    ensures r.Success? ==> Extends(q, r.value)
    ensures r.Success? && PrecisionValid(q) ==> PrecisionValid(r.value)
    decreases And(lhs, rhs), 0
  {
    var afterLeft :- ConvertWhereExpr(lhs, q, parseTime);
    ConvertWhereExpr(rhs, afterLeft, parseTime)
  }

  /** Exactly one of StartTime and CloseTime is set (non-zero). */
  predicate HasSingleTimeFilter(q: ParsedQuery) {
    (q.startTime != 0) != (q.closeTime != 0)
  }

  /** Translates a WHERE tree, then insists on exactly one time filter and on a
      precision. */
  function Parse(where: Expr, parseTime: DateTimeParser): (r: Result<ParsedQuery, ParseError>)
    ensures r.Success? ==> HasSingleTimeFilter(r.value)
    ensures r.Success? ==> r.value.searchPrecision.Some? && r.value.searchPrecision.value in Precisions
  {
    var q :- ConvertWhereExpr(where, EmptyQuery, parseTime);
    if !HasSingleTimeFilter(q) then Failure(MissingTimeFilter)
    else if q.searchPrecision.None? then Failure(MissingPrecision)
    else Success(q)
  }
}
