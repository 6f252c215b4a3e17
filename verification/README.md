# Archival visibility-query translator (Google Cloud Storage archiver)

This project models, in Dafny, the filter translator that the Google Cloud
Storage archiver of Cadence uses to answer visibility queries over archived
workflow executions. A caller writes a small SQL-style WHERE clause such as

    WorkflowID = 'wf1' AND StartTime = '2020-01-01T00:00:00Z' AND SearchPrecision = 'Day'

and the translator turns it into a `parsedQuery` record: optional
WorkflowID, RunID and WorkflowType, a StartTime or CloseTime in Unix
nanoseconds, a SearchPrecision (Day, Hour, Minute or Second), and an
`emptyResult` flag that says the filter contradicts itself and no record can
match.

The model starts from the expression tree that the SQL library produces for
the WHERE clause, with column names and literal values already rendered back
to text:

- `Wrappers` — `Option` and `Result`.
- `Decimal` — 64-bit integers and Go's `strconv.ParseInt(s, 10, 64)`
  (optional sign, at least one ASCII digit, value within 64 bits), and
  `FormatInt`, whose decimal text reads back as the same integer. Other
  spellings of an integer (a `+`, leading zeros, `-0…`) are also read; they
  are not mapped back to one canonical text.
- `QueryParser` — the tree (`Expr`), the record (`ParsedQuery`), the errors,
  quote stripping, timestamp conversion, the per-field comparison rules, the
  recursive walk and `Parse` with its final checks.
- `LiteralProperties`, `FilterProperties` — the rules for literals and for
  each field, stated for all inputs.
- `WalkSemantics` — a reference semantics: the tree flattened into its
  leaves and run left to right. The walk is proved equal to it. The result
  is then described field by field: WorkflowID, RunID, WorkflowType and
  SearchPrecision keep their first value. StartTime and CloseTime keep their
  last value. The query is empty exactly when some comparison contradicts a
  kept value. The walk's error is the error of the first leaf that fails.
  `Parse` is described the same way, with its final checks on the last
  StartTime and CloseTime and the first precision. From this it follows that
  `e AND e` translates exactly like `e`.
- `Examples` — whole translations of six concrete filters.

Behaviour that the model keeps as the code has it:

- The literal's form is checked before the operator. So `WorkflowID > 5`
  reports that `5` is not a string value, not that `>` is unsupported.
- A conflicting second SearchPrecision is reported before the value is
  checked against the four precisions. An identical repeat is accepted.
- A timestamp of 0 means "no time filter". So `StartTime = 0` counts as
  missing, and a later `StartTime = 0` erases an earlier StartTime.
- A timestamp literal that is not a 64-bit decimal integer is handed to the
  quote stripper. An unquoted or out-of-range literal is therefore reported
  as "not a string value". A quoted one that is not a date-time is reported
  as a date-time parse error. There is no separate invalid-timestamp error.
- A conflicting WorkflowID, RunID or WorkflowType ends the handling of that
  comparison only. The walk goes on and later comparisons still apply.
- The final checks run even when `emptyResult` is set. A self-contradictory
  filter without exactly one time filter, or without a precision, is still
  an error.

## Model

| member | source | states |
|---|---|---|
| QueryParser.ExtractStringValue | common/archiver/gcloud/queryParser.go:250-255 | a successful result is the literal with its enclosing quotes removed; a failure names the literal |
| LiteralProperties.ExtractStringValueInverse | common/archiver/gcloud/queryParser.go:250-255 | a literal yields the string `v` exactly when it is `'v'`, so `''` gives the empty string and a lone quote is rejected |
| Decimal.ParseInt64 | common/archiver/gcloud/queryParser.go:235-238 | an accepted literal is non-empty, made of digits after an optional leading sign, and the value's sign follows the `-` |
| Decimal.ParseFormatInt | common/archiver/gcloud/queryParser.go:235-238 | the decimal text of any integer reads back as that integer when it fits in 64 bits and is rejected otherwise |
| Decimal.ParseIgnoresLeadingZero | common/archiver/gcloud/queryParser.go:235 | a leading zero, with or without a `-` before it, and an explicit `+` do not change the value read, and `-0` reads as 0 |
| QueryParser.ConvertToTimestamp | common/archiver/gcloud/queryParser.go:234-248 | text that reads as a 64-bit integer gives that integer; it fails only when the text is not a 64-bit integer; a non-integer success is the date-time parser's value for the quoted text |
| LiteralProperties.QuotedIsNotInteger | common/archiver/gcloud/queryParser.go:235-239 | a quoted literal never reads as an integer, so it always reaches the date-time path |
| LiteralProperties.TimestampFromFormatted | common/archiver/gcloud/queryParser.go:234-238 | the decimal text of any 64-bit integer gives that integer as nanoseconds |
| LiteralProperties.TimestampFromQuoted | common/archiver/gcloud/queryParser.go:239-247 | a quoted literal is unquoted and the date-time parser's answer decides success or a date-time error |
| LiteralProperties.TimestampFormsAgree | common/archiver/gcloud/queryParser.go:234-247 | a date-time and the nanosecond integer it denotes give the same timestamp |
| LiteralProperties.TimestampRejectsBareText | common/archiver/gcloud/queryParser.go:239-242 | text that is neither a 64-bit integer nor quoted is rejected as not a string value |
| LiteralProperties.TimestampRejectsOutOfRange | common/archiver/gcloud/queryParser.go:235-242 | an integer outside 64 bits does not wrap around; it is rejected as not a string value |
| QueryParser.ConvertComparison | common/archiver/gcloud/queryParser.go:135-232 | success needs a column, a literal, `=` and one of the six handled names; it never replaces a kept value, never clears `emptyResult`, changes only the named field (plus `emptyResult` for the three string filters), and any new precision is one of the four |
| FilterProperties.StringFilterFirstValue | common/archiver/gcloud/queryParser.go:148-161 | the first WorkflowID, RunID or WorkflowType value is stored, `emptyResult` is untouched and no other field changes |
| FilterProperties.StringFilterConflictEmptiesResult | common/archiver/gcloud/queryParser.go:157-160 | a different second WorkflowID, RunID or WorkflowType is not an error; it sets `emptyResult` and keeps the stored value |
| FilterProperties.StringFilterRepeatIsNoOp | common/archiver/gcloud/queryParser.go:157-161 | repeating the stored WorkflowID, RunID or WorkflowType leaves the query unchanged |
| FilterProperties.TimeFilterOverwrites | common/archiver/gcloud/queryParser.go:175-193 | a StartTime or CloseTime comparison with any literal the timestamp conversion accepts, integer or date-time, sets that field to its value whatever it held, and changes nothing else |
| FilterProperties.LastTimeFilterWins | common/archiver/gcloud/queryParser.go:175-193 | of two ANDed comparisons on the same time filter, with literals of any accepted form, the second one's value remains |
| FilterProperties.DuplicatePrecisionReportedFirst | common/archiver/gcloud/queryParser.go:207-217 | a different second SearchPrecision fails with the duplicate error, even when the new value is not a precision at all |
| FilterProperties.PrecisionAcceptedIffValid | common/archiver/gcloud/queryParser.go:207-226 | with no earlier or an equal earlier precision, the value is recorded if it is Day, Hour, Minute or Second and rejected as invalid otherwise |
| FilterProperties.OnlyEqualityAccepted | common/archiver/gcloud/queryParser.go:148-213 | on any handled name with a well-formed literal, an operator other than `=` fails naming the field |
| FilterProperties.LiteralCheckedBeforeOperator | common/archiver/gcloud/queryParser.go:149-155 | a malformed literal is reported whatever the operator |
| FilterProperties.MalformedComparisonRejected | common/archiver/gcloud/queryParser.go:135-148 | a non-column left side, then a non-literal right side, then an unhandled name, each fail with their own error |
| FilterProperties.CloseStatusIsUnknown | common/archiver/gcloud/queryParser.go:227-228 | CloseStatus is rejected as an unknown filter name |
| QueryParser.ConvertWhereExpr | common/archiver/gcloud/queryParser.go:107-122 | a successful walk never replaces a kept value, never clears `emptyResult`, and keeps the precision within the four values |
| QueryParser.ConvertParenExpr | common/archiver/gcloud/queryParser.go:124-126 | the same guarantees for a parenthesised subtree |
| QueryParser.ConvertAndExpr | common/archiver/gcloud/queryParser.go:128-133 | the same guarantees across both operands of AND |
| WalkSemantics.WalkMatchesRun | common/archiver/gcloud/queryParser.go:107-133 | the walk equals applying the tree's leaves one after another from left to right |
| WalkSemantics.SameLeavesSameWalk | common/archiver/gcloud/queryParser.go:115-126 | trees with the same leaves in the same order translate alike |
| WalkSemantics.RunStopsAtFirstError | common/archiver/gcloud/queryParser.go:128-133 | running the leaves fails exactly when some leaf fails after all earlier ones succeeded, and then with that leaf's error |
| WalkSemantics.WalkStopsAtFirstError | common/archiver/gcloud/queryParser.go:107-133 | the walk fails exactly when some leaf of the tree, in reading order, fails after the earlier ones succeeded, and its error is the walk's error |
| WalkSemantics.AndIsAssociative | common/archiver/gcloud/queryParser.go:128-133 | regrouping ANDs does not change the translation |
| WalkSemantics.RunKeepsFirstString | common/archiver/gcloud/queryParser.go:157-161 | after a successful walk each of WorkflowID, RunID and WorkflowType holds the first value given to it |
| WalkSemantics.RunKeepsFirstPrecision | common/archiver/gcloud/queryParser.go:215-226 | after a successful walk the precision is the first one given |
| WalkSemantics.RunKeepsLastTimestamp | common/archiver/gcloud/queryParser.go:175-193 | after a successful walk each time filter holds the last value given to it |
| WalkSemantics.RunEmptyIffContradiction | common/archiver/gcloud/queryParser.go:157-160 | the result is empty exactly when some WorkflowID, RunID or WorkflowType comparison disagrees with the kept value |
| WalkSemantics.ReplaySucceeds | common/archiver/gcloud/queryParser.go:215-216 | a duplicate precision is the only error that depends on earlier comparisons |
| WalkSemantics.RunIsIdempotent | common/archiver/gcloud/queryParser.go:135-232 | applying the same comparisons again to their own result changes nothing |
| WalkSemantics.FilterIsIdempotent | common/archiver/gcloud/queryParser.go:128-133 | `e AND e` translates exactly like `e` |
| QueryParser.Parse | common/archiver/gcloud/queryParser.go:85-105 | a successful parse has exactly one non-zero time filter and a precision among Day, Hour, Minute and Second |
| WalkSemantics.ParseMatchesReference | common/archiver/gcloud/queryParser.go:85-105 | in terms of the leaves: a failing walk's error is returned; otherwise, with the last StartTime and CloseTime (0 if none) and the first precision, both or neither time non-zero is a missing time filter, then no precision is a missing precision, else the result holds those values, the first WorkflowID, RunID and WorkflowType, and is empty exactly when some comparison contradicts them |
| WalkSemantics.ParseIsIdempotent | common/archiver/gcloud/queryParser.go:85-105 | `e AND e` parses exactly like `e` |

## Left out

- The SQL grammar (`sqlparser.Parse` on `select * from dummy where <query>`) is left out. The model takes the expression tree as its input, so its syntax errors do not appear.
- Rendering of tree nodes back to text (`sqlparser.String`) is left out. Column names and literals arrive as already-rendered strings.
- RFC 3339 parsing (`time.Parse`) and the conversion to Unix nanoseconds (`UnixNano`) are calendar arithmetic in the Go runtime. They are a function parameter (`DateTimeParser`). Whatever it returns for a date outside the 64-bit nanosecond range is taken as given.
- Error message text is left out. Errors are tagged variants that carry the field name or literal the message would show.
- The `QueryParser` interface, its constructor and the mock-generation directive have no logic and are left out.
- `common/persistence/nosql/nosqlplugin/cassandra/gocql/batch.go` is left out. It passes calls through to the Cassandra driver and has no decision logic.
- Decimal.ParseInt64: collapses `strconv.ParseInt`'s syntax error and range error, and the clamped value returned with the range error, into `None`. The caller only tests whether the error is nil.
