/** A reference semantics for the WHERE-tree walk. The tree is flattened into
    the list of its leaves in reading order, and the leaves are applied one
    after another to the query being built. The walk is shown equal to this
    sequential run, and the run's result is then described field by field:
    set-once filters keep their first value, time filters their last, and the
    query is empty exactly when some comparison contradicts a kept value.
    Idempotence follows: repeating a filter never changes the query. */
module WalkSemantics {
  import opened Wrappers
  import opened Decimal
  import opened QueryParser

  /** One leaf of the WHERE tree: a comparison, or a node the walk rejects. */
  datatype Step = Compare(left: Operand, op: string, right: Literal) | Reject(error: ParseError)

  /** The leaves of a tree, left to right; AND and parentheses leave no trace. */
  function Flatten(e: Expr): (steps: seq<Step>)
    ensures |steps| > 0
  {
    match e
    case Comparison(left, op, right) => [Compare(left, op, right)]
    case And(lhs, rhs) => Flatten(lhs) + Flatten(rhs)
    case Paren(inner) => Flatten(inner)
    case Other => [Reject(UnsupportedExpression)]
    case Nil => [Reject(NilExpression)]
  }

  function ApplyStep(step: Step, q: ParsedQuery, parseTime: DateTimeParser): Result<ParsedQuery, ParseError> {
    match step
    case Compare(left, op, right) => ConvertComparison(left, op, right, q, parseTime)
    case Reject(error) => Failure(error)
  }

  /** Applies the steps in order, stopping at the first error. */
  function Run(steps: seq<Step>, q: ParsedQuery, parseTime: DateTimeParser): (r: Result<ParsedQuery, ParseError>)
    ensures r.Success? ==> Extends(q, r.value)
    ensures r.Success? && PrecisionValid(q) ==> PrecisionValid(r.value)
    decreases |steps|
  {
    if |steps| == 0 then Success(q)
    else
      var next :- ApplyStep(steps[0], q, parseTime);
      Run(steps[1..], next, parseTime)
  }

  /** Running `a + b` is running `a`, then `b` on its result. */
  lemma {:induction false} RunAppend(a: seq<Step>, b: seq<Step>, q: ParsedQuery, parseTime: DateTimeParser)
    ensures Run(a + b, q, parseTime) ==
      match Run(a, q, parseTime)
      case Failure(error) => Failure(error)
      case Success(q1) => Run(b, q1, parseTime)
    decreases |a|
  {
    if |a| == 0 {
      assert a + b == b;
    } else {
      assert (a + b)[0] == a[0];
      assert (a + b)[1..] == a[1..] + b;
      match ApplyStep(a[0], q, parseTime) {
        case Failure(_) =>
        case Success(next) => RunAppend(a[1..], b, next, parseTime);
      }
    }
  }

  /** The tree walk is the sequential run over the tree's leaves. */
  lemma {:induction false} WalkMatchesRun(e: Expr, q: ParsedQuery, parseTime: DateTimeParser)
    ensures ConvertWhereExpr(e, q, parseTime) == Run(Flatten(e), q, parseTime)
    decreases e
  {
    match e
    case Comparison(left, op, right) =>
      assert Flatten(e)[1..] == [];
    case And(lhs, rhs) =>
      WalkMatchesRun(lhs, q, parseTime);
      RunAppend(Flatten(lhs), Flatten(rhs), q, parseTime);
      match ConvertWhereExpr(lhs, q, parseTime) {
        case Failure(_) =>
        case Success(q1) => WalkMatchesRun(rhs, q1, parseTime);
      }
    case Paren(inner) =>
      WalkMatchesRun(inner, q, parseTime);
    case Other =>
    case Nil =>
  }

  /** Step `k` is the first to fail: the steps before it all succeed, and it
      fails on the query they produce. */
  predicate FailsFirstAt(steps: seq<Step>, k: int, q: ParsedQuery, parseTime: DateTimeParser) {
    && 0 <= k < |steps|
    && Run(steps[..k], q, parseTime).Success?
    && ApplyStep(steps[k], Run(steps[..k], q, parseTime).value, parseTime).Failure?
  }

  /** The error of a failing step. */
  function StepError(steps: seq<Step>, k: int, q: ParsedQuery, parseTime: DateTimeParser): ParseError
    requires FailsFirstAt(steps, k, q, parseTime)
  {
    ApplyStep(steps[k], Run(steps[..k], q, parseTime).value, parseTime).error
  }

  /** A run fails exactly when some step fails first, and then with that
      step's error: nothing after the first error is looked at. */
  lemma {:induction false} RunStopsAtFirstError(steps: seq<Step>, q: ParsedQuery, parseTime: DateTimeParser)
    ensures Run(steps, q, parseTime).Failure? <==> exists k :: FailsFirstAt(steps, k, q, parseTime)
    ensures forall k :: FailsFirstAt(steps, k, q, parseTime) ==>
      Run(steps, q, parseTime) == Failure(StepError(steps, k, q, parseTime))
    decreases |steps|
  {
    forall k | FailsFirstAt(steps, k, q, parseTime)
      ensures Run(steps, q, parseTime) == Failure(StepError(steps, k, q, parseTime))
    {
      assert steps == steps[..k] + steps[k..];
      RunAppend(steps[..k], steps[k..], q, parseTime);
      assert steps[k..][0] == steps[k];
    }
    if |steps| > 0 && Run(steps, q, parseTime).Failure? {
      match ApplyStep(steps[0], q, parseTime) {
        case Failure(_) =>
          assert steps[..0] == [];
          assert FailsFirstAt(steps, 0, q, parseTime);
        case Success(next) =>
          var rest := steps[1..];
          RunStopsAtFirstError(rest, next, parseTime);
          var j :| FailsFirstAt(rest, j, next, parseTime);
          assert steps[..j + 1] == [steps[0]] + rest[..j];
          RunAppend([steps[0]], rest[..j], q, parseTime);
          assert [steps[0]][1..] == [];
          assert Run([steps[0]], q, parseTime) == Success(next);
          assert steps[j + 1] == rest[j];
          assert FailsFirstAt(steps, j + 1, q, parseTime);
      }
    }
  }

  /** The walk of a tree fails exactly when some leaf, taken in reading order,
      fails first; its error is then the walk's error. AND thus stops at its
      left operand's error, and an unsupported or missing node is an error as
      soon as it is reached. */
  lemma WalkStopsAtFirstError(e: Expr, q: ParsedQuery, parseTime: DateTimeParser)
    ensures ConvertWhereExpr(e, q, parseTime).Failure? <==> exists k :: FailsFirstAt(Flatten(e), k, q, parseTime)
    ensures forall k :: FailsFirstAt(Flatten(e), k, q, parseTime) ==>
      ConvertWhereExpr(e, q, parseTime) == Failure(StepError(Flatten(e), k, q, parseTime))
  {
    WalkMatchesRun(e, q, parseTime);
    RunStopsAtFirstError(Flatten(e), q, parseTime);
  }

  /** Two trees with the same leaves in the same order translate alike: the
      grouping of ANDs and any parentheses are irrelevant. */
  lemma SameLeavesSameWalk(e1: Expr, e2: Expr, q: ParsedQuery, parseTime: DateTimeParser)
    requires Flatten(e1) == Flatten(e2)
    ensures ConvertWhereExpr(e1, q, parseTime) == ConvertWhereExpr(e2, q, parseTime)
  {
    WalkMatchesRun(e1, q, parseTime);
    WalkMatchesRun(e2, q, parseTime);
  }

  /** AND is associative. */
  lemma AndIsAssociative(a: Expr, b: Expr, c: Expr, q: ParsedQuery, parseTime: DateTimeParser)
    ensures ConvertWhereExpr(And(And(a, b), c), q, parseTime) == ConvertWhereExpr(And(a, And(b, c)), q, parseTime)
  {
    assert Flatten(And(And(a, b), c)) == Flatten(And(a, And(b, c)));
    SameLeavesSameWalk(And(And(a, b), c), And(a, And(b, c)), q, parseTime);
  }

  // ---------------------------------------------------------------------
  // The result of a run, field by field.

  /** The value a step compares the set-once filter `name` with, when it is
      such a comparison with a quoted literal. */
  function StepString(step: Step, name: string): Option<string> {
    if step.Compare? && step.left == Column(name) && step.right.Value?
       && ExtractStringValue(step.right.rendered).Success?
    then Some(ExtractStringValue(step.right.rendered).value)
    else None
  }

  /** The first value any step gives to the set-once filter `name`. */
  function FirstString(steps: seq<Step>, name: string): Option<string>
    decreases |steps|
  {
    if |steps| == 0 then None
    else if StepString(steps[0], name).Some? then StepString(steps[0], name)
    else FirstString(steps[1..], name)
  }

  /** The timestamp a step gives to the time filter `name`, if any. */
  function StepTimestamp(step: Step, name: string, parseTime: DateTimeParser): Option<Int64> {
    if step.Compare? && step.left == Column(name) && step.right.Value?
       && ConvertToTimestamp(step.right.rendered, parseTime).Success?
    then Some(ConvertToTimestamp(step.right.rendered, parseTime).value)
    else None
  }

  /** The last timestamp the steps give to `name`, or `current` if none does. */
  function LastTimestamp(steps: seq<Step>, name: string, parseTime: DateTimeParser, current: Int64): Int64
    decreases |steps|
  {
    if |steps| == 0 then current
    else
      var next := match StepTimestamp(steps[0], name, parseTime)
        case Some(t) => t
        case None => current;
      LastTimestamp(steps[1..], name, parseTime, next)
  }

  /** `kept` if present, else `fallback`. */
  function OrElse(kept: Option<string>, fallback: Option<string>): Option<string> {
    if kept.Some? then kept else fallback
  }

  /** The step compares a WorkflowID, RunID or WorkflowType with a value other
      than the one `q` keeps. */
  predicate Contradicts(step: Step, q: ParsedQuery) {
    && step.Compare? && step.left.Column? && step.left.name in StringFilters
    && StepString(step, step.left.name).Some?
    && StringFilter(q, step.left.name) != StepString(step, step.left.name)
  }

  /** A successful run keeps, for each set-once filter, the value it started
      with or else the first value compared against. */
  lemma {:induction false} RunKeepsFirstString(steps: seq<Step>, name: string, q: ParsedQuery, parseTime: DateTimeParser)
    requires name in StringFilters
    requires Run(steps, q, parseTime).Success?
    ensures StringFilter(Run(steps, q, parseTime).value, name) == OrElse(StringFilter(q, name), FirstString(steps, name))
    decreases |steps|
  {
    if |steps| > 0 {
      var next := ApplyStep(steps[0], q, parseTime).value;
      RunKeepsFirstString(steps[1..], name, next, parseTime);
      if StepString(steps[0], name).None? {
        assert StringFilter(next, name) == StringFilter(q, name);
      }
    }
  }

  /** A successful run keeps the precision it started with or else the first
      one compared against. */
  lemma {:induction false} RunKeepsFirstPrecision(steps: seq<Step>, q: ParsedQuery, parseTime: DateTimeParser)
    requires Run(steps, q, parseTime).Success?
    ensures Run(steps, q, parseTime).value.searchPrecision == OrElse(q.searchPrecision, FirstString(steps, SearchPrecision))
    decreases |steps|
  {
    if |steps| > 0 {
      var next := ApplyStep(steps[0], q, parseTime).value;
      RunKeepsFirstPrecision(steps[1..], next, parseTime);
      if StepString(steps[0], SearchPrecision).None? {
        assert next.searchPrecision == q.searchPrecision;
      }
    }
  }

  /** A successful run leaves each time filter at the last timestamp compared
      against, or where it started if there is none. */
  lemma {:induction false} RunKeepsLastTimestamp(steps: seq<Step>, name: string, q: ParsedQuery, parseTime: DateTimeParser)
    requires name in TimeFilters
    requires Run(steps, q, parseTime).Success?
    ensures TimeFilter(Run(steps, q, parseTime).value, name) == LastTimestamp(steps, name, parseTime, TimeFilter(q, name))
    decreases |steps|
  {
    if |steps| > 0 {
      var next := ApplyStep(steps[0], q, parseTime).value;
      RunKeepsLastTimestamp(steps[1..], name, next, parseTime);
      if StepTimestamp(steps[0], name, parseTime).None? {
        assert TimeFilter(next, name) == TimeFilter(q, name);
      }
    }
  }

  /** A successful run ends with an empty result exactly when it started with
      one or some step contradicts a value the final query keeps. */
  lemma {:induction false} RunEmptyIffContradiction(steps: seq<Step>, q: ParsedQuery, parseTime: DateTimeParser)
    requires Run(steps, q, parseTime).Success?
    ensures var q1 := Run(steps, q, parseTime).value;
      q1.emptyResult <==> q.emptyResult || exists i :: 0 <= i < |steps| && Contradicts(steps[i], q1)
    decreases |steps|
  {
    if |steps| > 0 {
      var q1 := Run(steps, q, parseTime).value;
      var next := ApplyStep(steps[0], q, parseTime).value;
      assert q1 == Run(steps[1..], next, parseTime).value;
      RunEmptyIffContradiction(steps[1..], next, parseTime);
      assert next.emptyResult <==> q.emptyResult || Contradicts(steps[0], q1);
      if exists j :: 0 <= j < |steps[1..]| && Contradicts(steps[1..][j], q1) {
        var j :| 0 <= j < |steps[1..]| && Contradicts(steps[1..][j], q1);
        assert Contradicts(steps[j + 1], q1);
      }
      if exists i :: 0 <= i < |steps| && Contradicts(steps[i], q1) {
        var i :| 0 <= i < |steps| && Contradicts(steps[i], q1);
        if i > 0 {
          assert Contradicts(steps[1..][i - 1], q1);
        }
      }
    }
  }

  // ---------------------------------------------------------------------
  // Idempotence.

  /** Once the steps have been run, the time filters are where a second run
      would leave them. */
  lemma LastTimestampAbsorbs(steps: seq<Step>, name: string, parseTime: DateTimeParser, c: Int64)
    ensures var once := LastTimestamp(steps, name, parseTime, c);
      LastTimestamp(steps, name, parseTime, once) == once
  {
  }

  /** A run that succeeded from `q` also succeeds from any query holding the
      precision it ended with: the only error that depends on the query being
      built is a conflicting precision. */
  lemma {:induction false} ReplaySucceeds(steps: seq<Step>, q: ParsedQuery, s: ParsedQuery, parseTime: DateTimeParser)
    requires Run(steps, q, parseTime).Success?
    requires s.searchPrecision == Run(steps, q, parseTime).value.searchPrecision
    ensures Run(steps, s, parseTime).Success?
    decreases |steps|
  {
    if |steps| > 0 {
      var q1 := Run(steps, q, parseTime).value;
      var next := ApplyStep(steps[0], q, parseTime).value;
      assert q1 == Run(steps[1..], next, parseTime).value;
      var step := steps[0];
      var after := ApplyStep(step, s, parseTime);
      if step.left.name == SearchPrecision {
        assert next.searchPrecision.Some?;
        assert q1.searchPrecision == next.searchPrecision;
      }
      assert after.Success?;
      assert after.value.searchPrecision == q1.searchPrecision;
      ReplaySucceeds(steps[1..], next, after.value, parseTime);
    }
  }

  /** Running the same steps a second time changes nothing. */
  lemma RunIsIdempotent(steps: seq<Step>, q: ParsedQuery, parseTime: DateTimeParser)
    requires Run(steps, q, parseTime).Success?
    ensures var q1 := Run(steps, q, parseTime).value;
      Run(steps, q1, parseTime) == Success(q1)
  {
    var q1 := Run(steps, q, parseTime).value;
    ReplaySucceeds(steps, q, q1, parseTime);
    var q2 := Run(steps, q1, parseTime).value;
    forall name | name in StringFilters
      ensures StringFilter(q2, name) == StringFilter(q1, name)
    {
      RunKeepsFirstString(steps, name, q, parseTime);
      RunKeepsFirstString(steps, name, q1, parseTime);
    }
    assert q2.workflowID == q1.workflowID by { assert StringFilter(q2, WorkflowID) == StringFilter(q1, WorkflowID); }
    assert q2.runID == q1.runID by { assert StringFilter(q2, RunID) == StringFilter(q1, RunID); }
    assert q2.workflowType == q1.workflowType by { assert StringFilter(q2, WorkflowType) == StringFilter(q1, WorkflowType); }
    RunKeepsFirstPrecision(steps, q, parseTime);
    RunKeepsFirstPrecision(steps, q1, parseTime);
    forall name | name in TimeFilters
      ensures TimeFilter(q2, name) == TimeFilter(q1, name)
    {
      RunKeepsLastTimestamp(steps, name, q, parseTime);
      RunKeepsLastTimestamp(steps, name, q1, parseTime);
      LastTimestampAbsorbs(steps, name, parseTime, TimeFilter(q, name));
    }
    assert q2.startTime == q1.startTime by { assert TimeFilter(q2, StartTime) == TimeFilter(q1, StartTime); }
    assert q2.closeTime == q1.closeTime by { assert TimeFilter(q2, CloseTime) == TimeFilter(q1, CloseTime); }
    RunEmptyIffContradiction(steps, q1, parseTime);
    RunEmptyIffContradiction(steps, q, parseTime);
  }

  /** `e AND e` translates exactly like `e`: asserting the same filter twice
      neither fails nor empties the result. */
  lemma FilterIsIdempotent(e: Expr, q: ParsedQuery, parseTime: DateTimeParser)
    ensures ConvertWhereExpr(And(e, e), q, parseTime) == ConvertWhereExpr(e, q, parseTime)
  {
    WalkMatchesRun(e, q, parseTime);
    match ConvertWhereExpr(e, q, parseTime)
    case Failure(_) =>
    case Success(q1) =>
      RunIsIdempotent(Flatten(e), q, parseTime);
      WalkMatchesRun(e, q1, parseTime);
  }

  /** Hence `Parse` gives the same answer for `e AND e` as for `e`. */
  lemma ParseIsIdempotent(e: Expr, parseTime: DateTimeParser)
    ensures Parse(And(e, e), parseTime) == Parse(e, parseTime)
  {
    FilterIsIdempotent(e, EmptyQuery, parseTime);
  }

  /** `Parse` in terms of the tree's leaves. If the walk fails, its error is
      returned. Otherwise let `st` and `ct` be the last StartTime and CloseTime
      given (0 if none) and `pr` the first SearchPrecision. Both or neither of
      `st` and `ct` non-zero is a missing time filter, even when the result is
      empty; then a missing precision is reported; otherwise the query holds
      exactly those values and the first WorkflowID, RunID and WorkflowType,
      and it is empty exactly when some comparison contradicts one of them. */
  lemma ParseMatchesReference(e: Expr, parseTime: DateTimeParser)
    ensures var steps := Flatten(e);
      var st := LastTimestamp(steps, StartTime, parseTime, 0);
      var ct := LastTimestamp(steps, CloseTime, parseTime, 0);
      var pr := FirstString(steps, SearchPrecision);
      var r := Parse(e, parseTime);
      && (Run(steps, EmptyQuery, parseTime).Failure? ==> r == Failure(Run(steps, EmptyQuery, parseTime).error))
      && (Run(steps, EmptyQuery, parseTime).Success? ==>
            && ((st != 0) == (ct != 0) ==> r == Failure(MissingTimeFilter))
            && ((st != 0) != (ct != 0) && pr.None? ==> r == Failure(MissingPrecision))
            && ((st != 0) != (ct != 0) && pr.Some? ==>
                  && r.Success?
                  && r.value.startTime == st && r.value.closeTime == ct
                  && r.value.searchPrecision == pr
                  && r.value.workflowID == FirstString(steps, WorkflowID)
                  && r.value.runID == FirstString(steps, RunID)
                  && r.value.workflowType == FirstString(steps, WorkflowType)
                  && (r.value.emptyResult <==> exists i :: 0 <= i < |steps| && Contradicts(steps[i], r.value))))
  {
    var steps := Flatten(e);
    WalkMatchesRun(e, EmptyQuery, parseTime);
    if Run(steps, EmptyQuery, parseTime).Success? {
      var q := Run(steps, EmptyQuery, parseTime).value;
      RunKeepsLastTimestamp(steps, StartTime, EmptyQuery, parseTime);
      RunKeepsLastTimestamp(steps, CloseTime, EmptyQuery, parseTime);
      RunKeepsFirstPrecision(steps, EmptyQuery, parseTime);
      RunKeepsFirstString(steps, WorkflowID, EmptyQuery, parseTime);
      RunKeepsFirstString(steps, RunID, EmptyQuery, parseTime);
      RunKeepsFirstString(steps, WorkflowType, EmptyQuery, parseTime);
      RunEmptyIffContradiction(steps, EmptyQuery, parseTime);
    }
  }
}
