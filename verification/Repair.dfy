/** Which failures are worth another attempt, and what the model is told (application/repair.py). */
module Repair {
  import opened Collections
  import opened Issues
  import opened GateSpec

  const REPAIRABLE_CODES: set<Code> := {
    SqlParseFailed, UnknownTable, UnknownColumn, SelectStarForbidden, DeniedFunction}

  const NON_REPAIRABLE_CODES: set<Code> := {
    NonReadOnlyStatement, ForbiddenStatement, MultipleStatements, CommentPresent, SystemCatalogAccess,
    CrossDatabaseAccess, SchemaNotAllowed, ColumnDenied, TableDenied, TableNotAllowed, CartesianProduct,
    TooManyJoins, SubqueryTooDeep, TooManyColumns, EstimatedCostTooHigh}

  const SECURITY_CODES: set<Code> := {
    NonReadOnlyStatement, ForbiddenStatement, MultipleStatements, CommentPresent, SystemCatalogAccess,
    CrossDatabaseAccess, SchemaNotAllowed}

  /** Every code is repairable or not, never both; the codes the failure mapper singles out are
      together exactly those that are not, and its three groups are disjoint. */
  lemma CodesPartitioned(code: Code)
    ensures code in REPAIRABLE_CODES <==> code !in NON_REPAIRABLE_CODES
    ensures AUTH_CODES + COST_CODES + SECURITY_CODES == NON_REPAIRABLE_CODES
    ensures AUTH_CODES !! COST_CODES && COST_CODES !! SECURITY_CODES && AUTH_CODES !! SECURITY_CODES
  {
    match code
    case SqlParseFailed => case UnknownTable => case UnknownColumn => case SelectStarForbidden =>
    case DeniedFunction => case NonReadOnlyStatement => case ForbiddenStatement => case MultipleStatements =>
    case CommentPresent => case SystemCatalogAccess => case CrossDatabaseAccess => case SchemaNotAllowed =>
    case ColumnDenied => case TableDenied => case TableNotAllowed => case CartesianProduct =>
    case TooManyJoins => case SubqueryTooDeep => case TooManyColumns => case EstimatedCostTooHigh =>
  }

  predicate IsRepairable(issues: seq<Issue>) {
    && issues != []
    && Codes(issues) * NON_REPAIRABLE_CODES == {}
    && Codes(issues) * REPAIRABLE_CODES != {}
  }

  /** Repairable: something is wrong, and nothing but correctness. */
  lemma RepairableExactly(issues: seq<Issue>)
    ensures IsRepairable(issues) <==> issues != [] && Codes(issues) <= REPAIRABLE_CODES
  {
    forall code: Code
      ensures code in REPAIRABLE_CODES <==> code !in NON_REPAIRABLE_CODES
    {
      CodesPartitioned(code);
    }
    if issues != [] {
      assert issues[0] in issues;
      assert issues[0].code in Codes(issues);
    }
    if Codes(issues) * NON_REPAIRABLE_CODES == {} {
      forall code | code in Codes(issues)
        ensures code in REPAIRABLE_CODES
      {
        assert code !in Codes(issues) * NON_REPAIRABLE_CODES;
      }
    }
    if issues != [] && Codes(issues) <= REPAIRABLE_CODES {
      assert issues[0].code in Codes(issues) * REPAIRABLE_CODES;
    }
  }

  // ----- feedback -----

  function CodeName(code: Code): string {
    match code
    case SqlParseFailed => "sql_parse_failed"
    case UnknownTable => "unknown_table"
    case UnknownColumn => "unknown_column"
    case SelectStarForbidden => "select_star_forbidden"
    case DeniedFunction => "denied_function"
    case NonReadOnlyStatement => "non_read_only_statement"
    case ForbiddenStatement => "forbidden_statement"
    case MultipleStatements => "multiple_statements"
    case CommentPresent => "comment_present"
    case SystemCatalogAccess => "system_catalog_access"
    case CrossDatabaseAccess => "cross_database_access"
    case SchemaNotAllowed => "schema_not_allowed"
    case ColumnDenied => "column_denied"
    case TableDenied => "table_denied"
    case TableNotAllowed => "table_not_allowed"
    case CartesianProduct => "cartesian_product"
    case TooManyJoins => "too_many_joins"
    case SubqueryTooDeep => "subquery_too_deep"
    case TooManyColumns => "too_many_columns"
    case EstimatedCostTooHigh => "estimated_cost_too_high"
  }

  function Hint(issue: Issue): string {
    CodeName(issue.code) + ": " + issue.message
  }

  function HintOf(): Issue -> string {
    (issue: Issue) => Hint(issue)
  }

  function Correctness(): Issue -> bool {
    (issue: Issue) => issue.code in REPAIRABLE_CODES
  }

  function Hints(issues: seq<Issue>): seq<string> {
    Map(Filter(issues, Correctness()), HintOf())
  }

  /** The hints for the next attempt: correctness issues only, in order, each line once. */
  function Feedback(issues: seq<Issue>): seq<string> {
    Distinct(Hints(issues))
  }

  lemma HintsSnoc(issues: seq<Issue>, issue: Issue)
    ensures Hints(issues + [issue]) == Hints(issues) + if issue.code in REPAIRABLE_CODES then [Hint(issue)] else []
  {
    FilterAppend(issues, [issue], Correctness());
    assert [issue][1..] == [];
    MapAppend(Filter(issues, Correctness()), Filter([issue], Correctness()), HintOf());
  }

  method SanitizedFeedback(issues: seq<Issue>) returns (feedback: seq<string>)
    ensures feedback == Feedback(issues)
  {
    var lines: seq<string> := [];
    assert issues[..0] == [];
    for i := 0 to |issues|
      invariant lines == Hints(issues[..i])
    {
      assert issues[..i + 1] == issues[..i] + [issues[i]];
      HintsSnoc(issues[..i], issues[i]);
      if issues[i].code in REPAIRABLE_CODES {
        lines := lines + [CodeName(issues[i].code) + ": " + issues[i].message];
      }
    }
    assert issues[..|issues|] == issues;
    feedback := Distinct(lines);
  }

  /** The line a correctness issue is fed back as; other issues are not. */
  predicate FedBack(issue: Issue, line: string) {
    match issue.code
    case SqlParseFailed => line == "sql_parse_failed: " + issue.message
    case UnknownTable => line == "unknown_table: " + issue.message
    case UnknownColumn => line == "unknown_column: " + issue.message
    case SelectStarForbidden => line == "select_star_forbidden: " + issue.message
    case DeniedFunction => line == "denied_function: " + issue.message
    case _ => false
  }

  lemma HintExactly(issue: Issue, line: string)
    ensures FedBack(issue, line) <==> issue.code in REPAIRABLE_CODES && line == Hint(issue)
  {
    CodesPartitioned(issue.code);
    assert CodeName(issue.code) + ": " + issue.message == CodeName(issue.code) + (": " + issue.message);
    match issue.code
    case SqlParseFailed => assert "sql_parse_failed: " == CodeName(issue.code) + ": ";
    case UnknownTable => assert "unknown_table: " == CodeName(issue.code) + ": ";
    case UnknownColumn => assert "unknown_column: " == CodeName(issue.code) + ": ";
    case SelectStarForbidden => assert "select_star_forbidden: " == CodeName(issue.code) + ": ";
    case DeniedFunction => assert "denied_function: " == CodeName(issue.code) + ": ";
    case _ =>
  }

  /** The feedback carries exactly the correctness findings, and nothing twice. */
  lemma FeedbackExactly(issues: seq<Issue>, line: string)
    ensures line in Feedback(issues) <==> exists i :: i in issues && FedBack(i, line)
    ensures Unique(Feedback(issues))
  {
    HintsAre(issues, line);
    assert forall i :: FedBack(i, line) <==> i.code in REPAIRABLE_CODES && line == Hint(i) by {
      forall i
        ensures FedBack(i, line) <==> i.code in REPAIRABLE_CODES && line == Hint(i)
      {
        HintExactly(i, line);
      }
    }
  }

  lemma HintsAre(issues: seq<Issue>, line: string)
    ensures line in Feedback(issues) <==> exists i :: i in issues && i.code in REPAIRABLE_CODES && line == Hint(i)
    ensures Unique(Feedback(issues))
  {
    var kept := Filter(issues, Correctness());
    DistinctUnique(Map(kept, HintOf()));
    DistinctMember(Map(kept, HintOf()), line);
    if line in Map(kept, HintOf()) {
      var k :| 0 <= k < |kept| && Map(kept, HintOf())[k] == line;
      FilterMember(issues, Correctness(), kept[k]);
    }
    if i :| i in issues && i.code in REPAIRABLE_CODES && line == Hint(i) {
      FilterMember(issues, Correctness(), i);
      var k :| 0 <= k < |kept| && kept[k] == i;
      assert Map(kept, HintOf())[k] == line;
    }
  }

  // ----- what the caller is told -----

  datatype Failure = AuthorizationFailure | CostRejected | SafetyViolation | RepairExhausted

  function ClassifyFailure(issues: seq<Issue>): Failure {
    if Codes(issues) * AUTH_CODES != {} then AuthorizationFailure
    else if Codes(issues) * COST_CODES != {} then CostRejected
    else if Codes(issues) * SECURITY_CODES != {} then SafetyViolation
    else RepairExhausted
  }

  /** The last resort is reached exactly when there is nothing but correctness to complain about. */
  lemma ExhaustedExactly(issues: seq<Issue>)
    ensures ClassifyFailure(issues) == RepairExhausted <==> Codes(issues) <= REPAIRABLE_CODES
  {
    forall code: Code
      ensures code in REPAIRABLE_CODES <==> code !in NON_REPAIRABLE_CODES
      ensures code in NON_REPAIRABLE_CODES <==> code in AUTH_CODES || code in COST_CODES || code in SECURITY_CODES
    {
      CodesPartitioned(code);
    }
    if ClassifyFailure(issues) == RepairExhausted {
      forall code | code in Codes(issues)
        ensures code in REPAIRABLE_CODES
      {
        assert code !in Codes(issues) * AUTH_CODES;
        assert code !in Codes(issues) * COST_CODES;
        assert code !in Codes(issues) * SECURITY_CODES;
      }
    }
  }

  /** The codes of one stage of the gate. */
  predicate OneStage(codes: set<Code>) {
    codes == {SqlParseFailed} || codes <= VALIDATION_CODES || codes <= AUTH_CODES || codes <= COST_CODES
  }

  lemma StageDecides(issues: seq<Issue>)
    requires issues != [] && OneStage(Codes(issues))
    ensures ClassifyFailure(issues) == AuthorizationFailure <==> Codes(issues) <= AUTH_CODES
    ensures ClassifyFailure(issues) == CostRejected <==> Codes(issues) <= COST_CODES
    ensures ClassifyFailure(issues) == RepairExhausted <==> IsRepairable(issues)
  {
    assert issues[0] in issues;
    var code := issues[0].code;
    assert code in Codes(issues);
    CodesPartitioned(code);
    assert VALIDATION_CODES * (AUTH_CODES + COST_CODES) == {};
    assert code in AUTH_CODES ==> code in Codes(issues) * AUTH_CODES;
    assert code in COST_CODES ==> code in Codes(issues) * COST_CODES;
    if Codes(issues) <= COST_CODES {
      assert Codes(issues) * AUTH_CODES == {};
    }
    ExhaustedExactly(issues);
    RepairableExactly(issues);
  }

  /** For a rejection by the gate the classes say which stage objected. */
  lemma FailureNamesStage(g: GateConfig, r: Request, parsed: Parsed)
    requires Gate(g, r, parsed).Rejected?
    ensures var issues := Gate(g, r, parsed).issues;
      && (ClassifyFailure(issues) == AuthorizationFailure <==> Codes(issues) <= AUTH_CODES)
      && (ClassifyFailure(issues) == CostRejected <==> Codes(issues) <= COST_CODES)
      && (ClassifyFailure(issues) == RepairExhausted <==> IsRepairable(issues))
  {
    RejectionCodes(g, r, parsed);
    StageDecides(Gate(g, r, parsed).issues);
  }
}
