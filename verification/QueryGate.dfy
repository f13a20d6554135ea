/** The gate as the engine runs it on statements in memory (application/orchestrator.py). */
module QueryGate {
  import opened Collections
  import opened Schemas
  import opened StatementTree
  import opened Issues
  import opened ValidatorSpec
  import opened Validator
  import opened Policy
  import opened TenantRewrite
  import opened TreeRewrite
  import opened Targets
  import opened Expressions
  import opened Rewriter
  import opened TenantIds
  import opened Limits
  import opened Cost
  import opened GateSpec

  /** A candidate as parsed: the statements in memory, or the parser's complaint. */
  datatype Candidate = Unparsable(reason: string) | Candidate(expressions: seq<Expression>, commentMarker: bool)

  ghost predicate ValidCandidate(c: Candidate)
    reads if c.Candidate? then c.expressions else []
  {
    c.Candidate? ==> forall e :: e in c.expressions ==> e.Valid()
  }

  ghost function Statements(es: seq<Expression>): (r: seq<Statement>)
    reads es
    ensures |r| == |es|
    ensures forall i :: 0 <= i < |es| ==> r[i] == Strip(es[i].tree)
  {
    seq(|es|, i requires 0 <= i < |es| reads es => Strip(es[i].tree))
  }

  ghost function ParsedOf(c: Candidate): Parsed
    reads if c.Candidate? then c.expressions else []
  {
    match c
    case Unparsable(reason) => ParseFailure(reason)
    case Candidate(es, commentMarker) => Parsed(Statements(es), commentMarker)
  }

  /** The internal result of running one candidate through all stages. */
  datatype Secured = Secured(
    ok: bool, issues: seq<Issue>, final: Option<Statement>,
    referencedTables: seq<string>, referencedColumns: seq<string>, appliedRewrites: seq<string>)

  /** `ok` with the statement to run, or not with the reasons. */
  ghost predicate Matches(secured: Secured, verdict: Verdict) {
    match verdict
    case Accepted(final) => secured.ok && secured.final == Some(final) && secured.issues == []
    case Rejected(issues) => !secured.ok && secured.final == None && secured.issues == issues
  }

  // ----- the gate, stage by stage -----

  lemma GateInvalid(g: GateConfig, r: Request, statements: seq<Statement>, commentMarker: bool)
    requires ValidationIssues(g.validator, r.tenancy.schema, statements, commentMarker) != []
    ensures Gate(g, r, Parsed(statements, commentMarker))
         == Rejected(ValidationIssues(g.validator, r.tenancy.schema, statements, commentMarker))
  {
  }

  lemma GateValid(g: GateConfig, r: Request, statements: seq<Statement>, commentMarker: bool)
    requires ValidationIssues(g.validator, r.tenancy.schema, statements, commentMarker) == []
    ensures |statements| == 1
    ensures Gate(g, r, Parsed(statements, commentMarker)) ==
      if Denials(g, r, statements[0]) != [] then Rejected(Denials(g, r, statements[0]))
      else FinalVerdict(g, r.tenancy.schema, Final(r, statements[0]))
  {
  }

  lemma FinalInvalid(g: GateConfig, schema: Schema, final: Statement)
    requires RecordAll([], Findings(g.validator, schema, final)) != []
    ensures FinalVerdict(g, schema, final) == Rejected(RecordAll([], Findings(g.validator, schema, final)))
  {
  }

  lemma FinalValid(g: GateConfig, schema: Schema, final: Statement)
    requires RecordAll([], Findings(g.validator, schema, final)) == []
    ensures var costs := CostIssues(g.cost, final, g.planner(final));
      FinalVerdict(g, schema, final) == if costs != [] then Rejected(costs) else Accepted(final)
  {
  }

  class Orchestrator {
    const validator: SQLValidator
    const policy: PolicyEngine
    const rewriter: TenantRewriter
    const cost: CostAnalyzer
    const planner: Statement -> Option<Estimate>

    constructor (validator: SQLValidator, policy: PolicyEngine, rewriter: TenantRewriter, cost: CostAnalyzer,
                 planner: Statement -> Option<Estimate>)
      ensures this.validator == validator && this.policy == policy && this.cost == cost && this.planner == planner
    {
      this.validator, this.policy, this.rewriter, this.cost := validator, policy, rewriter, cost;
      this.planner := planner;
    }

    ghost function Config(): GateConfig {
      GateConfig(validator.config, policy.config, cost.config, planner)
    }

    /** Run one candidate through every stage. The candidate itself is left as it was. */
    method SecureCandidate(candidate: Candidate, schema: Schema, tenantId: string, roles: set<string>, maxRows: nat)
      returns (secured: Secured)
      requires ValidCandidate(candidate)
      ensures var request := Request(Tenancy(schema, TenantLiteral(tenantId)), roles, maxRows);
        Matches(secured, Gate(Config(), request, ParsedOf(candidate)))
      ensures secured.ok ==>
        && candidate.Candidate? && |candidate.expressions| == 1
        && secured.appliedRewrites == AppliedTexts(tenantId,
             TargetsOf(Tenancy(schema, TenantLiteral(tenantId)), Nodes(candidate.expressions[0].tree)))
        && secured.referencedTables == ReferencedTables(validator.config, schema, secured.final.value)
        && secured.referencedColumns == ReferencedColumns(validator.config, schema, secured.final.value)
    {
      if candidate.Unparsable? {
        return Secured(false, [Issue(SqlParseFailed, candidate.reason, "")], None, [], [], []);
      }
      var statements := ReadStatements(candidate.expressions);
      secured := SecureStatements(candidate.expressions, statements, candidate.commentMarker, schema, tenantId, roles,
                                  maxRows);
      assert ParsedOf(candidate) == Parsed(statements, candidate.commentMarker);
    }

    /** Validate and authorise what was parsed, then continue with a copy. */
    method SecureStatements(expressions: seq<Expression>, statements: seq<Statement>, commentMarker: bool,
                            schema: Schema, tenantId: string, roles: set<string>, maxRows: nat)
      returns (secured: Secured)
      requires (forall e :: e in expressions ==> e.Valid()) && statements == Statements(expressions)
      ensures var request := Request(Tenancy(schema, TenantLiteral(tenantId)), roles, maxRows);
        Matches(secured, Gate(Config(), request, Parsed(statements, commentMarker)))
      ensures secured.ok ==>
        && |expressions| == 1
        && secured.appliedRewrites == AppliedTexts(tenantId,
             TargetsOf(Tenancy(schema, TenantLiteral(tenantId)), Nodes(expressions[0].tree)))
        && secured.referencedTables == ReferencedTables(validator.config, schema, secured.final.value)
        && secured.referencedColumns == ReferencedColumns(validator.config, schema, secured.final.value)
    {
      ghost var request := Request(Tenancy(schema, TenantLiteral(tenantId)), roles, maxRows);
      var outcome := validator.Validate(statements, commentMarker, schema);
      if !outcome.isValid {
        GateInvalid(Config(), request, statements, commentMarker);
        return Secured(false, outcome.issues, None, outcome.referencedTables, outcome.referencedColumns, []);
      }
      GateValid(Config(), request, statements, commentMarker);
      var decision := policy.Enforce(outcome.referencedTables, outcome.referencedColumns, schema, roles);
      if !decision.allowed {
        return Secured(false, decision.issues, None, outcome.referencedTables, outcome.referencedColumns, []);
      }
      assert Gate(Config(), request, Parsed(statements, commentMarker))
          == FinalVerdict(Config(), schema, Final(request, statements[0]));
      secured := SecurePermitted(expressions[0], schema, tenantId, maxRows);
    }

    /** Rewrite and limit a copy, then decide about the result. */
    method SecurePermitted(expression: Expression, schema: Schema, tenantId: string, maxRows: nat)
      returns (secured: Secured)
      requires expression.Valid()
      ensures var t := Tenancy(schema, TenantLiteral(tenantId));
        Matches(secured, FinalVerdict(Config(), schema,
                                      EnforceLimit(RewriteTree(t, Strip(expression.tree)), maxRows).expression))
      ensures secured.ok ==>
        && secured.appliedRewrites == AppliedTexts(tenantId,
             TargetsOf(Tenancy(schema, TenantLiteral(tenantId)), Nodes(expression.tree)))
        && secured.referencedTables == ReferencedTables(validator.config, schema, secured.final.value)
        && secured.referencedColumns == ReferencedColumns(validator.config, schema, secured.final.value)
    {
      var scoped, applied := rewriter.Rewrite(expression, schema, tenantId);
      var limited := LimitExpression(scoped, maxRows);
      secured := DecideFinal(limited, schema, applied);
    }

    /** Validate again, then the cost. */
    method DecideFinal(limited: Expression, schema: Schema, applied: seq<string>) returns (secured: Secured)
      requires limited.Valid()
      ensures Matches(secured, FinalVerdict(Config(), schema, Strip(limited.tree)))
      ensures secured.ok ==>
        && secured.appliedRewrites == applied
        && secured.referencedTables == ReferencedTables(validator.config, schema, secured.final.value)
        && secured.referencedColumns == ReferencedColumns(validator.config, schema, secured.final.value)
    {
      var final := limited.ReadAll();
      var revalidation := validator.ValidateExpression(final, schema);
      if !revalidation.isValid {
        FinalInvalid(Config(), schema, final);
        return Secured(false, revalidation.issues, None, [], [], []);
      }
      FinalValid(Config(), schema, final);
      var report := cost.Analyze(limited, planner(final));
      assert report.issues == CostIssues(cost.config, final, planner(final));
      if !report.allowed {
        return Secured(false, report.issues, None, [], [], []);
      }
      secured := Secured(true, [], Some(final), revalidation.referencedTables, revalidation.referencedColumns, applied);
    }
  }

  method ReadStatements(es: seq<Expression>) returns (statements: seq<Statement>)
    requires forall e :: e in es ==> e.Valid()
    ensures statements == Statements(es)
  {
    statements := [];
    for i := 0 to |es|
      invariant |statements| == i && forall k :: 0 <= k < i ==> statements[k] == Strip(es[k].tree)
    {
      var s := es[i].ReadAll();
      statements := statements + [s];
    }
  }

  /** `enforce_limit` on a statement in memory: a copy, with the root's limit set where needed. */
  method LimitExpression(expression: Expression, maxRows: nat) returns (limited: Expression)
    requires expression.Valid()
    ensures fresh(limited) && limited.Valid()
    ensures Strip(limited.tree) == EnforceLimit(Strip(expression.tree), maxRows).expression
  {
    limited := new Expression.Copy(expression);
    var existing := LimitOf(limited.cells[limited.root].tag);
    if existing.None? {
      return;
    }
    var current := LimitValue(existing.value);
    if current.None? || current.value > maxRows {
      limited.SetLimit(maxRows);
    }
  }
}
