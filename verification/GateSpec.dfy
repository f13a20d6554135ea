/** The deterministic gate as one decision about a parsed candidate (application/orchestrator.py). */
module GateSpec {
  import opened Collections
  import opened Schemas
  import opened Syntax
  import opened StatementTree
  import opened Issues
  import opened ValidatorSpec
  import opened Validator
  import opened Policy
  import opened TenantRewrite
  import opened TreeRewrite
  import opened Placement
  import opened TreeFacts
  import opened Coverage
  import opened Revalidation
  import opened Misreading
  import opened Limits
  import opened LimitFacts
  import opened CostMeasures
  import opened Cost
  import opened Guards

  /** Everything the gate is configured with. `planner` is what EXPLAIN says, where it can be asked. */
  datatype GateConfig = GateConfig(
    validator: Config, policy: PolicyConfig, cost: CostConfig, planner: Statement -> Option<Estimate>)

  /** The request: catalog and tenant, roles, and the row bound. */
  datatype Request = Request(tenancy: Tenancy, roles: set<string>, maxRows: nat)

  /** What parsing a candidate gives. `commentMarker`: the text still shows one outside string literals. */
  datatype Parsed = ParseFailure(reason: string) | Parsed(statements: seq<Statement>, commentMarker: bool)

  datatype Verdict = Accepted(final: Statement) | Rejected(issues: seq<Issue>)

  /** The statement that would be executed. */
  function Final(r: Request, s: Statement): Statement {
    EnforceLimit(RewriteTree(r.tenancy, s), r.maxRows).expression
  }

  function Denials(g: GateConfig, r: Request, s: Statement): seq<Issue> {
    AllTableDenials(g.policy, ReferencedTables(g.validator, r.tenancy.schema, s))
    + AllColumnDenials(r.tenancy.schema, r.roles, ReferencedColumns(g.validator, r.tenancy.schema, s))
  }

  ghost function CostIssues(c: CostConfig, t: Statement, estimate: Option<Estimate>): seq<Issue> {
    var structure := StructureIssues(c, Joins(t), Max(1, Nesting(t)), OuterWidth([t]), !Everywhere(t, Conditioned()));
    if structure != [] then structure
    else OneIssue(estimate.Some? && estimate.value.rows >= c.highRows, EstimatedCostTooHigh)
  }

  /** Validate, authorise, rewrite, limit, validate again, cost. The first stage to object decides. */
  ghost function Gate(g: GateConfig, r: Request, parsed: Parsed): Verdict {
    match parsed
    case ParseFailure(reason) => Rejected([Issue(SqlParseFailed, reason, "")])
    case Parsed(statements, commentMarker) =>
      var found := ValidationIssues(g.validator, r.tenancy.schema, statements, commentMarker);
      if found != [] || |statements| != 1 then Rejected(found)
      else
        var s := statements[0];
        var denials := Denials(g, r, s);
        if denials != [] then Rejected(denials)
        else FinalVerdict(g, r.tenancy.schema, Final(r, s))
  }

  /** The stages after rewriting and limiting. */
  ghost function FinalVerdict(g: GateConfig, schema: Schema, final: Statement): Verdict {
    var again := RecordAll([], Findings(g.validator, schema, final));
    if again != [] then Rejected(again)
    else
      var costs := CostIssues(g.cost, final, g.planner(final));
      if costs != [] then Rejected(costs) else Accepted(final)
  }

  // ----- codes by stage -----

  const VALIDATION_CODES: set<Code> := {
    NonReadOnlyStatement, ForbiddenStatement, CommentPresent, SelectStarForbidden, DeniedFunction,
    CrossDatabaseAccess, SystemCatalogAccess, SchemaNotAllowed, UnknownTable, UnknownColumn, MultipleStatements}

  const AUTH_CODES: set<Code> := {ColumnDenied, TableDenied, TableNotAllowed}

  const COST_CODES: set<Code> := {
    CartesianProduct, TooManyJoins, SubqueryTooDeep, TooManyColumns, EstimatedCostTooHigh}

  lemma {:induction false} FunctionIssuesCodes(c: Config, tags: seq<Tag>)
    ensures Codes(FunctionIssues(c, tags)) <= {DeniedFunction}
  {
    if |tags| != 0 {
      FunctionIssuesCodes(c, tags[..|tags| - 1]);
    }
  }

  lemma {:induction false} ScanTablesCodes(c: Config, schema: Schema, virtuals: set<string>, tags: seq<Tag>)
    ensures Codes(ScanTables(c, schema, virtuals, tags).issues)
         <= {CrossDatabaseAccess, SystemCatalogAccess, SchemaNotAllowed, UnknownTable}
  {
    if |tags| != 0 {
      ScanTablesCodes(c, schema, virtuals, tags[..|tags| - 1]);
    }
  }

  lemma {:induction false} ScanColumnsCodes(schema: Schema, names: Names, tags: seq<Tag>)
    ensures Codes(ScanColumns(schema, names, tags).issues) <= {UnknownColumn}
  {
    if |tags| != 0 {
      ScanColumnsCodes(schema, names, tags[..|tags| - 1]);
    }
  }

  lemma ShapeIssuesCodes(c: Config, t: Statement)
    ensures Codes(ShapeIssues(c, t)) <= VALIDATION_CODES
  {
    var vs := Nodes(t);
    var functions := FunctionIssues(c, VisitTags(vs));
    var writes := if IsReadOnly(t.tag) then [] else [Issue(NonReadOnlyStatement, "", "")];
    var forbidden :=
      if exists v :: v in vs && v.tree.tag.ForbiddenTag? then [Issue(ForbiddenStatement, "", "")] else [];
    var comments := if exists v :: v in vs && v.tree.commented then [Issue(CommentPresent, "", "")] else [];
    var stars := if exists v :: v in vs && BareStar(v) then [Issue(SelectStarForbidden, "", "")] else [];
    FunctionIssuesCodes(c, VisitTags(vs));
    AtMostOne(writes, NonReadOnlyStatement);
    AtMostOne(forbidden, ForbiddenStatement);
    AtMostOne(comments, CommentPresent);
    AtMostOne(stars, SelectStarForbidden);
    WithinAppend(writes, forbidden, VALIDATION_CODES);
    WithinAppend(writes + forbidden, comments, VALIDATION_CODES);
    WithinAppend(writes + forbidden + comments, stars, VALIDATION_CODES);
    WithinAppend(writes + forbidden + comments + stars, functions, VALIDATION_CODES);
  }

  lemma AtMostOne(issues: seq<Issue>, code: Code)
    requires issues == [] || issues == [Issue(code, "", "")]
    ensures Codes(issues) <= {code}
  {
  }

  lemma WithinAppend(a: seq<Issue>, b: seq<Issue>, codes: set<Code>)
    requires Codes(a) <= codes && Codes(b) <= codes
    ensures Codes(a + b) <= codes
  {
    CodesAppend(a, b);
  }

  lemma FindingsCodes(c: Config, schema: Schema, t: Statement)
    ensures Codes(Findings(c, schema, t)) <= VALIDATION_CODES
  {
    var tables := ScanTables(c, schema, Virtuals(Tags(t)), Tags(t)).issues;
    var columns := ScanColumns(schema, NamesOf(c, schema, Tags(t)), Tags(t)).issues;
    ShapeIssuesCodes(c, t);
    ScanTablesCodes(c, schema, Virtuals(Tags(t)), Tags(t));
    ScanColumnsCodes(schema, NamesOf(c, schema, Tags(t)), Tags(t));
    CodesAppend(ShapeIssues(c, t), tables);
    CodesAppend(ShapeIssues(c, t) + tables, columns);
  }

  lemma DenialsCodes(g: GateConfig, r: Request, s: Statement)
    ensures Codes(Denials(g, r, s)) <= AUTH_CODES
  {
    var tables := ReferencedTables(g.validator, r.tenancy.schema, s);
    var columns := ReferencedColumns(g.validator, r.tenancy.schema, s);
    TableDenialsSpec(g.policy, tables);
    ColumnDenialsSpec(r.tenancy.schema, r.roles, columns);
    CodesAppend(AllTableDenials(g.policy, tables), AllColumnDenials(r.tenancy.schema, r.roles, columns));
  }

  lemma CostIssuesCodes(c: CostConfig, t: Statement, estimate: Option<Estimate>)
    ensures Codes(CostIssues(c, t, estimate)) <= COST_CODES
  {
  }

  lemma RecordedCodes(c: Config, schema: Schema, t: Statement)
    ensures Codes(RecordAll([], Findings(c, schema, t))) <= VALIDATION_CODES
  {
    FindingsCodes(c, schema, t);
    RecordAllCodes([], Findings(c, schema, t));
  }

  lemma ValidationIssuesCodes(c: Config, schema: Schema, statements: seq<Statement>, commentMarker: bool)
    ensures Codes(ValidationIssues(c, schema, statements, commentMarker)) <= VALIDATION_CODES
  {
    if |statements| == 1 {
      FindingsCodes(c, schema, statements[0]);
      RecordAllCodes(if commentMarker then [Issue(CommentPresent, "", "")] else [], Findings(c, schema, statements[0]));
    }
  }

  /** A rejection names at least one code, and all its codes come from one stage. */
  lemma RejectionCodes(g: GateConfig, r: Request, parsed: Parsed)
    requires Gate(g, r, parsed).Rejected?
    ensures Gate(g, r, parsed).issues != []
    ensures var codes := Codes(Gate(g, r, parsed).issues);
      codes == {SqlParseFailed} || codes <= VALIDATION_CODES || codes <= AUTH_CODES || codes <= COST_CODES
  {
    match parsed
    case ParseFailure(_) =>
    case Parsed(statements, commentMarker) =>
      ValidationIssuesCodes(g.validator, r.tenancy.schema, statements, commentMarker);
      if |statements| == 1 {
        var s := statements[0];
        DenialsCodes(g, r, s);
        RecordedCodes(g.validator, r.tenancy.schema, Final(r, s));
        CostIssuesCodes(g.cost, Final(r, s), g.planner(Final(r, s)));
      }
  }

  // ----- what acceptance means -----

  ghost predicate Passable(g: GateConfig, r: Request, s: Statement) {
    && Clean(g.validator, r.tenancy.schema, s)
    && Permitted(g.policy, r.tenancy.schema, r.roles, ReferencedTables(g.validator, r.tenancy.schema, s),
                 ReferencedColumns(g.validator, r.tenancy.schema, s))
  }

  lemma CostIssuesSpec(c: CostConfig, t: Statement, estimate: Option<Estimate>)
    ensures CostIssues(c, t, estimate) == [] <==> Affordable(c, t, estimate)
  {
  }

  lemma ValidationIssuesSpec(c: Config, schema: Schema, s: Statement, commentMarker: bool)
    ensures ValidationIssues(c, schema, [s], commentMarker) == [] <==> !commentMarker && Clean(c, schema, s)
  {
    RecordAllEmpty(if commentMarker then [Issue(CommentPresent, "", "")] else [], Findings(c, schema, s));
    FindingsClean(c, schema, s);
  }

  /** Exactly when a parsed candidate is accepted. */
  lemma AcceptedExactly(g: GateConfig, r: Request, s: Statement, commentMarker: bool)
    ensures Gate(g, r, Parsed([s], commentMarker)).Accepted? <==>
      && !commentMarker && Passable(g, r, s)
      && Clean(g.validator, r.tenancy.schema, Final(r, s))
      && Affordable(g.cost, Final(r, s), g.planner(Final(r, s)))
    ensures Gate(g, r, Parsed([s], commentMarker)).Accepted? ==>
      Gate(g, r, Parsed([s], commentMarker)).final == Final(r, s)
  {
    ValidationIssuesSpec(g.validator, r.tenancy.schema, s, commentMarker);
    DenialsSpec(g.policy, r.tenancy.schema, r.roles, ReferencedTables(g.validator, r.tenancy.schema, s),
                ReferencedColumns(g.validator, r.tenancy.schema, s));
    RecordAllEmpty([], Findings(g.validator, r.tenancy.schema, Final(r, s)));
    FindingsClean(g.validator, r.tenancy.schema, Final(r, s));
    CostIssuesSpec(g.cost, Final(r, s), g.planner(Final(r, s)));
  }

  /** An accepted candidate was one statement, and what will run is clean, guarded by every tenant
      predicate, bounded and affordable. */
  lemma AcceptedIsSafe(g: GateConfig, r: Request, parsed: Parsed)
    requires Gate(g, r, parsed).Accepted? && parsed.Parsed? && r.maxRows < UNKNOWN_LIMIT
    requires forall s :: s in parsed.statements ==> Shaped(s)
    ensures |parsed.statements| == 1 && !parsed.commentMarker
    ensures var final := Gate(g, r, parsed).final;
      && final == Final(r, parsed.statements[0])
      && Clean(g.validator, r.tenancy.schema, final)
      && Guarded(r.tenancy, final)
      && Bounded(final, r.maxRows)
      && Affordable(g.cost, final, g.planner(final))
      && Passable(g, r, parsed.statements[0])
  {
    assert parsed.statements == [parsed.statements[0]];
    AcceptedExactly(g, r, parsed.statements[0], parsed.commentMarker);
    var rewritten := RewriteTree(r.tenancy, parsed.statements[0]);
    assert LimitOf(rewritten.tag).Some?;
    BoundedExactly(rewritten, r.maxRows);
    RewriteGuards(r.tenancy, parsed.statements[0]);
    LimitKeepsGuards(r.tenancy, rewritten, r.maxRows);
  }

  // ----- what re-validation says -----

  /** The second validation accepts what the first did exactly if it misreads the label of no tenant table. */
  lemma {:induction false} RevalidationExactly(g: GateConfig, r: Request, s: Statement)
    requires Shaped(s) && TenantColumnsExist(r.tenancy.schema) && TablesNamed(Tags(s))
    requires Clean(g.validator, r.tenancy.schema, s)
    ensures Clean(g.validator, r.tenancy.schema, Final(r, s)) <==> NothingMisread(r.tenancy, s)
    ensures ReferencedTables(g.validator, r.tenancy.schema, Final(r, s))
         == ReferencedTables(g.validator, r.tenancy.schema, s)
  {
    var rewritten := RewriteTree(r.tenancy, s);
    RewriteStaysCleanExactly(g.validator, r.tenancy, s);
    RewriteKeepsNames(g.validator, r.tenancy, s);
    LimitKeepsFindings(g.validator, r.tenancy.schema, rewritten, r.maxRows);
    FindingsClean(g.validator, r.tenancy.schema, rewritten);
    FindingsClean(g.validator, r.tenancy.schema, Final(r, s));
  }

  /** Every table node is named, and no CTE or derived-table alias is a catalog table's name. */
  ghost predicate ProperNames(schema: Schema, s: Statement) {
    TablesNamed(Tags(s)) && forall name :: name in Virtuals(Tags(s)) ==> schema.Table(name).None?
  }

  lemma {:induction false} RevalidationComplete(g: GateConfig, r: Request, s: Statement)
    requires Shaped(s) && TenantColumnsExist(r.tenancy.schema) && ProperNames(r.tenancy.schema, s)
    requires Clean(g.validator, r.tenancy.schema, s)
    ensures Clean(g.validator, r.tenancy.schema, Final(r, s))
    ensures ReferencedTables(g.validator, r.tenancy.schema, Final(r, s))
         == ReferencedTables(g.validator, r.tenancy.schema, s)
  {
    ProperNotMisread(r.tenancy, s);
    RevalidationExactly(g, r, s);
  }

  /** The structural cost of what runs is the cost of what was submitted. */
  lemma {:induction false} FinalCost(g: GateConfig, r: Request, s: Statement, estimate: Option<Estimate>)
    requires Shaped(s)
    ensures Affordable(g.cost, Final(r, s), estimate) <==> Affordable(g.cost, s, estimate)
  {
    RewriteKeepsCost(r.tenancy, s);
    LimitKeepsCost(RewriteTree(r.tenancy, s), r.maxRows);
    SameCostAffordable(g.cost, Final(r, s), s, estimate);
  }

  /** The submitted statement alone decides: the second validation objects to misread labels only, which
      proper names rule out, and the cost bounds see the same structure. */
  lemma {:induction false} DecidedBySubmission(g: GateConfig, r: Request, s: Statement, commentMarker: bool)
    requires Shaped(s) && TenantColumnsExist(r.tenancy.schema) && TablesNamed(Tags(s))
    ensures Gate(g, r, Parsed([s], commentMarker)).Accepted? <==>
      && !commentMarker && Passable(g, r, s) && NothingMisread(r.tenancy, s)
      && Affordable(g.cost, s, g.planner(Final(r, s)))
    ensures ProperNames(r.tenancy.schema, s) ==> NothingMisread(r.tenancy, s)
  {
    AcceptedExactly(g, r, s, commentMarker);
    FinalCost(g, r, s, g.planner(Final(r, s)));
    if Clean(g.validator, r.tenancy.schema, s) {
      RevalidationExactly(g, r, s);
    }
    if ProperNames(r.tenancy.schema, s) {
      ProperNotMisread(r.tenancy, s);
    }
  }
}
