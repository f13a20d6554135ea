/** Why the gate rejects a candidate, and which rejections are worth another attempt (application/orchestrator.py). */
module GateFaults {
  import opened Collections
  import opened Schemas
  import opened StatementTree
  import opened Issues
  import opened ValidatorSpec
  import opened Validator
  import opened Policy
  import opened TreeRewrite
  import opened Placement
  import opened TreeFacts
  import opened Coverage
  import opened Revalidation
  import opened Misreading
  import opened LimitFacts
  import opened Cost
  import opened GateSpec
  import opened Faults
  import opened Repair

  // ----- the stages -----

  ghost predicate Faulty(c: Config, schema: Schema, t: Statement) {
    exists code :: Wrong(c, schema, t, code)
  }

  lemma {:induction false} FaultyExactly(c: Config, schema: Schema, t: Statement)
    requires WellNamed(schema) && FairShuffle(c)
    ensures Faulty(c, schema, t) <==> Findings(c, schema, t) != []
    ensures Faulty(c, schema, t) <==> !Clean(c, schema, t)
  {
    var found := Findings(c, schema, t);
    FindingsClean(c, schema, t);
    if |found| != 0 {
      assert found[0] in found;
      assert found[0].code in Codes(found);
      CodesExactly(c, schema, t, found[0].code);
    }
    if code :| Wrong(c, schema, t, code) {
      CodesExactly(c, schema, t, code);
    }
  }

  ghost predicate Objected(g: GateConfig, r: Request, s: Statement, code: Code) {
    exists i: Issue :: i.code == code &&
      Objection(g.policy, r.tenancy.schema, r.roles, ReferencedTables(g.validator, r.tenancy.schema, s),
                ReferencedColumns(g.validator, r.tenancy.schema, s), i)
  }

  /** What each stage has to say about one statement: validation with the comment marker, policy, validation of
      the final statement, cost. */
  datatype Stages = Stages(
    invalid: Code -> bool, objected: Code -> bool, again: Code -> bool, costly: Code -> bool)

  ghost function StagesOf(g: GateConfig, r: Request, s: Statement, marked: bool): Stages {
    var schema := r.tenancy.schema;
    Stages((code: Code) => Wrong(g.validator, schema, s, code) || (marked && code == CommentPresent),
           (code: Code) => Objected(g, r, s, code),
           (code: Code) => Wrong(g.validator, schema, Final(r, s), code),
           (code: Code) => TooCostly(g.cost, Final(r, s), g.planner(Final(r, s)), code))
  }

  ghost predicate Any(p: Code -> bool) {
    exists code :: p(code)
  }

  /** The first stage that objects decides, and it reports all it objects to. */
  ghost predicate Decides(v: Stages, code: Code) {
    if Any(v.invalid) then v.invalid(code)
    else if Any(v.objected) then v.objected(code)
    else if Any(v.again) then v.again(code)
    else v.costly(code)
  }

  ghost predicate Reason(g: GateConfig, r: Request, parsed: Parsed, code: Code) {
    match parsed
    case ParseFailure(_) => code == SqlParseFailed
    case Parsed(statements, marked) =>
      if |statements| != 1 then code == MultipleStatements
      else Decides(StagesOf(g, r, statements[0], marked), code)
  }

  lemma {:induction false} DenialsAre(g: GateConfig, r: Request, s: Statement)
    ensures forall code :: code in Codes(Denials(g, r, s)) <==> Objected(g, r, s, code)
  {
    var schema := r.tenancy.schema;
    var tables, columns := ReferencedTables(g.validator, schema, s), ReferencedColumns(g.validator, schema, s);
    forall i
      ensures i in Denials(g, r, s) <==> Objection(g.policy, schema, r.roles, tables, columns, i)
    {
      ObjectionsExactly(g.policy, schema, r.roles, tables, columns, i);
    }
  }

  lemma {:induction false} InvalidAre(c: Config, schema: Schema, s: Statement, marked: bool)
    requires WellNamed(schema) && FairShuffle(c)
    ensures forall code :: code in Codes(ValidationIssues(c, schema, [s], marked)) <==>
      Wrong(c, schema, s, code) || (marked && code == CommentPresent)
  {
    var earlier := if marked then [Issue(CommentPresent, "", "")] else [];
    RecordAllCodes(earlier, Findings(c, schema, s));
    assert marked ==> earlier[0] in earlier;
    assert Codes(earlier) == if marked then {CommentPresent} else {};
    forall code
      ensures code in Codes(Findings(c, schema, s)) <==> Wrong(c, schema, s, code)
    {
      CodesExactly(c, schema, s, code);
    }
  }

  /** Issues without codes are no issues. */
  lemma SomeCode(issues: seq<Issue>, p: Code -> bool)
    requires forall code :: code in Codes(issues) <==> p(code)
    ensures Any(p) <==> issues != []
  {
    if |issues| != 0 {
      assert issues[0] in issues;
      assert p(issues[0].code);
    }
  }

  lemma {:induction false} SaysExactly(g: GateConfig, r: Request, s: Statement, marked: bool)
    requires WellNamed(r.tenancy.schema) && FairShuffle(g.validator)
    ensures var v := StagesOf(g, r, s, marked);
      && (forall code :: code in Codes(ValidationIssues(g.validator, r.tenancy.schema, [s], marked)) <==>
            v.invalid(code))
      && (forall code :: code in Codes(Denials(g, r, s)) <==> v.objected(code))
      && (forall code :: code in Codes(RecordAll([], Findings(g.validator, r.tenancy.schema, Final(r, s)))) <==>
            v.again(code))
      && (forall code :: code in Codes(CostIssues(g.cost, Final(r, s), g.planner(Final(r, s)))) <==> v.costly(code))
  {
    var schema := r.tenancy.schema;
    InvalidAre(g.validator, schema, s, marked);
    DenialsAre(g, r, s);
    InvalidAre(g.validator, schema, Final(r, s), false);
    assert ValidationIssues(g.validator, schema, [Final(r, s)], false)
        == RecordAll([], Findings(g.validator, schema, Final(r, s)));
    forall code
      ensures code in Codes(CostIssues(g.cost, Final(r, s), g.planner(Final(r, s)))) <==>
              TooCostly(g.cost, Final(r, s), g.planner(Final(r, s)), code)
    {
      RejectionsExactly(g.cost, Final(r, s), g.planner(Final(r, s)), code);
    }
  }

  /** The verdict on one statement, given what each stage reports. */
  lemma {:induction false} StagedCodes(g: GateConfig, r: Request, s: Statement, marked: bool, v: Stages)
    requires Gate(g, r, Parsed([s], marked)).Rejected?
    requires forall code ::
      code in Codes(ValidationIssues(g.validator, r.tenancy.schema, [s], marked)) <==> v.invalid(code)
    requires forall code :: code in Codes(Denials(g, r, s)) <==> v.objected(code)
    requires forall code ::
      code in Codes(RecordAll([], Findings(g.validator, r.tenancy.schema, Final(r, s)))) <==> v.again(code)
    requires forall code ::
      code in Codes(CostIssues(g.cost, Final(r, s), g.planner(Final(r, s)))) <==> v.costly(code)
    ensures forall code :: code in Codes(Gate(g, r, Parsed([s], marked)).issues) <==> Decides(v, code)
    ensures exists code :: Decides(v, code)
  {
    var issues := Gate(g, r, Parsed([s], marked)).issues;
    SomeCode(ValidationIssues(g.validator, r.tenancy.schema, [s], marked), v.invalid);
    SomeCode(Denials(g, r, s), v.objected);
    SomeCode(RecordAll([], Findings(g.validator, r.tenancy.schema, Final(r, s))), v.again);
    assert issues[0] in issues;
    assert issues[0].code in Codes(issues);
    assert Decides(v, issues[0].code);
  }

  /** The codes of a rejection are exactly the reasons for it. */
  lemma {:induction false} RejectedExactly(g: GateConfig, r: Request, parsed: Parsed)
    requires WellNamed(r.tenancy.schema) && FairShuffle(g.validator) && Gate(g, r, parsed).Rejected?
    ensures forall code :: code in Codes(Gate(g, r, parsed).issues) <==> Reason(g, r, parsed, code)
    ensures exists code :: Reason(g, r, parsed, code)
  {
    if parsed.Parsed? && |parsed.statements| == 1 {
      var s := parsed.statements[0];
      assert parsed == Parsed([s], parsed.commentMarker);
      SaysExactly(g, r, s, parsed.commentMarker);
      StagedCodes(g, r, s, parsed.commentMarker, StagesOf(g, r, s, parsed.commentMarker));
    } else {
      var issues := Gate(g, r, parsed).issues;
      assert issues[0] in issues;
      assert Reason(g, r, parsed, issues[0].code);
    }
  }

  // ----- what the second validation can object to -----

  lemma {:induction false} OnlyColumns(c: Config, schema: Schema, t: Statement)
    requires IsReadOnly(t.tag) && forall v :: v in Nodes(t) ==> NodeAllowed(c, v)
    requires forall tag :: tag in Tags(t) && Considered(tag, Virtuals(Tags(t))) ==> TableAllowed(c, schema, tag)
    ensures Codes(Findings(c, schema, t)) <= {UnknownColumn}
  {
    var tags := Tags(t);
    ShapeClean(c, t);
    ScanTablesClean(c, schema, Virtuals(tags), tags);
    ScanColumnsCodes(schema, NamesOf(c, schema, tags), tags);
    assert Findings(c, schema, t) == ScanColumns(schema, NamesOf(c, schema, tags), tags).issues;
  }

  /** After a clean first validation the second one can only report unknown columns, and does so exactly if it
      misreads the label of a tenant table. */
  lemma {:induction false} SecondValidation(g: GateConfig, r: Request, s: Statement, code: Code)
    requires WellNamed(r.tenancy.schema) && FairShuffle(g.validator)
    requires Shaped(s) && TenantColumnsExist(r.tenancy.schema) && TablesNamed(Tags(s))
    requires !Faulty(g.validator, r.tenancy.schema, s)
    ensures Wrong(g.validator, r.tenancy.schema, Final(r, s), code) <==>
      code == UnknownColumn && !NothingMisread(r.tenancy, s)
  {
    FaultyExactly(g.validator, r.tenancy.schema, s);
    FaultyExactly(g.validator, r.tenancy.schema, Final(r, s));
    RevalidationExactly(g, r, s);
    FinalColumns(g, r, s);
    if code == UnknownColumn && !NothingMisread(r.tenancy, s) {
      var other :| Wrong(g.validator, r.tenancy.schema, Final(r, s), other);
    }
  }

  lemma {:induction false} FinalColumns(g: GateConfig, r: Request, s: Statement)
    requires WellNamed(r.tenancy.schema) && FairShuffle(g.validator) && Shaped(s)
    requires Clean(g.validator, r.tenancy.schema, s)
    ensures forall code :: Wrong(g.validator, r.tenancy.schema, Final(r, s), code) ==> code == UnknownColumn
  {
    var c, schema, rewritten := g.validator, r.tenancy.schema, RewriteTree(r.tenancy, s);
    NodesStayAllowed(c, r.tenancy, s);
    TablesStayAllowed(c, r.tenancy, s);
    RewriteKeepsShape(r.tenancy, s);
    OnlyColumns(c, schema, rewritten);
    LimitKeepsFindings(c, schema, rewritten, r.maxRows);
    forall code | Wrong(c, schema, Final(r, s), code)
      ensures code == UnknownColumn
    {
      CodesExactly(c, schema, Final(r, s), code);
    }
  }

  // ----- which rejections are repairable -----

  /** What the model may be asked to mend: names, stars and functions. */
  predicate Mendable(code: Code) {
    code == UnknownTable || code == UnknownColumn || code == SelectStarForbidden || code == DeniedFunction
  }

  lemma RepairableIsMendable(issues: seq<Issue>)
    ensures IsRepairable(issues) <==>
      issues != [] && forall code :: code in Codes(issues) ==> code == SqlParseFailed || Mendable(code)
  {
    RepairableExactly(issues);
  }

  /** The statement is wrong in mendable ways only; or it is valid and permitted, and its rewrite is misread. */
  ghost predicate MendsStatement(v: Stages, misread: bool) {
    if Any(v.invalid) then forall code :: v.invalid(code) ==> Mendable(code)
    else !Any(v.objected) && misread
  }

  /** The candidate does not parse, or is one statement that can be mended. */
  ghost predicate Mends(g: GateConfig, r: Request, parsed: Parsed) {
    match parsed
    case ParseFailure(_) => true
    case Parsed(statements, marked) =>
      |statements| == 1 &&
      MendsStatement(StagesOf(g, r, statements[0], marked), !NothingMisread(r.tenancy, statements[0]))
  }

  /** Each stage has its own codes; the second validation knows unknown columns only. */
  ghost predicate OwnCodes(v: Stages, misread: bool) {
    && (forall code :: v.invalid(code) ==> code in VALIDATION_CODES)
    && (forall code :: v.objected(code) ==> code in AUTH_CODES)
    && (!Any(v.invalid) ==> forall code :: v.again(code) <==> code == UnknownColumn && misread)
    && (forall code :: v.costly(code) ==> code in COST_CODES)
  }

  lemma {:induction false} WrongCodes(c: Config, schema: Schema, t: Statement, code: Code)
    requires Wrong(c, schema, t, code)
    ensures code in VALIDATION_CODES
  {
  }

  lemma {:induction false} ObjectedCodes(g: GateConfig, r: Request, s: Statement, code: Code)
    requires Objected(g, r, s, code)
    ensures code in AUTH_CODES
  {
  }

  lemma CostlyCodes(c: CostConfig, t: Statement, estimate: Option<Estimate>, code: Code)
    requires TooCostly(c, t, estimate, code)
    ensures code in COST_CODES
  {
  }

  lemma {:induction false} StagesOwn(g: GateConfig, r: Request, s: Statement, marked: bool)
    requires WellNamed(r.tenancy.schema) && FairShuffle(g.validator)
    requires Shaped(s) && TenantColumnsExist(r.tenancy.schema) && TablesNamed(Tags(s))
    ensures OwnCodes(StagesOf(g, r, s, marked), !NothingMisread(r.tenancy, s))
  {
    var v := StagesOf(g, r, s, marked);
    forall code | v.invalid(code)
      ensures code in VALIDATION_CODES
    {
      if Wrong(g.validator, r.tenancy.schema, s, code) {
        WrongCodes(g.validator, r.tenancy.schema, s, code);
      }
    }
    forall code | v.objected(code)
      ensures code in AUTH_CODES
    {
      ObjectedCodes(g, r, s, code);
    }
    forall code | v.costly(code)
      ensures code in COST_CODES
    {
      CostlyCodes(g.cost, Final(r, s), g.planner(Final(r, s)), code);
    }
    if !Any(v.invalid) {
      assert forall code :: Wrong(g.validator, r.tenancy.schema, s, code) ==> v.invalid(code);
      forall code
        ensures v.again(code) <==> code == UnknownColumn && !NothingMisread(r.tenancy, s)
      {
        SecondValidation(g, r, s, code);
      }
    }
  }

  lemma {:induction false} MendsExactly(v: Stages, misread: bool)
    requires OwnCodes(v, misread) && exists code :: Decides(v, code)
    ensures (forall code :: Decides(v, code) ==> code == SqlParseFailed || Mendable(code))
            <==> MendsStatement(v, misread)
  {
    var first :| Decides(v, first);
    if Any(v.invalid) {
      assert forall code :: Decides(v, code) <==> v.invalid(code);
      assert SqlParseFailed !in VALIDATION_CODES;
    } else {
      LateMends(v, misread, first);
    }
  }

  lemma {:induction false} LateMends(v: Stages, misread: bool, first: Code)
    requires OwnCodes(v, misread) && !Any(v.invalid) && Decides(v, first)
    ensures (forall code :: Decides(v, code) ==> code == SqlParseFailed || Mendable(code))
            <==> !Any(v.objected) && misread
  {
    if !Any(v.objected) && misread {
      assert v.again(UnknownColumn);
    } else {
      MendableCodes(first);
    }
  }

  lemma MendableCodes(code: Code)
    ensures code in AUTH_CODES || code in COST_CODES ==> code != SqlParseFailed && !Mendable(code)
  {
  }

  /** Exactly which rejections start another attempt. */
  lemma {:induction false} MendableExactly(g: GateConfig, r: Request, parsed: Parsed)
    requires WellNamed(r.tenancy.schema) && FairShuffle(g.validator) && TenantColumnsExist(r.tenancy.schema)
    requires parsed.Parsed? ==> forall s :: s in parsed.statements ==> Shaped(s) && TablesNamed(Tags(s))
    requires Gate(g, r, parsed).Rejected?
    ensures IsRepairable(Gate(g, r, parsed).issues) <==> Mends(g, r, parsed)
  {
    RepairableIsMendable(Gate(g, r, parsed).issues);
    RejectionCodes(g, r, parsed);
    RejectedExactly(g, r, parsed);
    if parsed.Parsed? {
      if |parsed.statements| == 1 {
        var s := parsed.statements[0];
        StagesOwn(g, r, s, parsed.commentMarker);
        MendsExactly(StagesOf(g, r, s, parsed.commentMarker), !NothingMisread(r.tenancy, s));
      } else {
        assert Reason(g, r, parsed, MultipleStatements);
      }
    }
  }

  // ----- what the caller is told -----

  /** The error class of a rejected statement that cannot be mended. */
  ghost function ToldOf(v: Stages): Failure {
    if Any(v.invalid) then SafetyViolation else if Any(v.objected) then AuthorizationFailure else CostRejected
  }

  /** The error class of each rejection. */
  ghost function Told(g: GateConfig, r: Request, parsed: Parsed): Failure {
    if Mends(g, r, parsed) then RepairExhausted
    else if parsed.Parsed? && |parsed.statements| == 1
    then ToldOf(StagesOf(g, r, parsed.statements[0], parsed.commentMarker))
    else SafetyViolation
  }

  /** One code tells which stage all codes belong to. */
  lemma StageOf(codes: set<Code>, code: Code)
    requires OneStage(codes) && code in codes
    ensures codes <= AUTH_CODES <==> code in AUTH_CODES
    ensures codes <= COST_CODES <==> code in COST_CODES
  {
    StagesApart(code);
  }

  lemma StagesApart(code: Code)
    ensures code in VALIDATION_CODES || code == SqlParseFailed ==> code !in AUTH_CODES && code !in COST_CODES
    ensures code in AUTH_CODES ==> code !in COST_CODES
  {
  }

  lemma {:induction false} ReasonClass(v: Stages, misread: bool, code: Code)
    requires OwnCodes(v, misread) && Decides(v, code) && !MendsStatement(v, misread)
    ensures code in AUTH_CODES <==> ToldOf(v) == AuthorizationFailure
    ensures code in COST_CODES <==> ToldOf(v) == CostRejected
  {
    StagesApart(code);
  }

  lemma {:induction false} FailureExactly(g: GateConfig, r: Request, parsed: Parsed)
    requires WellNamed(r.tenancy.schema) && FairShuffle(g.validator) && TenantColumnsExist(r.tenancy.schema)
    requires parsed.Parsed? ==> forall s :: s in parsed.statements ==> Shaped(s) && TablesNamed(Tags(s))
    requires Gate(g, r, parsed).Rejected?
    ensures ClassifyFailure(Gate(g, r, parsed).issues) == Told(g, r, parsed)
  {
    var issues := Gate(g, r, parsed).issues;
    FailureNamesStage(g, r, parsed);
    MendableExactly(g, r, parsed);
    RejectionCodes(g, r, parsed);
    RejectedExactly(g, r, parsed);
    var first :| Reason(g, r, parsed, first);
    StageOf(Codes(issues), first);
    if !Mends(g, r, parsed) {
      if |parsed.statements| == 1 {
        var s := parsed.statements[0];
        StagesOwn(g, r, s, parsed.commentMarker);
        ReasonClass(StagesOf(g, r, s, parsed.commentMarker), !NothingMisread(r.tenancy, s), first);
      } else {
        StagesApart(first);
      }
    }
  }
}
