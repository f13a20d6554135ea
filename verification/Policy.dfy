/** Who may read what: classification rules and the policy engine (security/classification.py, security/policy.py). */
module Policy {
  import opened Collections
  import opened Schemas
  import opened Issues
  import opened ValidatorSpec

  // ----- classification -----

  /** Roles are lower-cased names. `"*"` stands for anyone; the second part is a grant name. */
  function Rule(c: Classification): (set<string>, Option<string>) {
    match c
    case Public => ({"*"}, None)
    case Internal => ({"*"}, None)
    case Confidential => ({"admin", "analyst"}, None)
    case Financial => ({"admin", "analyst"}, Some("finance_read"))
    case Pii => ({"admin"}, Some("pii_read"))
    case AuthSecret => ({}, None)
    case HighlyRestricted => ({}, None)
  }

  predicate CanView(c: Classification, roles: set<string>) {
    var (allowed, grant) := Rule(c);
    if "admin" in roles then c != AuthSecret && c != HighlyRestricted
    else if "*" in allowed then true
    else if roles * allowed != {} then true
    else grant.Some? && grant.value in roles
  }

  /** More roles never hide a column, and secrets are hidden from everyone. */
  lemma CanViewMonotone(c: Classification, roles: set<string>, more: set<string>)
    requires roles <= more
    ensures CanView(c, roles) ==> CanView(c, more)
    ensures c == AuthSecret || c == HighlyRestricted ==> !CanView(c, more)
  {
    var (allowed, _) := Rule(c);
    if role :| role in roles * allowed {
      assert role in more * allowed;
    }
  }

  /** The access rules, class by class. */
  predicate MaySee(c: Classification, roles: set<string>) {
    match c
    case Public => true
    case Internal => true
    case Confidential => "admin" in roles || "analyst" in roles
    case Financial => "admin" in roles || "analyst" in roles || "finance_read" in roles
    case Pii => "admin" in roles || "pii_read" in roles
    case AuthSecret => false
    case HighlyRestricted => false
  }

  /** The order of the checks and the table of roles and grants come to exactly these rules. */
  lemma CanViewExactly(c: Classification, roles: set<string>)
    ensures CanView(c, roles) <==> MaySee(c, roles)
  {
    var (allowed, _) := Rule(c);
    assert "analyst" in roles && "analyst" in allowed ==> "analyst" in roles * allowed;
    if role :| role in roles * allowed {
      assert role in {"*", "admin", "analyst"};
    }
  }

  // ----- the engine -----

  datatype PolicyConfig = PolicyConfig(allowedTables: Option<set<string>>, deniedTables: set<string>)

  function TableDenials(p: PolicyConfig, qualified: string): seq<Issue> {
    var bare := BareName(qualified);
    (if bare in p.deniedTables then [Issue(TableDenied, "", "table: " + bare)] else [])
    + (if p.allowedTables.Some? && bare !in p.allowedTables.value
       then [Issue(TableNotAllowed, "", "table: " + bare)] else [])
  }

  /** The catalog column a `table.column` reference denotes. */
  function Referred(schema: Schema, ref: string): Option<ColumnInfo> {
    var (tableName, columnName) := Partition(ref);
    match schema.Table(tableName)
    case None => None
    case Some(table) => table.Column(columnName)
  }

  function ColumnDenials(schema: Schema, roles: set<string>, ref: string): seq<Issue> {
    match Referred(schema, ref)
    case None => []
    case Some(column) =>
      if CanView(column.classification, roles) then []
      else [Issue(ColumnDenied, "", "column: " + Reference(Partition(ref).0, Partition(ref).1))]
  }

  function AllTableDenials(p: PolicyConfig, tables: seq<string>): seq<Issue> {
    if |tables| == 0 then []
    else AllTableDenials(p, tables[..|tables| - 1]) + TableDenials(p, tables[|tables| - 1])
  }

  function AllColumnDenials(schema: Schema, roles: set<string>, refs: seq<string>): seq<Issue> {
    if |refs| == 0 then []
    else AllColumnDenials(schema, roles, refs[..|refs| - 1]) + ColumnDenials(schema, roles, refs[|refs| - 1])
  }

  class PolicyDecision {
    var allowed: bool
    var issues: seq<Issue>

    ghost predicate Valid()
      reads this
    {
      allowed <==> issues == []
    }

    constructor ()
      ensures Valid() && allowed && issues == []
    {
      allowed, issues := true, [];
    }

    method Deny(issue: Issue)
      modifies this
      ensures Valid() && !allowed && issues == old(issues) + [issue]
    {
      allowed := false;
      issues := issues + [issue];
    }

    method DenyAll(found: seq<Issue>)
      requires Valid()
      modifies this
      ensures Valid() && issues == old(issues) + found
    {
      for i := 0 to |found|
        invariant Valid() && issues == old(issues) + found[..i]
      {
        Deny(found[i]);
      }
    }
  }

  class PolicyEngine {
    const config: PolicyConfig

    constructor (config: PolicyConfig)
      ensures this.config == config
    {
      this.config := config;
    }

    method Enforce(tables: seq<string>, refs: seq<string>, schema: Schema, roles: set<string>)
      returns (decision: PolicyDecision)
      ensures fresh(decision) && decision.Valid()
      ensures decision.issues == AllTableDenials(config, tables) + AllColumnDenials(schema, roles, refs)
      ensures decision.allowed <==> Permitted(config, schema, roles, tables, refs)
      ensures forall i :: i in decision.issues <==> Objection(config, schema, roles, tables, refs, i)
    {
      decision := new PolicyDecision();
      for i := 0 to |tables|
        invariant decision.Valid() && decision.issues == AllTableDenials(config, tables[..i])
      {
        assert tables[..i + 1][..i] == tables[..i];
        decision.DenyAll(TableDenials(config, tables[i]));
      }
      assert tables[..|tables|] == tables;
      for i := 0 to |refs|
        invariant decision.Valid()
        invariant decision.issues == AllTableDenials(config, tables) + AllColumnDenials(schema, roles, refs[..i])
      {
        assert refs[..i + 1][..i] == refs[..i];
        decision.DenyAll(ColumnDenials(schema, roles, refs[i]));
      }
      assert refs[..|refs|] == refs;
      DenialsSpec(config, schema, roles, tables, refs);
      forall i
        ensures i in decision.issues <==> Objection(config, schema, roles, tables, refs, i)
      {
        ObjectionsExactly(config, schema, roles, tables, refs, i);
      }
    }
  }

  // ----- what is objected to -----

  /** A table is on the deny list, or missing from an allow list. */
  ghost predicate TableObjection(p: PolicyConfig, qualified: string, i: Issue) {
    exists bare :: IsLastPart(qualified, bare) &&
      ((bare in p.deniedTables && i == Issue(TableDenied, "", "table: " + bare)) ||
       (p.allowedTables.Some? && bare !in p.allowedTables.value && i == Issue(TableNotAllowed, "", "table: " + bare)))
  }

  /** A reference denotes a catalog column whose class the roles may not see. */
  ghost predicate ColumnObjection(schema: Schema, roles: set<string>, ref: string, i: Issue) {
    exists table, column :: SplitsAtDot(ref, table, column) &&
      schema.Table(table).Some? && schema.Table(table).value.Column(column).Some? &&
      !MaySee(schema.Table(table).value.Column(column).value.classification, roles) &&
      i == Issue(ColumnDenied, "", "column: " + (table + "." + column))
  }

  ghost predicate Objection(p: PolicyConfig, schema: Schema, roles: set<string>, tables: seq<string>,
                            refs: seq<string>, i: Issue) {
    || (exists table :: table in tables && TableObjection(p, table, i))
    || exists ref :: ref in refs && ColumnObjection(schema, roles, ref, i)
  }

  lemma TableObjected(p: PolicyConfig, qualified: string, i: Issue)
    ensures i in TableDenials(p, qualified) <==> TableObjection(p, qualified, i)
  {
    var bare := BareName(qualified);
    BareNameExactly(qualified, bare);
    forall part | IsLastPart(qualified, part)
      ensures part == bare
    {
      BareNameExactly(qualified, part);
    }
  }

  lemma ColumnObjected(schema: Schema, roles: set<string>, ref: string, i: Issue)
    ensures i in ColumnDenials(schema, roles, ref) <==> ColumnObjection(schema, roles, ref, i)
  {
    var (table, column) := Partition(ref);
    PartitionExactly(ref, table, column);
    forall t, c | SplitsAtDot(ref, t, c)
      ensures t == table && c == column
    {
      PartitionExactly(ref, t, c);
    }
    if Referred(schema, ref).Some? {
      CanViewExactly(Referred(schema, ref).value.classification, roles);
    }
  }

  lemma {:induction false} TablesDenied(p: PolicyConfig, tables: seq<string>, i: Issue)
    ensures i in AllTableDenials(p, tables) <==> exists table :: table in tables && TableObjection(p, table, i)
  {
    if |tables| != 0 {
      var before, last := tables[..|tables| - 1], tables[|tables| - 1];
      assert tables == before + [last];
      TablesDenied(p, before, i);
      TableObjected(p, last, i);
    }
  }

  lemma {:induction false} ColumnsDenied(schema: Schema, roles: set<string>, refs: seq<string>, i: Issue)
    ensures i in AllColumnDenials(schema, roles, refs) <==>
      exists ref :: ref in refs && ColumnObjection(schema, roles, ref, i)
  {
    if |refs| != 0 {
      var before, last := refs[..|refs| - 1], refs[|refs| - 1];
      assert refs == before + [last];
      ColumnsDenied(schema, roles, before, i);
      ColumnObjected(schema, roles, last, i);
    }
  }

  lemma {:induction false} ObjectionsExactly(p: PolicyConfig, schema: Schema, roles: set<string>,
                                             tables: seq<string>, refs: seq<string>, i: Issue)
    ensures i in AllTableDenials(p, tables) + AllColumnDenials(schema, roles, refs)
       <==> Objection(p, schema, roles, tables, refs, i)
  {
    TablesDenied(p, tables, i);
    ColumnsDenied(schema, roles, refs, i);
  }

  /** A recorded reference to a catalog column is refused exactly to callers whose roles may not see its
      class. */
  lemma ColumnRefused(schema: Schema, roles: set<string>, info: TableInfo, column: string)
    requires '.' !in info.name && schema.Table(info.name) == Some(info) && info.HasColumn(column)
    ensures ColumnPermitted(schema, roles, Reference(info.name, column))
       <==> MaySee(info.Column(column).value.classification, roles)
  {
    PartitionReference(info.name, column);
    CanViewExactly(info.Column(column).value.classification, roles);
  }

  // ----- what permission means -----

  predicate TablePermitted(p: PolicyConfig, qualified: string) {
    && BareName(qualified) !in p.deniedTables
    && (p.allowedTables.Some? ==> BareName(qualified) in p.allowedTables.value)
  }

  predicate ColumnPermitted(schema: Schema, roles: set<string>, ref: string) {
    Referred(schema, ref).Some? ==> CanView(Referred(schema, ref).value.classification, roles)
  }

  predicate Permitted(p: PolicyConfig, schema: Schema, roles: set<string>, tables: seq<string>, refs: seq<string>) {
    && (forall i :: 0 <= i < |tables| ==> TablePermitted(p, tables[i]))
    && (forall i :: 0 <= i < |refs| ==> ColumnPermitted(schema, roles, refs[i]))
  }

  lemma {:induction false} TableDenialsSpec(p: PolicyConfig, tables: seq<string>)
    ensures AllTableDenials(p, tables) == [] <==> forall i :: 0 <= i < |tables| ==> TablePermitted(p, tables[i])
    ensures Codes(AllTableDenials(p, tables)) <= {TableDenied, TableNotAllowed}
  {
    if |tables| != 0 {
      TableDenialsSpec(p, tables[..|tables| - 1]);
    }
  }

  lemma {:induction false} ColumnDenialsSpec(schema: Schema, roles: set<string>, refs: seq<string>)
    ensures AllColumnDenials(schema, roles, refs) == [] <==>
      forall i :: 0 <= i < |refs| ==> ColumnPermitted(schema, roles, refs[i])
    ensures Codes(AllColumnDenials(schema, roles, refs)) <= {ColumnDenied}
  {
    if |refs| != 0 {
      ColumnDenialsSpec(schema, roles, refs[..|refs| - 1]);
    }
  }

  lemma {:induction false} DenialsSpec(p: PolicyConfig, schema: Schema, roles: set<string>, tables: seq<string>,
                                       refs: seq<string>)
    ensures AllTableDenials(p, tables) + AllColumnDenials(schema, roles, refs) == []
       <==> Permitted(p, schema, roles, tables, refs)
  {
    TableDenialsSpec(p, tables);
    ColumnDenialsSpec(schema, roles, refs);
  }

  /** Reporting more columns, or holding fewer roles, can only make the policy stricter. */
  lemma PermissionMonotone(p: PolicyConfig, schema: Schema, roles: set<string>, fewer: set<string>,
                           tables: seq<string>, refs: seq<string>, more: seq<string>)
    requires fewer <= roles && forall r :: r in refs ==> r in more
    requires Permitted(p, schema, fewer, tables, more)
    ensures Permitted(p, schema, roles, tables, refs)
  {
    forall i | 0 <= i < |refs|
      ensures ColumnPermitted(schema, roles, refs[i])
    {
      assert refs[i] in refs;
      var j :| 0 <= j < |more| && more[j] == refs[i];
      assert ColumnPermitted(schema, fewer, more[j]);
      if Referred(schema, refs[i]).Some? {
        CanViewMonotone(Referred(schema, refs[i]).value.classification, fewer, roles);
      }
    }
  }
}
