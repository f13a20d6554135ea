/** The validator: loops over the walk that grow an outcome (sql/validator.py). */
module Validator {
  import opened Collections
  import opened Schemas
  import opened StatementTree
  import opened Issues
  import opened ValidatorSpec
  import opened Coverage
  import opened Faults

  class ValidationOutcome {
    var isValid: bool
    var rootTag: Tag
    var referencedTables: seq<string>
    var referencedColumns: seq<string>
    var issues: seq<Issue>

    /** Nothing recorded twice, and invalid exactly when something is recorded. */
    ghost predicate Valid()
      reads this
    {
      && (isValid <==> issues == [])
      && forall i, j :: 0 <= i < j < |issues| ==>
           issues[i].code != issues[j].code || issues[i].location != issues[j].location
    }

    constructor (tag: Tag)
      ensures Valid() && issues == [] && isValid && rootTag == tag
      ensures referencedTables == [] && referencedColumns == []
    {
      isValid, rootTag, referencedTables, referencedColumns, issues := true, tag, [], [], [];
    }

    method Add(issue: Issue)
      requires Valid()
      modifies this
      ensures Valid() && !isValid && issues == Record(old(issues), issue)
      ensures rootTag == old(rootTag)
      ensures referencedTables == old(referencedTables) && referencedColumns == old(referencedColumns)
    {
      isValid := false;
      for i := 0 to |issues|
        invariant forall k :: 0 <= k < i ==> issues[k].code != issue.code || issues[k].location != issue.location
        invariant issues == old(issues) && !isValid && rootTag == old(rootTag)
        invariant referencedTables == old(referencedTables) && referencedColumns == old(referencedColumns)
      {
        if issues[i].code == issue.code && issues[i].location == issue.location {
          return;
        }
      }
      issues := issues + [issue];
    }

    method AddAll(found: seq<Issue>)
      requires Valid()
      modifies this
      ensures Valid() && issues == RecordAll(old(issues), found) && (found != [] ==> !isValid)
      ensures rootTag == old(rootTag)
      ensures referencedTables == old(referencedTables) && referencedColumns == old(referencedColumns)
    {
      for i := 0 to |found|
        invariant Valid() && issues == RecordAll(old(issues), found[..i]) && (i > 0 ==> !isValid)
        invariant rootTag == old(rootTag)
        invariant referencedTables == old(referencedTables) && referencedColumns == old(referencedColumns)
      {
        assert found[..i + 1][..i] == found[..i];
        Add(found[i]);
      }
      assert found[..|found|] == found;
    }
  }

  // ----- recording in several passes -----

  lemma {:induction false} RecordAllAppend(issues: seq<Issue>, a: seq<Issue>, b: seq<Issue>)
    ensures RecordAll(issues, a + b) == RecordAll(RecordAll(issues, a), b)
  {
    if |b| == 0 {
      assert a + b == a;
    } else {
      var n := |a + b|;
      assert (a + b)[..n - 1] == a + b[..|b| - 1] && (a + b)[n - 1] == b[|b| - 1];
      RecordAllAppend(issues, a, b[..|b| - 1]);
    }
  }

  lemma {:induction false} RecordAllEmpty(issues: seq<Issue>, found: seq<Issue>)
    ensures RecordAll(issues, found) == [] <==> issues == [] && found == []
    ensures |RecordAll(issues, found)| >= |issues|
  {
    if |found| != 0 {
      RecordAllEmpty(issues, found[..|found| - 1]);
    }
  }

  /** Recording loses no code: what is found is what is reported. */
  lemma {:induction false} RecordAllCodes(issues: seq<Issue>, found: seq<Issue>)
    ensures Codes(RecordAll(issues, found)) == Codes(issues) + Codes(found)
  {
    if |found| != 0 {
      var before, last := found[..|found| - 1], found[|found| - 1];
      var recorded := RecordAll(issues, before);
      RecordAllCodes(issues, before);
      assert found == before + [last];
      assert Codes(found) == Codes(before) + {last.code};
      if Recorded(recorded, last) {
        var i :| 0 <= i < |recorded| && recorded[i].code == last.code && recorded[i].location == last.location;
        assert recorded[i] in recorded;
        assert last.code in Codes(recorded);
      } else {
        assert Codes(recorded + [last]) == Codes(recorded) + {last.code};
      }
    }
  }

  /** What validation reports for the statements a text was parsed into. */
  function ValidationIssues(c: Config, schema: Schema, statements: seq<Statement>, commentMarker: bool): seq<Issue> {
    if |statements| != 1 then [Issue(MultipleStatements, "", "")]
    else
      RecordAll(if commentMarker then [Issue(CommentPresent, "", "")] else [], Findings(c, schema, statements[0]))
  }

  class SQLValidator {
    const config: Config

    constructor (config: Config)
      ensures this.config == config
    {
      this.config := config;
    }

    /** Exactly one statement, no comment marker the parser dropped, and nothing found in the tree. */
    method Validate(statements: seq<Statement>, commentMarker: bool, schema: Schema)
      returns (outcome: ValidationOutcome)
      ensures fresh(outcome) && outcome.Valid()
      ensures outcome.issues == ValidationIssues(config, schema, statements, commentMarker)
      ensures |statements| != 1 ==> outcome.issues == [Issue(MultipleStatements, "", "")]
      ensures |statements| == 1 && WellNamed(schema) && FairShuffle(config) ==>
        forall i :: i in outcome.issues <==>
          Fault(config, schema, statements[0], i) || (commentMarker && i == Issue(CommentPresent, "", ""))
      ensures |statements| == 1 ==> outcome.rootTag == statements[0].tag
      ensures |statements| == 1 ==> outcome.referencedTables == ReferencedTables(config, schema, statements[0])
      ensures |statements| == 1 ==> outcome.referencedColumns == ReferencedColumns(config, schema, statements[0])
    {
      outcome := new ValidationOutcome(if |statements| != 0 then statements[0].tag else OtherTag(""));
      if |statements| != 1 {
        outcome.Add(Issue(MultipleStatements, "", ""));
        return;
      }
      if commentMarker {
        outcome.Add(Issue(CommentPresent, "", ""));
      }
      assert outcome.issues == if commentMarker then [Issue(CommentPresent, "", "")] else [];
      ValidateInto(statements[0], schema, outcome);
      if WellNamed(schema) && FairShuffle(config) {
        forall i
          ensures i in outcome.issues <==>
            Fault(config, schema, statements[0], i) || (commentMarker && i == Issue(CommentPresent, "", ""))
        {
          ReportedExactly(config, schema, statements[0], commentMarker, i);
        }
      }
    }

    /** Validate a parsed (possibly rewritten) statement. */
    method ValidateExpression(t: Statement, schema: Schema) returns (outcome: ValidationOutcome)
      ensures fresh(outcome) && outcome.Valid() && outcome.rootTag == t.tag
      ensures outcome.issues == RecordAll([], Findings(config, schema, t))
      ensures outcome.isValid <==> Clean(config, schema, t)
      ensures WellNamed(schema) && FairShuffle(config) ==>
        forall i :: i in outcome.issues <==> Fault(config, schema, t, i)
      ensures outcome.referencedTables == ReferencedTables(config, schema, t)
      ensures outcome.referencedColumns == ReferencedColumns(config, schema, t)
    {
      outcome := new ValidationOutcome(t.tag);
      ValidateInto(t, schema, outcome);
      RecordAllEmpty([], Findings(config, schema, t));
      FindingsClean(config, schema, t);
      if WellNamed(schema) && FairShuffle(config) {
        forall i
          ensures i in outcome.issues <==> Fault(config, schema, t, i)
        {
          ReportedExactly(config, schema, t, false, i);
        }
      }
    }

    method ValidateInto(t: Statement, schema: Schema, outcome: ValidationOutcome)
      requires outcome.Valid()
      modifies outcome
      ensures outcome.Valid() && outcome.rootTag == old(outcome.rootTag)
      ensures outcome.issues == RecordAll(old(outcome.issues), Findings(config, schema, t))
      ensures outcome.referencedTables == ReferencedTables(config, schema, t)
      ensures outcome.referencedColumns == ReferencedColumns(config, schema, t)
    {
      ghost var earlier := outcome.issues;
      CheckShape(t, outcome);
      CheckTablesAndColumns(t, schema, outcome);
      ghost var tags := Tags(t);
      ghost var tables := ScanTables(config, schema, Virtuals(tags), tags).issues;
      RecordAllAppend(earlier, ShapeIssues(config, t), tables);
      RecordAllAppend(earlier, ShapeIssues(config, t) + tables,
                      ScanColumns(schema, NamesOf(config, schema, tags), tags).issues);
    }

    /** Statement class, forbidden nodes, comments, stars, functions. */
    method CheckShape(t: Statement, outcome: ValidationOutcome)
      requires outcome.Valid()
      modifies outcome
      ensures outcome.Valid() && outcome.issues == RecordAll(old(outcome.issues), ShapeIssues(config, t))
      ensures outcome.rootTag == old(outcome.rootTag)
    {
      var vs := Nodes(t);
      var found: seq<Issue> := if IsReadOnly(t.tag) then [] else [Issue(NonReadOnlyStatement, "", "")];
      var forbidden, commented, star := false, false, false;
      for i := 0 to |vs|
        invariant forbidden <==> exists k :: 0 <= k < i && vs[k].tree.tag.ForbiddenTag?
        invariant commented <==> exists k :: 0 <= k < i && vs[k].tree.commented
        invariant star <==> exists k :: 0 <= k < i && BareStar(vs[k])
      {
        forbidden := forbidden || vs[i].tree.tag.ForbiddenTag?;
        commented := commented || vs[i].tree.commented;
        star := star || BareStar(vs[i]);
      }
      SomeVisit(vs);
      found := found
        + (if forbidden then [Issue(ForbiddenStatement, "", "")] else [])
        + (if commented then [Issue(CommentPresent, "", "")] else [])
        + (if star then [Issue(SelectStarForbidden, "", "")] else []);
      var functions := CheckFunctions(VisitTags(vs));
      outcome.AddAll(found + functions);
    }

    method CheckFunctions(tags: seq<Tag>) returns (found: seq<Issue>)
      ensures found == FunctionIssues(config, tags)
    {
      found := [];
      for i := 0 to |tags|
        invariant found == FunctionIssues(config, tags[..i])
      {
        assert tags[..i + 1][..i] == tags[..i];
        if tags[i].FunctionTag? && tags[i].name in config.denylist {
          found := found + [Issue(DeniedFunction, "", "function: " + tags[i].name)];
        }
      }
      assert tags[..|tags|] == tags;
    }

    /** Names against the catalog, with one statement-wide alias map. */
    method CheckTablesAndColumns(t: Statement, schema: Schema, outcome: ValidationOutcome)
      requires outcome.Valid()
      modifies outcome
      ensures outcome.Valid() && outcome.rootTag == old(outcome.rootTag)
      ensures var tags := Tags(t);
        outcome.issues == RecordAll(RecordAll(old(outcome.issues),
                                              ScanTables(config, schema, Virtuals(tags), tags).issues),
                                    ScanColumns(schema, NamesOf(config, schema, tags), tags).issues)
      ensures outcome.referencedTables == ReferencedTables(config, schema, t)
      ensures outcome.referencedColumns == ReferencedColumns(config, schema, t)
    {
      var tags := Tags(t);
      var scan := CheckTables(schema, Virtuals(tags), tags);
      outcome.AddAll(scan.issues);
      outcome.referencedTables := scan.tables;
      var names := Names(Virtuals(tags), OutputAliases(tags), scan.aliases, RealInfos(config, schema, scan.tables));
      var columns := CheckColumns(schema, names, tags);
      outcome.AddAll(columns.issues);
      outcome.referencedColumns := columns.columns;
    }

    method CheckTables(schema: Schema, virtuals: set<string>, tags: seq<Tag>) returns (scan: TableScan)
      ensures scan == ScanTables(config, schema, virtuals, tags)
    {
      var aliases: map<string, seq<string>>, tables: seq<string>, issues: seq<Issue> := map[], [], [];
      for i := 0 to |tags|
        invariant TableScan(aliases, tables, issues) == ScanTables(config, schema, virtuals, tags[..i])
      {
        assert tags[..i + 1][..i] == tags[..i];
        var tag := tags[i];
        if !tag.TableTag? || tag.name == "" || tag.name in virtuals {
          continue;
        }
        var found := CheckTable(schema, tag);
        issues := issues + found;
        var info := schema.Table(tag.name);
        if info.None? {
          continue;
        }
        tables := Insert(tables, info.value.QualifiedName());
        var denoted := if tag.alias != "" then tag.alias else tag.name;
        aliases := aliases[denoted := Insert(if denoted in aliases then aliases[denoted] else [], tag.name)];
        aliases := aliases[tag.name := Insert(if tag.name in aliases then aliases[tag.name] else [], tag.name)];
      }
      assert tags[..|tags|] == tags;
      scan := TableScan(aliases, tables, issues);
    }

    /** What is wrong with one table occurrence. */
    method CheckTable(schema: Schema, tag: Tag) returns (found: seq<Issue>)
      requires tag.TableTag?
      ensures found == TableIssues(config, schema, tag)
      ensures forall i :: i in found <==> TableFault(config, schema, tag, i)
      ensures found == [] <==> TableAllowed(config, schema, tag)
    {
      found := [];
      if tag.catalog != "" && !config.allowCrossDatabase {
        found := found + [Issue(CrossDatabaseAccess, "", "table: " + tag.name)];
      }
      if tag.db != "" && tag.db in SYSTEM_SCHEMAS {
        found := found + [Issue(SystemCatalogAccess, "", "table: " + tag.db + "." + tag.name)];
      }
      if IsSystemTable(tag.name) {
        found := found + [Issue(SystemCatalogAccess, "", "table: " + tag.name)];
      }
      if config.allowedSchemas != {} && tag.db != "" && tag.db !in config.allowedSchemas
         && tag.db !in SYSTEM_SCHEMAS {
        found := found + [Issue(SchemaNotAllowed, "", "table: " + tag.db + "." + tag.name)];
      }
      if schema.Table(tag.name).None? {
        found := found + [Issue(UnknownTable, "", "table: " + tag.name)];
      }
      forall i
        ensures i in found <==> TableFault(config, schema, tag, i)
      {
        TableIssuesAre(config, schema, tag, i);
      }
    }

    method CheckColumns(schema: Schema, names: Names, tags: seq<Tag>) returns (scan: ColumnScan)
      ensures scan == ScanColumns(schema, names, tags)
    {
      var columns: seq<string>, issues: seq<Issue> := [], [];
      for i := 0 to |tags|
        invariant ColumnScan(columns, issues) == ScanColumns(schema, names, tags[..i])
      {
        assert tags[..i + 1][..i] == tags[..i];
        var tag := tags[i];
        if !tag.ColumnTag? || tag.name == "" || tag.name == "*" {
          continue;
        }
        if tag.qualifier != "" {
          if tag.qualifier in names.virtuals || tag.qualifier !in names.aliases {
            continue;
          }
          var candidates := names.aliases[tag.qualifier];
          var owners := Owners(Known(schema, candidates), tag.name);
          if |owners| != 0 {
            columns := RecordOwners(columns, owners, tag.name);
          } else if |candidates| != 0 {
            issues := issues + [Issue(UnknownColumn, "", "column: " + Reference(candidates[0], tag.name))];
          }
        } else if tag.name !in names.outputs {
          var owners := Owners(names.infos, tag.name);
          if |owners| != 0 {
            columns := RecordOwners(columns, [owners[0]], tag.name);
          } else if |names.infos| != 0 {
            issues := issues + [Issue(UnknownColumn, "", "column: " + tag.name)];
          }
        }
      }
      assert tags[..|tags|] == tags;
      scan := ColumnScan(columns, issues);
    }
  }

  /** One reference for each owner. */
  method RecordOwners(before: seq<string>, owners: seq<TableInfo>, column: string) returns (columns: seq<string>)
    ensures columns == InsertAll(before, owners, column)
    ensures forall x ::
      x in columns <==> x in before || exists info :: info in owners && x == Reference(info.name, column)
  {
    columns := before;
    for i := 0 to |owners|
      invariant InsertAll(columns, owners[i..], column) == InsertAll(before, owners, column)
    {
      columns := Insert(columns, Reference(owners[i].name, column));
      assert owners[i..][1..] == owners[i + 1..];
    }
    assert owners[|owners|..] == [];
    forall x
      ensures x in columns <==> x in before || exists info :: info in owners && x == Reference(info.name, column)
    {
      InsertAllAdds(before, owners, column, x);
    }
  }

  lemma SomeVisit(vs: seq<Visit<()>>)
    ensures (exists k :: 0 <= k < |vs| && vs[k].tree.tag.ForbiddenTag?) <==>
      exists v :: v in vs && v.tree.tag.ForbiddenTag?
    ensures (exists k :: 0 <= k < |vs| && vs[k].tree.commented) <==> exists v :: v in vs && v.tree.commented
    ensures (exists k :: 0 <= k < |vs| && BareStar(vs[k])) <==> exists v :: v in vs && BareStar(v)
  {
    if v :| v in vs && v.tree.tag.ForbiddenTag? {
      var k :| 0 <= k < |vs| && vs[k] == v;
    }
    if v :| v in vs && v.tree.commented {
      var k :| 0 <= k < |vs| && vs[k] == v;
    }
    if v :| v in vs && BareStar(v) {
      var k :| 0 <= k < |vs| && vs[k] == v;
    }
  }
}
