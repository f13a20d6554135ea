/** What validation finds in a statement, as functions of its nodes in walk order (sql/validator.py). */
module ValidatorSpec {
  import opened Collections
  import opened Schemas
  import opened Syntax
  import opened StatementTree
  import opened Issues

  /** `shuffle` is the order in which a Python set of names happens to be iterated. */
  datatype Config = Config(
    denylist: set<string>,
    allowCrossDatabase: bool,
    allowedSchemas: set<string>,
    shuffle: seq<string> -> seq<string>)

  const SYSTEM_SCHEMAS := {"information_schema", "pg_catalog", "pg_temp", "sys"}

  predicate StartsWith(text: string, prefix: string) {
    prefix <= text
  }

  predicate IsSystemTable(name: string) {
    StartsWith(name, "pg_") || StartsWith(name, "sqlite_")
  }

  predicate IsReadOnly(tag: Tag) {
    tag.SelectTag? || tag.SetOperationTag? || tag.SubqueryTag?
  }

  function VisitTags(vs: seq<Visit<()>>): (r: seq<Tag>)
    ensures |r| == |vs|
    ensures forall i :: 0 <= i < |vs| ==> r[i] == vs[i].tree.tag
  {
    seq(|vs|, i requires 0 <= i < |vs| => vs[i].tree.tag)
  }

  function Tags(t: Statement): seq<Tag> {
    VisitTags(Nodes(t))
  }

  // ----- names that are not catalog tables or columns -----

  function VirtualAliases(tags: seq<Tag>): set<string> {
    set tag | tag in tags && tag.CteTag? && tag.alias != "" :: tag.alias
  }

  function DerivedAliases(tags: seq<Tag>): set<string> {
    set tag | tag in tags && tag.SubqueryTag? && tag.alias != "" :: tag.alias
  }

  function Virtuals(tags: seq<Tag>): set<string> {
    VirtualAliases(tags) + DerivedAliases(tags)
  }

  function OutputAliases(tags: seq<Tag>): set<string> {
    set tag | tag in tags && tag.AliasTag? && tag.alias != "" :: tag.alias
  }

  // ----- tables -----

  predicate Considered(tag: Tag, virtuals: set<string>) {
    tag.TableTag? && tag.name != "" && tag.name !in virtuals
  }

  function TableIssues(c: Config, schema: Schema, tag: Tag): seq<Issue>
    requires tag.TableTag?
  {
    (if tag.catalog != "" && !c.allowCrossDatabase
     then [Issue(CrossDatabaseAccess, "", "table: " + tag.name)] else [])
    + (if tag.db != "" && tag.db in SYSTEM_SCHEMAS
       then [Issue(SystemCatalogAccess, "", "table: " + tag.db + "." + tag.name)] else [])
    + (if IsSystemTable(tag.name)
       then [Issue(SystemCatalogAccess, "", "table: " + tag.name)] else [])
    + (if c.allowedSchemas != {} && tag.db != "" && tag.db !in c.allowedSchemas && tag.db !in SYSTEM_SCHEMAS
       then [Issue(SchemaNotAllowed, "", "table: " + tag.db + "." + tag.name)] else [])
    + (if schema.Table(tag.name).None?
       then [Issue(UnknownTable, "", "table: " + tag.name)] else [])
  }

  /** What the table loop accumulates: alias -> tables it may denote, and the real tables met. */
  datatype TableScan = TableScan(aliases: map<string, seq<string>>, tables: seq<string>, issues: seq<Issue>)

  function Denote(aliases: map<string, seq<string>>, alias: string, name: string): map<string, seq<string>> {
    aliases[alias := Insert(if alias in aliases then aliases[alias] else [], name)]
  }

  function ScanTable(c: Config, schema: Schema, virtuals: set<string>, scan: TableScan, tag: Tag): TableScan {
    if !Considered(tag, virtuals) then scan
    else
      var found := scan.(issues := scan.issues + TableIssues(c, schema, tag));
      match schema.Table(tag.name)
      case None => found
      case Some(info) =>
        var denoted := if tag.alias != "" then tag.alias else tag.name;
        found.(aliases := Denote(Denote(scan.aliases, denoted, tag.name), tag.name, tag.name),
               tables := Insert(scan.tables, info.QualifiedName()))
  }

  function ScanTables(c: Config, schema: Schema, virtuals: set<string>, tags: seq<Tag>): TableScan {
    if |tags| == 0 then TableScan(map[], [], [])
    else ScanTable(c, schema, virtuals, ScanTables(c, schema, virtuals, tags[..|tags| - 1]), tags[|tags| - 1])
  }

  /** The part of a qualified name after its last dot. */
  function BareName(qualified: string): string {
    var (head, tail) := Partition(qualified);
    if '.' in qualified then BareNameTail(tail) else qualified
  }

  function BareNameTail(text: string): string {
    if '.' !in text then text
    else if text[0] == '.' then BareNameTail(text[1..])
    else BareNameTail(text[1..])
  }

  function Ending(name: string, n: nat): string
    requires n <= |name|
  {
    name[|name| - n..]
  }

  /** The last part of a dotted name. */
  predicate IsLastPart(name: string, part: string) {
    && '.' !in part && |part| <= |name| && Ending(name, |part|) == part
    && (|part| < |name| ==> name[|name| - |part| - 1] == '.')
  }

  lemma {:induction false} TailIsLast(text: string)
    ensures IsLastPart(text, BareNameTail(text))
  {
    if '.' in text {
      var part := BareNameTail(text[1..]);
      TailIsLast(text[1..]);
      assert text[|text| - |part|..] == text[1..][|text| - 1 - |part|..];
    }
  }

  lemma DotInside(name: string, part: string)
    requires IsLastPart(name, part)
    ensures forall n :: |part| < n <= |name| ==> '.' in Ending(name, n)
  {
    forall n | |part| < n <= |name|
      ensures '.' in Ending(name, n)
    {
      assert Ending(name, n)[n - |part| - 1] == name[|name| - |part| - 1];
    }
  }

  lemma OneLastPart(name: string, a: string, b: string)
    requires IsLastPart(name, a) && IsLastPart(name, b)
    ensures a == b
  {
    DotInside(name, a);
    DotInside(name, b);
    assert Ending(name, |b|) == b && Ending(name, |a|) == a;
  }

  lemma {:induction false} BareNameExactly(qualified: string, part: string)
    ensures BareName(qualified) == part <==> IsLastPart(qualified, part)
  {
    if '.' in qualified {
      var (head, tail) := Partition(qualified);
      PartitionExactly(qualified, head, tail);
      TailIsLast(tail);
      var last := BareNameTail(tail);
      assert qualified == head + "." + tail;
      assert qualified[|qualified| - |last|..] == tail[|tail| - |last|..];
      assert |last| < |qualified|;
      assert qualified[|qualified| - |last| - 1] == '.';
    }
    assert IsLastPart(qualified, BareName(qualified));
    if IsLastPart(qualified, part) {
      OneLastPart(qualified, part, BareName(qualified));
    }
  }

  /** The catalog entries of the referenced tables, in the arbitrary order of a set. */
  function RealInfos(c: Config, schema: Schema, tables: seq<string>): seq<TableInfo> {
    Known(schema, c.shuffle(Map(tables, BareName)))
  }

  function Known(schema: Schema, names: seq<string>): seq<TableInfo> {
    if |names| == 0 then []
    else (match schema.Table(names[0]) case Some(info) => [info] case None => []) + Known(schema, names[1..])
  }

  // ----- columns -----

  function Owners(infos: seq<TableInfo>, column: string): seq<TableInfo> {
    Filter(infos, (info: TableInfo) => info.HasColumn(column))
  }

  datatype ColumnScan = ColumnScan(columns: seq<string>, issues: seq<Issue>)

  function InsertAll(xs: seq<string>, owners: seq<TableInfo>, column: string): seq<string>
    decreases |owners|
  {
    if |owners| == 0 then xs else InsertAll(Insert(xs, Reference(owners[0].name, column)), owners[1..], column)
  }

  lemma {:induction false} InsertAllAdds(xs: seq<string>, owners: seq<TableInfo>, column: string, x: string)
    ensures x in InsertAll(xs, owners, column) <==>
      x in xs || exists info :: info in owners && x == Reference(info.name, column)
    decreases |owners|
  {
    if |owners| != 0 {
      InsertMember(xs, Reference(owners[0].name, column), x);
      InsertAllAdds(Insert(xs, Reference(owners[0].name, column)), owners[1..], column, x);
      assert owners == [owners[0]] + owners[1..];
    }
  }

  /** Everything a column reference is resolved against. */
  datatype Names = Names(
    virtuals: set<string>, outputs: set<string>, aliases: map<string, seq<string>>, infos: seq<TableInfo>)

  function ScanColumn(schema: Schema, names: Names, scan: ColumnScan, tag: Tag): ColumnScan {
    if !tag.ColumnTag? || tag.name == "" || tag.name == "*" then scan
    else if tag.qualifier != "" then
      if tag.qualifier in names.virtuals || tag.qualifier !in names.aliases then scan
      else
        var candidates := names.aliases[tag.qualifier];
        var owners := Owners(Known(schema, candidates), tag.name);
        if |owners| != 0 then scan.(columns := InsertAll(scan.columns, owners, tag.name))
        else if |candidates| == 0 then scan
        else scan.(issues := scan.issues + [Issue(UnknownColumn, "", "column: " + Reference(candidates[0], tag.name))])
    else if tag.name in names.outputs then scan
    else
      var owners := Owners(names.infos, tag.name);
      if |owners| != 0 then scan.(columns := InsertAll(scan.columns, [owners[0]], tag.name))
      else if |names.infos| != 0 then scan.(issues := scan.issues + [Issue(UnknownColumn, "", "column: " + tag.name)])
      else scan
  }

  function ScanColumns(schema: Schema, names: Names, tags: seq<Tag>): ColumnScan {
    if |tags| == 0 then ColumnScan([], [])
    else ScanColumn(schema, names, ScanColumns(schema, names, tags[..|tags| - 1]), tags[|tags| - 1])
  }

  function NamesOf(c: Config, schema: Schema, tags: seq<Tag>): Names {
    var tables := ScanTables(c, schema, Virtuals(tags), tags);
    Names(Virtuals(tags), OutputAliases(tags), tables.aliases, RealInfos(c, schema, tables.tables))
  }

  // ----- the whole statement -----

  predicate UnderFunction(above: seq<Step<()>>) {
    exists i :: 0 <= i < |above| && above[i].tag.FunctionTag?
  }

  predicate BareStar(v: Visit<()>) {
    v.tree.tag.StarTag? && !UnderFunction(v.above)
  }

  function FunctionIssues(c: Config, tags: seq<Tag>): seq<Issue> {
    if |tags| == 0 then []
    else
      var last := tags[|tags| - 1];
      FunctionIssues(c, tags[..|tags| - 1])
      + (if last.FunctionTag? && last.name in c.denylist
         then [Issue(DeniedFunction, "", "function: " + last.name)] else [])
  }

  /** The findings before tables and columns. */
  function ShapeIssues(c: Config, t: Statement): seq<Issue> {
    var vs := Nodes(t);
    (if IsReadOnly(t.tag) then [] else [Issue(NonReadOnlyStatement, "", "")])
    + (if exists v :: v in vs && v.tree.tag.ForbiddenTag? then [Issue(ForbiddenStatement, "", "")] else [])
    + (if exists v :: v in vs && v.tree.commented then [Issue(CommentPresent, "", "")] else [])
    + (if exists v :: v in vs && BareStar(v) then [Issue(SelectStarForbidden, "", "")] else [])
    + FunctionIssues(c, VisitTags(vs))
  }

  function Findings(c: Config, schema: Schema, t: Statement): seq<Issue> {
    var tags := Tags(t);
    ShapeIssues(c, t)
    + ScanTables(c, schema, Virtuals(tags), tags).issues
    + ScanColumns(schema, NamesOf(c, schema, tags), tags).issues
  }

  function ReferencedTables(c: Config, schema: Schema, t: Statement): seq<string> {
    ScanTables(c, schema, Virtuals(Tags(t)), Tags(t)).tables
  }

  function ReferencedColumns(c: Config, schema: Schema, t: Statement): seq<string> {
    ScanColumns(schema, NamesOf(c, schema, Tags(t)), Tags(t)).columns
  }

  // ----- recording -----

  predicate Recorded(issues: seq<Issue>, issue: Issue) {
    exists i :: 0 <= i < |issues| && issues[i].code == issue.code && issues[i].location == issue.location
  }

  /** `add`: the same code at the same place is recorded once. */
  function Record(issues: seq<Issue>, issue: Issue): seq<Issue> {
    if Recorded(issues, issue) then issues else issues + [issue]
  }

  function RecordAll(issues: seq<Issue>, found: seq<Issue>): seq<Issue> {
    if |found| == 0 then issues
    else Record(RecordAll(issues, found[..|found| - 1]), found[|found| - 1])
  }

  // ----- what a clean statement is -----

  predicate TableAllowed(c: Config, schema: Schema, tag: Tag)
    requires tag.TableTag?
  {
    && (tag.catalog == "" || c.allowCrossDatabase)
    && tag.db !in SYSTEM_SCHEMAS
    && !IsSystemTable(tag.name)
    && (c.allowedSchemas == {} || tag.db == "" || tag.db in c.allowedSchemas)
    && schema.Table(tag.name).Some?
  }

  /** Where a column reference is looked up, some table has it. */
  predicate ColumnKnown(schema: Schema, names: Names, tag: Tag)
    requires tag.ColumnTag?
  {
    if tag.name == "" || tag.name == "*" then true
    else if tag.qualifier != "" then
      (tag.qualifier !in names.virtuals && tag.qualifier in names.aliases && |names.aliases[tag.qualifier]| != 0)
      ==> exists info :: info in Known(schema, names.aliases[tag.qualifier]) && info.HasColumn(tag.name)
    else
      (tag.name !in names.outputs && |names.infos| != 0)
      ==> exists info :: info in names.infos && info.HasColumn(tag.name)
  }

  predicate NodeAllowed(c: Config, v: Visit<()>) {
    && !v.tree.tag.ForbiddenTag? && !v.tree.commented && !BareStar(v)
    && !(v.tree.tag.FunctionTag? && v.tree.tag.name in c.denylist)
  }

  predicate Clean(c: Config, schema: Schema, t: Statement) {
    var tags := Tags(t);
    && IsReadOnly(t.tag)
    && (forall v :: v in Nodes(t) ==> NodeAllowed(c, v))
    && (forall tag :: tag in tags && Considered(tag, Virtuals(tags)) ==> TableAllowed(c, schema, tag))
    && (forall tag :: tag in tags && tag.ColumnTag? ==> ColumnKnown(schema, NamesOf(c, schema, tags), tag))
  }

  lemma {:induction false} OwnersSpec(infos: seq<TableInfo>, column: string)
    ensures forall info :: info in Owners(infos, column) <==> info in infos && info.HasColumn(column)
  {
    forall info
      ensures info in Owners(infos, column) <==> info in infos && info.HasColumn(column)
    {
      FilterMember(infos, (i: TableInfo) => i.HasColumn(column), info);
    }
  }

  lemma {:induction false} FunctionIssuesClean(c: Config, tags: seq<Tag>)
    ensures FunctionIssues(c, tags) == [] <==>
      forall i :: 0 <= i < |tags| ==> !(tags[i].FunctionTag? && tags[i].name in c.denylist)
  {
    if |tags| != 0 {
      FunctionIssuesClean(c, tags[..|tags| - 1]);
    }
  }

  lemma {:induction false} ScanTablesClean(c: Config, schema: Schema, virtuals: set<string>, tags: seq<Tag>)
    ensures ScanTables(c, schema, virtuals, tags).issues == [] <==>
      forall i :: 0 <= i < |tags| && Considered(tags[i], virtuals) ==> TableAllowed(c, schema, tags[i])
  {
    if |tags| != 0 {
      ScanTablesClean(c, schema, virtuals, tags[..|tags| - 1]);
    }
  }

  lemma {:induction false} ScanColumnsClean(schema: Schema, names: Names, tags: seq<Tag>)
    ensures ScanColumns(schema, names, tags).issues == [] <==>
      forall i :: 0 <= i < |tags| && tags[i].ColumnTag? ==> ColumnKnown(schema, names, tags[i])
  {
    if |tags| != 0 {
      ScanColumnsClean(schema, names, tags[..|tags| - 1]);
      ScanColumnClean(schema, names, ScanColumns(schema, names, tags[..|tags| - 1]), tags[|tags| - 1]);
    }
  }

  lemma ScanColumnClean(schema: Schema, names: Names, scan: ColumnScan, tag: Tag)
    ensures ScanColumn(schema, names, scan, tag).issues == [] <==>
      scan.issues == [] && (tag.ColumnTag? ==> ColumnKnown(schema, names, tag))
  {
    if tag.ColumnTag? {
      OwnersSpec(names.infos, tag.name);
      if |Owners(names.infos, tag.name)| != 0 {
        assert Owners(names.infos, tag.name)[0] in Owners(names.infos, tag.name);
      }
      if tag.qualifier in names.aliases {
        var infos := Known(schema, names.aliases[tag.qualifier]);
        OwnersSpec(infos, tag.name);
        if |Owners(infos, tag.name)| != 0 {
          assert Owners(infos, tag.name)[0] in Owners(infos, tag.name);
        }
      }
    }
  }

  lemma ShapeClean(c: Config, t: Statement)
    ensures ShapeIssues(c, t) == [] <==> IsReadOnly(t.tag) && forall v :: v in Nodes(t) ==> NodeAllowed(c, v)
  {
    var tags, vs := Tags(t), Nodes(t);
    FunctionIssuesClean(c, tags);
    if FunctionIssues(c, tags) == [] {
      forall v | v in vs
        ensures !(v.tree.tag.FunctionTag? && v.tree.tag.name in c.denylist)
      {
        var i :| 0 <= i < |vs| && vs[i] == v;
        assert tags[i] == v.tree.tag;
      }
    }
    if forall v :: v in vs ==> NodeAllowed(c, v) {
      forall i | 0 <= i < |tags|
        ensures !(tags[i].FunctionTag? && tags[i].name in c.denylist)
      {
        assert vs[i] in vs;
      }
    }
  }

  /** Validation finds nothing exactly in statements that are read-only, without forbidden nodes,
      comments, bare stars or denied functions, and whose names all resolve in the catalog. */
  lemma FindingsClean(c: Config, schema: Schema, t: Statement)
    ensures Findings(c, schema, t) == [] <==> Clean(c, schema, t)
  {
    var tags := Tags(t);
    ShapeClean(c, t);
    ScanTablesClean(c, schema, Virtuals(tags), tags);
    ScanColumnsClean(schema, NamesOf(c, schema, tags), tags);
  }
}
