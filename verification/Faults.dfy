/** Which faults of a statement validation finds, in terms of its nodes and the catalog (sql/validator.py). */
module Faults {
  import opened Collections
  import opened Schemas
  import opened StatementTree
  import opened Issues
  import opened ValidatorSpec
  import opened Coverage
  import opened TreeFacts
  import opened Revalidation

  // ----- what a statement mentions -----

  ghost predicate Mentions(t: Statement, tag: Tag) {
    exists n :: Has(t, n) && n.tag == tag
  }

  /** A CTE or derived table bears the name. */
  ghost predicate IsVirtual(t: Statement, name: string) {
    name != "" && (Mentions(t, CteTag(name)) || exists limit :: Mentions(t, SubqueryTag(name, limit)))
  }

  /** An output column bears the name. */
  ghost predicate IsOutput(t: Statement, name: string) {
    name != "" && Mentions(t, AliasTag(name))
  }

  /** A table occurrence that does not stand for a CTE or derived table. */
  ghost predicate Reads(t: Statement, tag: Tag) {
    tag.TableTag? && Mentions(t, tag) && tag.name != "" && !IsVirtual(t, tag.name)
  }

  ghost predicate ReadsTable(schema: Schema, t: Statement, tag: Tag) {
    Reads(t, tag) && schema.Table(tag.name).Some?
  }

  /** Somewhere in the statement the qualifier is the alias or the name of a table read under `name`. */
  ghost predicate KnownUnder(schema: Schema, t: Statement, qualifier: string, name: string) {
    exists tag :: ReadsTable(schema, t, tag) && tag.name == name &&
                  (qualifier == name || (tag.alias != "" && qualifier == tag.alias))
  }

  // ----- the faults -----

  predicate SystemSchema(db: string) {
    db == "information_schema" || db == "pg_catalog" || db == "pg_temp" || db == "sys"
  }

  predicate SystemName(name: string) {
    "pg_" <= name || "sqlite_" <= name
  }

  predicate OutsideSchemas(c: Config, db: string) {
    c.allowedSchemas != {} && db != "" && db !in c.allowedSchemas && !SystemSchema(db)
  }

  /** What can be wrong with one table occurrence. */
  predicate TableFault(c: Config, schema: Schema, tag: Tag, i: Issue)
    requires tag.TableTag?
  {
    || (tag.catalog != "" && !c.allowCrossDatabase && i == Issue(CrossDatabaseAccess, "", "table: " + tag.name))
    || (SystemSchema(tag.db) && i == Issue(SystemCatalogAccess, "", "table: " + tag.db + "." + tag.name))
    || (SystemName(tag.name) && i == Issue(SystemCatalogAccess, "", "table: " + tag.name))
    || (OutsideSchemas(c, tag.db) && i == Issue(SchemaNotAllowed, "", "table: " + tag.db + "." + tag.name))
    || (schema.Table(tag.name).None? && i == Issue(UnknownTable, "", "table: " + tag.name))
  }

  /** The first name, in alphabetical order, of the tables the qualifier may denote. */
  ghost predicate FirstKnown(schema: Schema, t: Statement, qualifier: string, name: string) {
    && KnownUnder(schema, t, qualifier, name)
    && forall other :: KnownUnder(schema, t, qualifier, other) ==> other == name || Alphabetical(name, other)
  }

  /** The qualifier denotes catalog tables, but none with such a column. */
  ghost predicate UnknownQualified(schema: Schema, t: Statement, qualifier: string, column: string) {
    && !IsVirtual(t, qualifier) && (exists name :: KnownUnder(schema, t, qualifier, name))
    && forall name :: KnownUnder(schema, t, qualifier, name) ==> !schema.Table(name).value.HasColumn(column)
  }

  /** Catalog tables are read, but none with such a column. */
  ghost predicate UnknownUnqualified(schema: Schema, t: Statement, column: string) {
    && !IsOutput(t, column) && (exists tag :: ReadsTable(schema, t, tag))
    && forall tag :: ReadsTable(schema, t, tag) ==> !schema.Table(tag.name).value.HasColumn(column)
  }

  /** The place of such a fault is the first of the tables, with the column. */
  ghost predicate Places(schema: Schema, t: Statement, qualifier: string, column: string, i: Issue) {
    exists first :: FirstKnown(schema, t, qualifier, first) &&
                    i == Issue(UnknownColumn, "", "column: " + (first + "." + column))
  }

  ghost predicate ColumnFault(schema: Schema, t: Statement, tag: Tag, i: Issue) {
    && tag.ColumnTag? && Mentions(t, tag) && tag.name != "" && tag.name != "*"
    && if tag.qualifier != "" then
         UnknownQualified(schema, t, tag.qualifier, tag.name) && Places(schema, t, tag.qualifier, tag.name, i)
       else UnknownUnqualified(schema, t, tag.name) && i == Issue(UnknownColumn, "", "column: " + tag.name)
  }

  ghost predicate ShapeFault(c: Config, t: Statement, i: Issue) {
    || (!t.tag.SelectTag? && !t.tag.SetOperationTag? && !t.tag.SubqueryTag? && i == Issue(NonReadOnlyStatement, "", ""))
    || ((exists n :: Has(t, n) && n.tag.ForbiddenTag?) && i == Issue(ForbiddenStatement, "", ""))
    || ((exists n :: Has(t, n) && n.commented) && i == Issue(CommentPresent, "", ""))
    || (!StarFree(t) && i == Issue(SelectStarForbidden, "", ""))
    || (exists tag :: FunctionDenied(c, t, tag) && i == Issue(DeniedFunction, "", "function: " + tag.name))
  }

  ghost predicate FunctionDenied(c: Config, t: Statement, tag: Tag) {
    tag.FunctionTag? && Mentions(t, tag) && tag.name in c.denylist
  }

  /** Everything validation may find in a statement. */
  ghost predicate Fault(c: Config, schema: Schema, t: Statement, i: Issue) {
    || ShapeFault(c, t, i)
    || (exists tag :: Reads(t, tag) && TableFault(c, schema, tag, i))
    || exists tag :: ColumnFault(schema, t, tag, i)
  }

  // ----- the names the walk collects -----

  lemma {:induction false} TagsMention(t: Statement, tag: Tag)
    ensures tag in Tags(t) <==> Mentions(t, tag)
  {
    if tag in Tags(t) {
      var i :| 0 <= i < |Tags(t)| && Tags(t)[i] == tag;
      assert Nodes(t)[i] in Nodes(t);
      NodesMeet(t, Nodes(t)[i].tree);
    }
    if n :| Has(t, n) && n.tag == tag {
      NodesMeet(t, n);
      var v :| v in Nodes(t) && v.tree == n;
      var i :| 0 <= i < |Nodes(t)| && Nodes(t)[i] == v;
      assert Tags(t)[i] == tag;
    }
  }

  lemma {:induction false} AllTagsMention(t: Statement)
    ensures forall tag :: tag in Tags(t) <==> Mentions(t, tag)
  {
    forall tag
      ensures tag in Tags(t) <==> Mentions(t, tag)
    {
      TagsMention(t, tag);
    }
  }

  lemma {:induction false} VirtualsAre(t: Statement, name: string)
    ensures name in Virtuals(Tags(t)) <==> IsVirtual(t, name)
  {
    AllTagsMention(t);
    if name in DerivedAliases(Tags(t)) {
      var tag :| tag in Tags(t) && tag.SubqueryTag? && tag.alias != "" && tag.alias == name;
      assert tag == SubqueryTag(name, tag.limit);
    }
    if name in VirtualAliases(Tags(t)) {
      var tag :| tag in Tags(t) && tag.CteTag? && tag.alias != "" && tag.alias == name;
      assert tag == CteTag(name);
    }
    if IsVirtual(t, name) && !Mentions(t, CteTag(name)) {
      var limit :| Mentions(t, SubqueryTag(name, limit));
      assert SubqueryTag(name, limit) in Tags(t);
    }
  }

  lemma {:induction false} OutputsAre(t: Statement, name: string)
    ensures name in OutputAliases(Tags(t)) <==> IsOutput(t, name)
  {
    AllTagsMention(t);
    if name in OutputAliases(Tags(t)) {
      var tag :| tag in Tags(t) && tag.AliasTag? && tag.alias != "" && tag.alias == name;
      assert tag == AliasTag(name);
    }
  }

  lemma {:induction false} ConsideredReads(t: Statement, tag: Tag)
    ensures tag in Tags(t) && Considered(tag, Virtuals(Tags(t))) <==> Reads(t, tag)
  {
    TagsMention(t, tag);
    if tag.TableTag? {
      VirtualsAre(t, tag.name);
    }
  }

  lemma {:induction false} RealReads(schema: Schema, t: Statement, tag: Tag)
    ensures tag in Tags(t) && Real(schema, Virtuals(Tags(t)), tag) <==> ReadsTable(schema, t, tag)
  {
    ConsideredReads(t, tag);
  }

  lemma {:induction false} AliasedKnown(schema: Schema, t: Statement, qualifier: string, name: string)
    ensures Aliased(schema, Virtuals(Tags(t)), Tags(t), qualifier, name) <==> KnownUnder(schema, t, qualifier, name)
  {
    var tags := Tags(t);
    if Aliased(schema, Virtuals(tags), tags, qualifier, name) {
      var tag :| tag in tags && Real(schema, Virtuals(tags), tag) && tag.name == name
              && (qualifier == LabelOf(tag) || qualifier == tag.name);
      RealReads(schema, t, tag);
    }
    if KnownUnder(schema, t, qualifier, name) {
      var tag :| ReadsTable(schema, t, tag) && tag.name == name &&
                 (qualifier == name || (tag.alias != "" && qualifier == tag.alias));
      RealReads(schema, t, tag);
    }
  }

  lemma {:induction false} AliasesKnow(c: Config, schema: Schema, t: Statement, qualifier: string)
    ensures var aliases := NamesOf(c, schema, Tags(t)).aliases;
      && (qualifier in aliases <==> exists name :: KnownUnder(schema, t, qualifier, name))
      && (qualifier in aliases ==>
            && Sorted(aliases[qualifier]) && |aliases[qualifier]| != 0
            && forall name :: name in aliases[qualifier] <==> KnownUnder(schema, t, qualifier, name))
  {
    var aliases := NamesOf(c, schema, Tags(t)).aliases;
    ScanTablesAre(c, schema, Virtuals(Tags(t)), Tags(t));
    forall name
      ensures qualifier in aliases && name in aliases[qualifier] <==> KnownUnder(schema, t, qualifier, name)
    {
      AliasedKnown(schema, t, qualifier, name);
    }
    if qualifier in aliases {
      assert aliases[qualifier][0] in aliases[qualifier];
    }
  }

  /** The tables unqualified columns are looked up in are those the statement reads. */
  lemma {:induction false} InfosRead(c: Config, schema: Schema, t: Statement, info: TableInfo)
    requires WellNamed(schema) && FairShuffle(c)
    ensures info in NamesOf(c, schema, Tags(t)).infos <==>
      exists tag :: ReadsTable(schema, t, tag) && schema.Table(tag.name) == Some(info)
  {
    var tags := Tags(t);
    var tables := ScanTables(c, schema, Virtuals(tags), tags).tables;
    var bare := Map(tables, BareName);
    ScanTablesAre(c, schema, Virtuals(tags), tags);
    KnownMember(schema, c.shuffle(bare), info);
    if info in NamesOf(c, schema, tags).infos {
      var name :| name in bare && schema.Table(name) == Some(info);
      var k :| 0 <= k < |bare| && bare[k] == name;
      assert tables[k] in tables;
      var tag :| tag in tags && Real(schema, Virtuals(tags), tag)
              && tables[k] == schema.Table(tag.name).value.QualifiedName();
      RealReads(schema, t, tag);
      TableMember(schema, tag.name);
      BareNameOf(schema.Table(tag.name).value);
    }
    if tag :| ReadsTable(schema, t, tag) && schema.Table(tag.name) == Some(info) {
      RealReads(schema, t, tag);
      TableMember(schema, tag.name);
      BareNameOf(info);
      assert Referenced(schema, Virtuals(tags), tags, info.QualifiedName());
      var k :| 0 <= k < |tables| && tables[k] == info.QualifiedName();
      assert bare[k] == info.name;
    }
  }

  // ----- findings, one loop at a time -----

  lemma {:induction false} FunctionIssueIn(c: Config, tags: seq<Tag>, i: Issue)
    ensures i in FunctionIssues(c, tags) <==>
      exists tag :: tag in tags && tag.FunctionTag? && tag.name in c.denylist &&
                    i == Issue(DeniedFunction, "", "function: " + tag.name)
  {
    if |tags| != 0 {
      FunctionIssueIn(c, tags[..|tags| - 1], i);
      assert tags == tags[..|tags| - 1] + [tags[|tags| - 1]];
    }
  }

  lemma {:induction false} TableIssueIn(c: Config, schema: Schema, virtuals: set<string>, tags: seq<Tag>, i: Issue)
    ensures i in ScanTables(c, schema, virtuals, tags).issues <==>
      exists tag :: tag in tags && Considered(tag, virtuals) && i in TableIssues(c, schema, tag)
  {
    if |tags| != 0 {
      TableIssueIn(c, schema, virtuals, tags[..|tags| - 1], i);
      assert tags == tags[..|tags| - 1] + [tags[|tags| - 1]];
    }
  }

  /** What one column node adds to the findings. */
  function ColumnIssues(schema: Schema, names: Names, tag: Tag): seq<Issue> {
    ScanColumn(schema, names, ColumnScan([], []), tag).issues
  }

  lemma {:induction false} ColumnIssueIn(schema: Schema, names: Names, tags: seq<Tag>, i: Issue)
    ensures i in ScanColumns(schema, names, tags).issues <==>
      exists tag :: tag in tags && i in ColumnIssues(schema, names, tag)
  {
    if |tags| != 0 {
      var before, last := tags[..|tags| - 1], tags[|tags| - 1];
      ColumnIssueIn(schema, names, before, i);
      assert tags == before + [last];
      assert ScanColumns(schema, names, tags).issues
          == ScanColumns(schema, names, before).issues + ColumnIssues(schema, names, last);
    }
  }

  lemma {:induction false} TableIssuesAre(c: Config, schema: Schema, tag: Tag, i: Issue)
    requires tag.TableTag?
    ensures i in TableIssues(c, schema, tag) <==> TableFault(c, schema, tag, i)
  {
  }

  lemma {:induction false} FirstIsKnown(c: Config, schema: Schema, t: Statement, qualifier: string, name: string)
    requires qualifier in NamesOf(c, schema, Tags(t)).aliases && |NamesOf(c, schema, Tags(t)).aliases[qualifier]| != 0
    ensures FirstKnown(schema, t, qualifier, name) <==> name == NamesOf(c, schema, Tags(t)).aliases[qualifier][0]
  {
    var candidates := NamesOf(c, schema, Tags(t)).aliases[qualifier];
    AliasesKnow(c, schema, t, qualifier);
    assert candidates[0] in candidates;
    forall other | other in candidates
      ensures other == candidates[0] || Alphabetical(candidates[0], other)
    {
      var k :| 0 <= k < |candidates| && candidates[k] == other;
      BeforeExactly(candidates[0], other);
    }
    if FirstKnown(schema, t, qualifier, name) && name != candidates[0] {
      BeforeExactly(name, candidates[0]);
      BeforeExactly(candidates[0], name);
      BeforeOrder(name, candidates[0], name);
    }
  }

  lemma {:induction false} QualifiedOwners(c: Config, schema: Schema, t: Statement, qualifier: string, column: string)
    requires qualifier in NamesOf(c, schema, Tags(t)).aliases
    ensures Owners(Known(schema, NamesOf(c, schema, Tags(t)).aliases[qualifier]), column) == [] <==>
      forall name :: KnownUnder(schema, t, qualifier, name) ==> !schema.Table(name).value.HasColumn(column)
  {
    var candidates := NamesOf(c, schema, Tags(t)).aliases[qualifier];
    var infos := Known(schema, candidates);
    AliasesKnow(c, schema, t, qualifier);
    OwnersSpec(infos, column);
    if |Owners(infos, column)| != 0 {
      var info := Owners(infos, column)[0];
      assert info in Owners(infos, column);
      KnownMember(schema, candidates, info);
    }
    if name :| KnownUnder(schema, t, qualifier, name) && schema.Table(name).value.HasColumn(column) {
      KnownMember(schema, candidates, schema.Table(name).value);
      assert schema.Table(name).value in Owners(infos, column);
    }
  }

  lemma {:induction false} UnqualifiedOwners(c: Config, schema: Schema, t: Statement, column: string)
    requires WellNamed(schema) && FairShuffle(c)
    ensures NamesOf(c, schema, Tags(t)).infos == [] <==> !exists tag :: ReadsTable(schema, t, tag)
    ensures Owners(NamesOf(c, schema, Tags(t)).infos, column) == [] <==>
      forall tag :: ReadsTable(schema, t, tag) ==> !schema.Table(tag.name).value.HasColumn(column)
  {
    var infos := NamesOf(c, schema, Tags(t)).infos;
    OwnersSpec(infos, column);
    if |infos| != 0 {
      assert infos[0] in infos;
      InfosRead(c, schema, t, infos[0]);
    }
    if |Owners(infos, column)| != 0 {
      assert Owners(infos, column)[0] in Owners(infos, column);
      InfosRead(c, schema, t, Owners(infos, column)[0]);
    }
    forall tag | ReadsTable(schema, t, tag)
      ensures schema.Table(tag.name).value in infos
    {
      InfosRead(c, schema, t, schema.Table(tag.name).value);
    }
  }

  lemma {:induction false} QualifiedIssuesAre(c: Config, schema: Schema, t: Statement, tag: Tag, i: Issue)
    requires Mentions(t, tag) && tag.ColumnTag? && tag.name != "" && tag.name != "*" && tag.qualifier != ""
    ensures i in ColumnIssues(schema, NamesOf(c, schema, Tags(t)), tag) <==> ColumnFault(schema, t, tag, i)
  {
    var aliases := NamesOf(c, schema, Tags(t)).aliases;
    VirtualsAre(t, tag.qualifier);
    AliasesKnow(c, schema, t, tag.qualifier);
    if tag.qualifier in aliases {
      var first := aliases[tag.qualifier][0];
      QualifiedOwners(c, schema, t, tag.qualifier, tag.name);
      forall name
        ensures FirstKnown(schema, t, tag.qualifier, name) <==> name == first
      {
        FirstIsKnown(c, schema, t, tag.qualifier, name);
      }
      assert ColumnFault(schema, t, tag, i) <==>
             UnknownQualified(schema, t, tag.qualifier, tag.name) &&
             i == Issue(UnknownColumn, "", "column: " + Reference(first, tag.name));
    }
  }

  lemma {:induction false} ColumnIssuesAre(c: Config, schema: Schema, t: Statement, tag: Tag, i: Issue)
    requires WellNamed(schema) && FairShuffle(c) && Mentions(t, tag)
    ensures i in ColumnIssues(schema, NamesOf(c, schema, Tags(t)), tag) <==> ColumnFault(schema, t, tag, i)
  {
    if tag.ColumnTag? && tag.name != "" && tag.name != "*" {
      if tag.qualifier == "" {
        OutputsAre(t, tag.name);
        UnqualifiedOwners(c, schema, t, tag.name);
      } else {
        QualifiedIssuesAre(c, schema, t, tag, i);
      }
    }
  }

  lemma {:induction false} SomeNode(t: Statement)
    ensures (exists v :: v in Nodes(t) && v.tree.tag.ForbiddenTag?) <==> exists n :: Has(t, n) && n.tag.ForbiddenTag?
    ensures (exists v :: v in Nodes(t) && v.tree.commented) <==> exists n :: Has(t, n) && n.commented
  {
    forall v | v in Nodes(t)
      ensures Has(t, v.tree)
    {
      NodesMeet(t, v.tree);
    }
    forall n | Has(t, n)
      ensures exists v :: v in Nodes(t) && v.tree == n
    {
      NodesMeet(t, n);
    }
  }

  function Maybe(found: bool, code: Code): seq<Issue> {
    if found then [Issue(code, "", "")] else []
  }

  lemma MaybeHas(found: bool, code: Code, i: Issue)
    ensures i in Maybe(found, code) <==> found && i == Issue(code, "", "")
  {
  }

  lemma {:induction false} ShapeParts(c: Config, t: Statement)
    ensures ShapeIssues(c, t)
         == Maybe(!t.tag.SelectTag? && !t.tag.SetOperationTag? && !t.tag.SubqueryTag?, NonReadOnlyStatement)
            + Maybe(exists n :: Has(t, n) && n.tag.ForbiddenTag?, ForbiddenStatement)
            + Maybe(exists n :: Has(t, n) && n.commented, CommentPresent)
            + Maybe(!StarFree(t), SelectStarForbidden) + FunctionIssues(c, VisitTags(Nodes(t)))
  {
    SomeNode(t);
    StarFreeNodes(t);
  }

  lemma {:induction false} ShapeIssuesAre(c: Config, t: Statement, i: Issue)
    ensures i in ShapeIssues(c, t) <==> ShapeFault(c, t, i)
  {
    var writes := !t.tag.SelectTag? && !t.tag.SetOperationTag? && !t.tag.SubqueryTag?;
    var forbidden, commented := exists n :: Has(t, n) && n.tag.ForbiddenTag?, exists n :: Has(t, n) && n.commented;
    ShapeParts(c, t);
    DeniedAre(c, t, i);
    MaybeHas(writes, NonReadOnlyStatement, i);
    MaybeHas(forbidden, ForbiddenStatement, i);
    MaybeHas(commented, CommentPresent, i);
    MaybeHas(!StarFree(t), SelectStarForbidden, i);
    InFive(Maybe(writes, NonReadOnlyStatement), Maybe(forbidden, ForbiddenStatement),
           Maybe(commented, CommentPresent), Maybe(!StarFree(t), SelectStarForbidden),
           FunctionIssues(c, VisitTags(Nodes(t))), i);
  }

  lemma InFive(a: seq<Issue>, b: seq<Issue>, c: seq<Issue>, d: seq<Issue>, e: seq<Issue>, i: Issue)
    ensures i in a + b + c + d + e <==> i in a || i in b || i in c || i in d || i in e
  {
  }

  lemma {:induction false} DeniedAre(c: Config, t: Statement, i: Issue)
    ensures i in FunctionIssues(c, VisitTags(Nodes(t))) <==>
      exists tag :: FunctionDenied(c, t, tag) && i == Issue(DeniedFunction, "", "function: " + tag.name)
  {
    FunctionIssueIn(c, VisitTags(Nodes(t)), i);
    AllTagsMention(t);
    assert Tags(t) == VisitTags(Nodes(t));
  }

  /** Validation finds exactly the faults of a statement, under their codes and places. */
  lemma {:induction false} FindingsAre(c: Config, schema: Schema, t: Statement, i: Issue)
    requires WellNamed(schema) && FairShuffle(c)
    ensures i in Findings(c, schema, t) <==> Fault(c, schema, t, i)
  {
    var tags := Tags(t);
    var names := NamesOf(c, schema, tags);
    ShapeIssuesAre(c, t, i);
    TableIssueIn(c, schema, Virtuals(tags), tags, i);
    ColumnIssueIn(schema, names, tags, i);
    forall tag: Tag
      ensures tag in tags && Considered(tag, Virtuals(tags)) <==> Reads(t, tag)
      ensures tag.TableTag? ==> (i in TableIssues(c, schema, tag) <==> TableFault(c, schema, tag, i))
    {
      ConsideredReads(t, tag);
      if tag.TableTag? {
        TableIssuesAre(c, schema, tag, i);
      }
    }
    forall tag: Tag
      ensures tag in tags && i in ColumnIssues(schema, names, tag) <==> ColumnFault(schema, t, tag, i)
    {
      TagsMention(t, tag);
      if Mentions(t, tag) {
        ColumnIssuesAre(c, schema, t, tag, i);
      }
    }
  }

  // ----- code by code -----

  ghost predicate Found(c: Config, schema: Schema, t: Statement, code: Code) {
    exists i :: Fault(c, schema, t, i) && i.code == code
  }

  lemma {:induction false} FoundExactly(c: Config, schema: Schema, t: Statement, code: Code)
    requires WellNamed(schema) && FairShuffle(c)
    ensures code in Codes(Findings(c, schema, t)) <==> Found(c, schema, t, code)
  {
    if code in Codes(Findings(c, schema, t)) {
      var i :| i in Findings(c, schema, t) && i.code == code;
      FindingsAre(c, schema, t, i);
    }
    if Found(c, schema, t, code) {
      var i :| Fault(c, schema, t, i) && i.code == code;
      FindingsAre(c, schema, t, i);
    }
  }

  /** A column reference that is looked up and found in no table. */
  ghost predicate UnknownReference(schema: Schema, t: Statement, tag: Tag) {
    && tag.ColumnTag? && Mentions(t, tag) && tag.name != "" && tag.name != "*"
    && if tag.qualifier != "" then UnknownQualified(schema, t, tag.qualifier, tag.name)
       else UnknownUnqualified(schema, t, tag.name)
  }

  /** When validation reports each code. */
  ghost predicate Wrong(c: Config, schema: Schema, t: Statement, code: Code) {
    match code
    case NonReadOnlyStatement => !t.tag.SelectTag? && !t.tag.SetOperationTag? && !t.tag.SubqueryTag?
    case ForbiddenStatement => exists n :: Has(t, n) && n.tag.ForbiddenTag?
    case CommentPresent => exists n :: Has(t, n) && n.commented
    case SelectStarForbidden => !StarFree(t)
    case DeniedFunction => exists tag :: FunctionDenied(c, t, tag)
    case CrossDatabaseAccess => !c.allowCrossDatabase && exists tag :: Reads(t, tag) && tag.catalog != ""
    case SystemCatalogAccess => exists tag :: Reads(t, tag) && (SystemSchema(tag.db) || SystemName(tag.name))
    case SchemaNotAllowed => exists tag :: Reads(t, tag) && OutsideSchemas(c, tag.db)
    case UnknownTable => exists tag :: Reads(t, tag) && schema.Table(tag.name).None?
    case UnknownColumn => exists tag :: UnknownReference(schema, t, tag)
    case _ => false
  }

  predicate TableWrong(c: Config, schema: Schema, tag: Tag, code: Code)
    requires tag.TableTag?
  {
    match code
    case CrossDatabaseAccess => tag.catalog != "" && !c.allowCrossDatabase
    case SystemCatalogAccess => SystemSchema(tag.db) || SystemName(tag.name)
    case SchemaNotAllowed => OutsideSchemas(c, tag.db)
    case UnknownTable => schema.Table(tag.name).None?
    case _ => false
  }

  lemma TableWrongFault(c: Config, schema: Schema, tag: Tag, code: Code)
    requires tag.TableTag? && TableWrong(c, schema, tag, code)
    ensures exists i :: TableFault(c, schema, tag, i) && i.code == code
  {
    var place := if (code == SystemCatalogAccess && SystemSchema(tag.db)) || code == SchemaNotAllowed
                 then "table: " + tag.db + "." + tag.name else "table: " + tag.name;
    assert TableFault(c, schema, tag, Issue(code, "", place));
  }

  lemma TableFaultWrong(c: Config, schema: Schema, tag: Tag, i: Issue)
    requires tag.TableTag? && TableFault(c, schema, tag, i)
    ensures TableWrong(c, schema, tag, i.code)
  {
  }

  ghost predicate ShapeWrong(c: Config, t: Statement, code: Code) {
    match code
    case NonReadOnlyStatement => !t.tag.SelectTag? && !t.tag.SetOperationTag? && !t.tag.SubqueryTag?
    case ForbiddenStatement => exists n :: Has(t, n) && n.tag.ForbiddenTag?
    case CommentPresent => exists n :: Has(t, n) && n.commented
    case SelectStarForbidden => !StarFree(t)
    case DeniedFunction => exists tag :: FunctionDenied(c, t, tag)
    case _ => false
  }

  lemma {:induction false} ShapeWrongFault(c: Config, t: Statement, code: Code)
    requires ShapeWrong(c, t, code)
    ensures exists i :: ShapeFault(c, t, i) && i.code == code
  {
    if code == DeniedFunction {
      var tag :| FunctionDenied(c, t, tag);
      assert ShapeFault(c, t, Issue(DeniedFunction, "", "function: " + tag.name));
    } else {
      assert ShapeFault(c, t, Issue(code, "", ""));
    }
  }

  lemma {:induction false} ShapeFaultWrong(c: Config, t: Statement, i: Issue)
    requires ShapeFault(c, t, i)
    ensures ShapeWrong(c, t, i.code)
  {
  }

  lemma {:induction false} SomeFirst(c: Config, schema: Schema, t: Statement, qualifier: string)
    requires exists name :: KnownUnder(schema, t, qualifier, name)
    ensures exists first :: FirstKnown(schema, t, qualifier, first)
  {
    AliasesKnow(c, schema, t, qualifier);
    FirstIsKnown(c, schema, t, qualifier, NamesOf(c, schema, Tags(t)).aliases[qualifier][0]);
  }

  ghost predicate SomeColumnFault(schema: Schema, t: Statement, tag: Tag) {
    exists i :: ColumnFault(schema, t, tag, i)
  }

  lemma FirstFault(schema: Schema, t: Statement, tag: Tag, first: string)
    requires UnknownReference(schema, t, tag) && tag.qualifier != "" && FirstKnown(schema, t, tag.qualifier, first)
    ensures SomeColumnFault(schema, t, tag)
  {
    var i := Issue(UnknownColumn, "", "column: " + (first + "." + tag.name));
    FirstPlaces(schema, t, tag.qualifier, tag.name, first, i);
    assert ColumnFault(schema, t, tag, i);
  }

  lemma FirstPlaces(schema: Schema, t: Statement, qualifier: string, column: string, first: string, i: Issue)
    requires FirstKnown(schema, t, qualifier, first)
    requires i == Issue(UnknownColumn, "", "column: " + (first + "." + column))
    ensures Places(schema, t, qualifier, column, i)
  {
  }

  lemma PlainFault(schema: Schema, t: Statement, tag: Tag)
    requires UnknownReference(schema, t, tag) && tag.qualifier == ""
    ensures SomeColumnFault(schema, t, tag)
  {
    assert ColumnFault(schema, t, tag, Issue(UnknownColumn, "", "column: " + tag.name));
  }

  lemma {:induction false} ColumnWrongFault(c: Config, schema: Schema, t: Statement, tag: Tag)
    requires UnknownReference(schema, t, tag)
    ensures SomeColumnFault(schema, t, tag)
  {
    if tag.qualifier != "" {
      SomeFirst(c, schema, t, tag.qualifier);
      var first :| FirstKnown(schema, t, tag.qualifier, first);
      FirstFault(schema, t, tag, first);
    } else {
      PlainFault(schema, t, tag);
    }
  }

  lemma {:induction false} ColumnFaultWrong(schema: Schema, t: Statement, tag: Tag, i: Issue)
    requires ColumnFault(schema, t, tag, i)
    ensures UnknownReference(schema, t, tag) && i.code == UnknownColumn
  {
  }

  lemma {:induction false} WrongParts(c: Config, schema: Schema, t: Statement, code: Code)
    ensures Wrong(c, schema, t, code) <==>
      || ShapeWrong(c, t, code) || (exists tag :: Reads(t, tag) && TableWrong(c, schema, tag, code))
      || (code == UnknownColumn && exists tag :: UnknownReference(schema, t, tag))
  {
  }

  lemma {:induction false} FoundWrong(c: Config, schema: Schema, t: Statement, code: Code)
    ensures Found(c, schema, t, code) <==> Wrong(c, schema, t, code)
  {
    WrongParts(c, schema, t, code);
    if Found(c, schema, t, code) {
      var i :| Fault(c, schema, t, i) && i.code == code;
      if ShapeFault(c, t, i) {
        ShapeFaultWrong(c, t, i);
      } else if tag :| Reads(t, tag) && TableFault(c, schema, tag, i) {
        TableFaultWrong(c, schema, tag, i);
      } else {
        var tag :| ColumnFault(schema, t, tag, i);
        ColumnFaultWrong(schema, t, tag, i);
      }
    }
    if ShapeWrong(c, t, code) {
      ShapeWrongFault(c, t, code);
    }
    if tag :| Reads(t, tag) && TableWrong(c, schema, tag, code) {
      TableWrongFault(c, schema, tag, code);
      var i :| TableFault(c, schema, tag, i) && i.code == code;
      assert Fault(c, schema, t, i);
    }
    if code == UnknownColumn {
      if tag :| UnknownReference(schema, t, tag) {
        ColumnWrongFault(c, schema, t, tag);
        var i :| ColumnFault(schema, t, tag, i);
        ColumnFaultWrong(schema, t, tag, i);
      }
    }
  }

  /** A code is among the findings exactly when that is wrong with the statement. */
  lemma {:induction false} CodesExactly(c: Config, schema: Schema, t: Statement, code: Code)
    requires WellNamed(schema) && FairShuffle(c)
    ensures code in Codes(Findings(c, schema, t)) <==> Wrong(c, schema, t, code)
  {
    FoundExactly(c, schema, t, code);
    FoundWrong(c, schema, t, code);
  }

  // ----- recording keeps what was found -----

  ghost predicate Wordless(issues: seq<Issue>) {
    forall i :: i in issues ==> i.message == ""
  }

  lemma {:induction false} RecordAllMembers(issues: seq<Issue>, found: seq<Issue>, i: Issue)
    requires Wordless(issues) && Wordless(found)
    ensures i in RecordAll(issues, found) <==> i in issues || i in found
    ensures Wordless(RecordAll(issues, found))
  {
    if |found| != 0 {
      var before, last := found[..|found| - 1], found[|found| - 1];
      assert found == before + [last];
      var recorded := RecordAll(issues, before);
      RecordAllMembers(issues, before, i);
      if Recorded(recorded, last) {
        var k :| 0 <= k < |recorded| && recorded[k].code == last.code && recorded[k].location == last.location;
        assert recorded[k] in recorded;
        assert recorded[k] == last;
      }
    }
  }

  lemma {:induction false} ShapeWordless(c: Config, t: Statement, i: Issue)
    requires i in ShapeIssues(c, t)
    ensures i.message == ""
  {
    ShapeIssuesAre(c, t, i);
  }

  lemma {:induction false} ScansWordless(c: Config, schema: Schema, names: Names, tags: seq<Tag>, i: Issue)
    requires i in ScanTables(c, schema, Virtuals(tags), tags).issues || i in ScanColumns(schema, names, tags).issues
    ensures i.message == ""
  {
    TableIssueIn(c, schema, Virtuals(tags), tags, i);
    ColumnIssueIn(schema, names, tags, i);
  }

  lemma {:induction false} FindingsWordless(c: Config, schema: Schema, t: Statement)
    ensures Wordless(Findings(c, schema, t))
  {
    var tags := Tags(t);
    var names := NamesOf(c, schema, tags);
    forall i | i in Findings(c, schema, t)
      ensures i.message == ""
    {
      if i in ShapeIssues(c, t) {
        ShapeWordless(c, t, i);
      } else {
        ScansWordless(c, schema, names, tags, i);
      }
    }
  }

  /** What is reported is what was found, each once. */
  lemma {:induction false} ReportedExactly(c: Config, schema: Schema, t: Statement, marked: bool, i: Issue)
    requires WellNamed(schema) && FairShuffle(c)
    ensures var earlier := if marked then [Issue(CommentPresent, "", "")] else [];
      i in RecordAll(earlier, Findings(c, schema, t)) <==>
        Fault(c, schema, t, i) || (marked && i == Issue(CommentPresent, "", ""))
  {
    FindingsWordless(c, schema, t);
    FindingsAre(c, schema, t, i);
    RecordAllMembers(if marked then [Issue(CommentPresent, "", "")] else [], Findings(c, schema, t), i);
  }

  // ----- which tables and columns are recorded -----

  /** A table is recorded, under its full name, exactly when the statement reads it. */
  lemma {:induction false} TablesRecorded(c: Config, schema: Schema, t: Statement, x: string)
    ensures x in ReferencedTables(c, schema, t) <==>
      exists tag :: ReadsTable(schema, t, tag) && InFull(schema.Table(tag.name).value, x)
  {
    var tags := Tags(t);
    ScanTablesAre(c, schema, Virtuals(tags), tags);
    if Referenced(schema, Virtuals(tags), tags, x) {
      var tag :| tag in tags && Real(schema, Virtuals(tags), tag)
              && x == schema.Table(tag.name).value.QualifiedName();
      RealReads(schema, t, tag);
    }
    if tag :| ReadsTable(schema, t, tag) && InFull(schema.Table(tag.name).value, x) {
      RealReads(schema, t, tag);
      assert Referenced(schema, Virtuals(tags), tags, x);
    }
  }

  /** The table has the column, and the reference may denote it by the statement-wide names. */
  ghost predicate MayMean(schema: Schema, t: Statement, tag: Tag, info: TableInfo) {
    && tag.ColumnTag? && Mentions(t, tag) && tag.name != "" && tag.name != "*" && info.HasColumn(tag.name)
    && if tag.qualifier != "" then
         !IsVirtual(t, tag.qualifier) &&
         exists name :: KnownUnder(schema, t, tag.qualifier, name) && schema.Table(name) == Some(info)
       else
         !IsOutput(t, tag.name) &&
         exists table :: ReadsTable(schema, t, table) && schema.Table(table.name) == Some(info)
  }

  lemma {:induction false} ContributionMeans(c: Config, schema: Schema, t: Statement, tag: Tag, x: string)
    requires WellNamed(schema) && FairShuffle(c) && Mentions(t, tag)
    requires x in Contribution(schema, NamesOf(c, schema, Tags(t)), tag)
    ensures exists info :: MayMean(schema, t, tag, info) && x == info.name + "." + tag.name
  {
    var names := NamesOf(c, schema, Tags(t));
    if tag.qualifier == "" {
      var owners := Owners(names.infos, tag.name);
      OutputsAre(t, tag.name);
      OwnersSpec(names.infos, tag.name);
      InsertAllAdds([], [owners[0]], tag.name, x);
      assert owners[0] in owners;
      InfosRead(c, schema, t, owners[0]);
      assert MayMean(schema, t, tag, owners[0]);
    } else {
      var infos := Known(schema, names.aliases[tag.qualifier]);
      VirtualsAre(t, tag.qualifier);
      AliasesKnow(c, schema, t, tag.qualifier);
      OwnersSpec(infos, tag.name);
      InsertAllAdds([], Owners(infos, tag.name), tag.name, x);
      var info :| info in Owners(infos, tag.name) && x == Reference(info.name, tag.name);
      KnownMember(schema, names.aliases[tag.qualifier], info);
      assert MayMean(schema, t, tag, info);
    }
  }

  /** Nothing is recorded but columns that references of the statement may denote. */
  lemma {:induction false} ColumnsJustified(c: Config, schema: Schema, t: Statement, x: string)
    requires WellNamed(schema) && FairShuffle(c) && x in ReferencedColumns(c, schema, t)
    ensures exists tag, info :: MayMean(schema, t, tag, info) && x == info.name + "." + tag.name
  {
    var names := NamesOf(c, schema, Tags(t));
    ScanColumnsAre(schema, names, Tags(t), x);
    var tag :| tag in Tags(t) && x in Contribution(schema, names, tag);
    TagsMention(t, tag);
    ContributionMeans(c, schema, t, tag, x);
  }

  /** A qualified reference records all columns it may denote, an unqualified one at least one of them. */
  lemma {:induction false} ColumnsRecorded(c: Config, schema: Schema, t: Statement, tag: Tag, info: TableInfo)
    requires WellNamed(schema) && FairShuffle(c) && MayMean(schema, t, tag, info)
    ensures tag.qualifier != "" ==> info.name + "." + tag.name in ReferencedColumns(c, schema, t)
    ensures exists other :: MayMean(schema, t, tag, other) &&
                            other.name + "." + tag.name in ReferencedColumns(c, schema, t)
  {
    var names := NamesOf(c, schema, Tags(t));
    TagsMention(t, tag);
    if tag.qualifier != "" {
      VirtualsAre(t, tag.qualifier);
      AliasesKnow(c, schema, t, tag.qualifier);
      KnownMember(schema, names.aliases[tag.qualifier], info);
      QualifiedRecorded(schema, names, ColumnScan([], []), tag, info);
      ScanColumnsAre(schema, names, Tags(t), Reference(info.name, tag.name));
    } else {
      OutputsAre(t, tag.name);
      InfosRead(c, schema, t, info);
      OwnersSpec(names.infos, tag.name);
      var owners := Owners(names.infos, tag.name);
      assert info in owners && owners[0] in owners;
      InfosRead(c, schema, t, owners[0]);
      InsertAllAdds([], [owners[0]], tag.name, Reference(owners[0].name, tag.name));
      assert Reference(owners[0].name, tag.name) in Contribution(schema, names, tag);
      ScanColumnsAre(schema, names, Tags(t), Reference(owners[0].name, tag.name));
      assert MayMean(schema, t, tag, owners[0]);
    }
  }
}
