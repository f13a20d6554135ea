/** The recorded base columns cover every column an accepted query can read. */
module Coverage {
  import opened Collections
  import opened Schemas
  import opened Syntax
  import opened Evaluator
  import opened StatementTree
  import opened Encoding
  import opened Issues
  import opened ValidatorSpec
  import opened Policy
  import opened Independence
  import opened IndependenceTheorem

  // ----- well-formed catalogs -----

  /** Bare names identify tables and contain no dot; columns have proper names. */
  ghost predicate WellNamed(schema: Schema) {
    forall info :: info in schema.tables ==>
      && '.' !in info.name && schema.Table(info.name) == Some(info)
      && !info.HasColumn("") && !info.HasColumn("*")
  }

  lemma {:induction false} IndexMember(tables: seq<TableInfo>, name: string)
    requires name in IndexOf(tables)
    ensures IndexOf(tables)[name] in tables
  {
    var before := tables[..|tables| - 1];
    var last := tables[|tables| - 1];
    assert last in tables && forall t :: t in before ==> t in tables;
    if name in IndexOf(before) {
      IndexMember(before, name);
    }
  }

  lemma TableMember(schema: Schema, name: string)
    ensures schema.Table(name).Some? ==> schema.Table(name).value in schema.tables
  {
    if schema.Table(name).Some? {
      IndexMember(schema.tables, name);
    }
  }

  lemma {:induction false} KnownMember(schema: Schema, names: seq<string>, info: TableInfo)
    ensures info in Known(schema, names) <==> exists name :: name in names && schema.Table(name) == Some(info)
  {
    if |names| != 0 {
      KnownMember(schema, names[1..], info);
      assert names == [names[0]] + names[1..];
    }
  }

  lemma {:induction false} KnownInSchema(schema: Schema, names: seq<string>, info: TableInfo)
    requires info in Known(schema, names)
    ensures info in schema.tables
  {
    KnownMember(schema, names, info);
    var name :| name in names && schema.Table(name) == Some(info);
    TableMember(schema, name);
  }

  /** The part after the last dot. */
  lemma {:induction false} BareTailName(prefix: string, name: string)
    requires '.' !in name
    ensures BareNameTail(prefix + "." + name) == name
  {
    var text := prefix + "." + name;
    assert text[|prefix|] == '.';
    assert text[0] == '.' <==> |prefix| == 0 || prefix[0] == '.';
    if |prefix| == 0 {
      assert text[1..] == name;
    } else {
      assert text[1..] == prefix[1..] + "." + name;
      BareTailName(prefix[1..], name);
    }
  }

  lemma {:induction false} PartitionTail(text: string)
    requires '.' in text
    ensures BareNameTail(Partition(text).1) == BareNameTail(text)
  {
    if text[0] != '.' {
      PartitionTail(text[1..]);
    }
  }

  lemma BareNameOf(info: TableInfo)
    requires '.' !in info.name
    ensures BareName(info.QualifiedName()) == info.name
  {
    if info.schemaName != "" {
      var text := info.schemaName + "." + info.name;
      assert text[|info.schemaName|] == '.';
      PartitionTail(text);
      BareTailName(info.schemaName, info.name);
    }
  }

  // ----- what the scans record -----

  ghost predicate Grows(a: map<string, seq<string>>, b: map<string, seq<string>>) {
    forall q, x :: q in a && x in a[q] ==> q in b && x in b[q]
  }

  lemma DenoteGrows(aliases: map<string, seq<string>>, alias: string, name: string)
    ensures Grows(aliases, Denote(aliases, alias, name))
    ensures alias in Denote(aliases, alias, name) && name in Denote(aliases, alias, name)[alias]
  {
    forall x
      ensures x in Denote(aliases, alias, name)[alias] <==> (alias in aliases && x in aliases[alias]) || x == name
    {
      InsertMember(if alias in aliases then aliases[alias] else [], name, x);
    }
  }

  lemma ScanTableGrows(c: Config, schema: Schema, virtuals: set<string>, scan: TableScan, tag: Tag)
    ensures Grows(scan.aliases, ScanTable(c, schema, virtuals, scan, tag).aliases)
    ensures forall x :: x in scan.tables ==> x in ScanTable(c, schema, virtuals, scan, tag).tables
    ensures Considered(tag, virtuals) && schema.Table(tag.name).Some? ==>
      var after := ScanTable(c, schema, virtuals, scan, tag);
      var denoted := if tag.alias != "" then tag.alias else tag.name;
      && denoted in after.aliases && tag.name in after.aliases[denoted]
      && schema.Table(tag.name).value.QualifiedName() in after.tables
  {
    if Considered(tag, virtuals) && schema.Table(tag.name).Some? {
      var denoted := if tag.alias != "" then tag.alias else tag.name;
      DenoteGrows(scan.aliases, denoted, tag.name);
      DenoteGrows(Denote(scan.aliases, denoted, tag.name), tag.name, tag.name);
      forall x
        ensures x in Insert(scan.tables, schema.Table(tag.name).value.QualifiedName()) <==>
                x in scan.tables || x == schema.Table(tag.name).value.QualifiedName()
      {
        InsertMember(scan.tables, schema.Table(tag.name).value.QualifiedName(), x);
      }
    }
  }

  /** Each table occurrence is known under its label, and its table is referenced. */
  lemma {:induction false} ScanTablesKnows(c: Config, schema: Schema, virtuals: set<string>, tags: seq<Tag>, tag: Tag)
    requires tag in tags && Considered(tag, virtuals) && schema.Table(tag.name).Some?
    ensures var scan := ScanTables(c, schema, virtuals, tags);
      var denoted := if tag.alias != "" then tag.alias else tag.name;
      && denoted in scan.aliases && tag.name in scan.aliases[denoted]
      && schema.Table(tag.name).value.QualifiedName() in scan.tables
  {
    var before, last := tags[..|tags| - 1], tags[|tags| - 1];
    ScanTableGrows(c, schema, virtuals, ScanTables(c, schema, virtuals, before), last);
    if tag != last {
      assert tag in before;
      ScanTablesKnows(c, schema, virtuals, before, tag);
    }
  }

  lemma {:induction false} InsertAllMember(xs: seq<string>, owners: seq<TableInfo>, column: string)
    ensures forall x :: x in xs ==> x in InsertAll(xs, owners, column)
    ensures forall info :: info in owners ==> Reference(info.name, column) in InsertAll(xs, owners, column)
    decreases |owners|
  {
    if |owners| != 0 {
      var ref := Reference(owners[0].name, column);
      forall x
        ensures x in Insert(xs, ref) <==> x in xs || x == ref
      {
        InsertMember(xs, ref, x);
      }
      InsertAllMember(Insert(xs, ref), owners[1..], column);
      assert owners == [owners[0]] + owners[1..];
    }
  }

  lemma ScanColumnGrows(schema: Schema, names: Names, scan: ColumnScan, tag: Tag)
    ensures forall x :: x in scan.columns ==> x in ScanColumn(schema, names, scan, tag).columns
  {
    if tag.ColumnTag? {
      var owners := Owners(names.infos, tag.name);
      InsertAllMember(scan.columns, owners[..if |owners| == 0 then 0 else 1], tag.name);
      if |owners| != 0 {
        assert owners[..1] == [owners[0]];
      }
      if tag.qualifier in names.aliases {
        InsertAllMember(scan.columns, Owners(Known(schema, names.aliases[tag.qualifier]), tag.name), tag.name);
      }
    }
  }

  lemma {:induction false} QualifiedRecorded(schema: Schema, names: Names, scan: ColumnScan, tag: Tag, info: TableInfo)
    requires tag.ColumnTag? && tag.name != "" && tag.name != "*" && tag.qualifier != ""
    requires tag.qualifier !in names.virtuals && tag.qualifier in names.aliases
    requires info in Known(schema, names.aliases[tag.qualifier]) && info.HasColumn(tag.name)
    ensures Reference(info.name, tag.name) in ScanColumn(schema, names, scan, tag).columns
  {
    var infos := Known(schema, names.aliases[tag.qualifier]);
    OwnersSpec(infos, tag.name);
    InsertAllMember(scan.columns, Owners(infos, tag.name), tag.name);
  }

  lemma UnqualifiedRecorded(schema: Schema, names: Names, scan: ColumnScan, tag: Tag, info: TableInfo)
    requires tag.ColumnTag? && tag.name != "" && tag.name != "*" && tag.qualifier == "" && Unambiguous(names, tag)
    requires info in names.infos && info.HasColumn(tag.name)
    ensures Reference(info.name, tag.name) in ScanColumn(schema, names, scan, tag).columns
  {
    OwnersSpec(names.infos, tag.name);
    var owners := Owners(names.infos, tag.name);
    assert info in owners && owners[0] in owners;
    InsertAllMember(scan.columns, [owners[0]], tag.name);
  }

  /** What the statement-wide maps offer for one column reference. */
  ghost predicate MayDenote(schema: Schema, names: Names, tag: Tag, info: TableInfo)
    requires tag.ColumnTag?
  {
    && info.HasColumn(tag.name) && tag.name != "" && tag.name != "*"
    && if tag.qualifier != ""
       then tag.qualifier !in names.virtuals && tag.qualifier in names.aliases
            && info in Known(schema, names.aliases[tag.qualifier])
       else info in names.infos
  }

  /** An unqualified name belongs to at most one referenced table, and to none when it is an output
      alias. */
  ghost predicate Unambiguous(names: Names, tag: Tag)
    requires tag.ColumnTag?
  {
    tag.qualifier == "" ==>
      && (tag.name in names.outputs ==> forall info :: info in names.infos ==> !info.HasColumn(tag.name))
      && forall a, b ::
           a in names.infos && b in names.infos && a.HasColumn(tag.name) && b.HasColumn(tag.name) ==> a == b
  }

  /** Every base column the statement-wide maps offer for a reference is recorded. */
  lemma {:induction false} DenotedRecorded(schema: Schema, names: Names, tags: seq<Tag>, tag: Tag, info: TableInfo)
    requires tag in tags && tag.ColumnTag? && MayDenote(schema, names, tag, info) && Unambiguous(names, tag)
    ensures Reference(info.name, tag.name) in ScanColumns(schema, names, tags).columns
  {
    var before, last := tags[..|tags| - 1], tags[|tags| - 1];
    var scan := ScanColumns(schema, names, before);
    if tag == last {
      if tag.qualifier != "" {
        QualifiedRecorded(schema, names, scan, tag, info);
      } else {
        UnqualifiedRecorded(schema, names, scan, tag, info);
      }
    } else {
      assert tag in before;
      DenotedRecorded(schema, names, before, tag, info);
      ScanColumnGrows(schema, names, scan, last);
    }
  }

  // ----- the scope conditions of a statement -----

  ghost predicate FairShuffle(c: Config) {
    forall xs: seq<string>, x: string :: x in c.shuffle(xs) <==> x in xs
  }

  ghost predicate TablesNamed(tags: seq<Tag>) {
    forall tag :: tag in tags && tag.TableTag? ==> tag.name != ""
  }

  /** CTE and derived-table aliases are neither catalog tables nor labels of real tables; tables
      are named. */
  ghost predicate CleanTables(schema: Schema, tags: seq<Tag>) {
    && (forall name :: name in Virtuals(tags) ==> schema.Table(name).None?)
    && TablesNamed(tags)
    && (forall tag :: tag in tags && tag.TableTag? && schema.Table(tag.name).Some? ==>
          (if tag.alias != "" then tag.alias else tag.name) !in Virtuals(tags))
  }

  /** Moreover unqualified references are unambiguous. */
  ghost predicate CleanScopes(c: Config, schema: Schema, tags: seq<Tag>) {
    && CleanTables(schema, tags)
    && (forall tag :: tag in tags && tag.ColumnTag? ==> Unambiguous(NamesOf(c, schema, tags), tag))
  }

  function ColumnTags(tags: seq<Tag>): set<Tag> {
    set tag | tag in tags && tag.ColumnTag?
  }

  function Viewable(roles: set<string>): (TableInfo, string) -> bool {
    (info: TableInfo, column: string) =>
      info.Column(column).None? || CanView(info.Column(column).value.classification, roles)
  }

  function KnowledgeOf(c: Config, schema: Schema, roles: set<string>, tags: seq<Tag>): Knowledge {
    Knowledge(schema, NamesOf(c, schema, tags), ColumnTags(tags), Viewable(roles))
  }

  lemma TableTagOk(c: Config, schema: Schema, k: Knowledge, tags: seq<Tag>, tag: Tag)
    requires WellNamed(schema) && FairShuffle(c) && tag in tags && tag.TableTag? && tag.name != ""
    requires k.schema == schema && k.names == NamesOf(c, schema, tags)
    ensures TagOk(k, tag)
  {
    if tag.name !in Virtuals(tags) && schema.Table(tag.name).Some? {
      var info := schema.Table(tag.name).value;
      var scan := ScanTables(c, schema, Virtuals(tags), tags);
      var denoted := if tag.alias != "" then tag.alias else tag.name;
      ScanTablesKnows(c, schema, Virtuals(tags), tags, tag);
      KnownMember(schema, scan.aliases[denoted], info);
      TableMember(schema, tag.name);
      BareNameOf(info);
      var k :| 0 <= k < |scan.tables| && scan.tables[k] == info.QualifiedName();
      assert Map(scan.tables, BareName)[k] == info.name;
      KnownMember(schema, c.shuffle(Map(scan.tables, BareName)), info);
    }
  }

  /** Only labels and names of real tables are known. */
  lemma {:induction false} AliasKeys(c: Config, schema: Schema, virtuals: set<string>, tags: seq<Tag>, name: string)
    requires name in ScanTables(c, schema, virtuals, tags).aliases
    ensures exists tag :: tag in tags && Considered(tag, virtuals) && schema.Table(tag.name).Some? &&
                          (name == tag.name || name == if tag.alias != "" then tag.alias else tag.name)
  {
    var before, last := tags[..|tags| - 1], tags[|tags| - 1];
    if name in ScanTables(c, schema, virtuals, before).aliases {
      AliasKeys(c, schema, virtuals, before, name);
    } else {
      assert last in tags;
    }
  }

  lemma CleanQualifier(c: Config, schema: Schema, tags: seq<Tag>, name: string)
    requires CleanTables(schema, tags) && name in NamesOf(c, schema, tags).aliases
    ensures name !in Virtuals(tags)
  {
    AliasKeys(c, schema, Virtuals(tags), tags, name);
  }

  /** A permitted reference to a base column is a viewable base column. */
  lemma PermittedViewable(p: PolicyConfig, schema: Schema, roles: set<string>, tables: seq<string>, refs: seq<string>,
                          info: TableInfo, column: string)
    requires WellNamed(schema) && info in schema.tables && info.HasColumn(column)
    requires Permitted(p, schema, roles, tables, refs) && Reference(info.name, column) in refs
    ensures Viewable(roles)(info, column)
  {
    var ref := Reference(info.name, column);
    var i :| 0 <= i < |refs| && refs[i] == ref;
    PartitionReference(info.name, column);
    assert ColumnPermitted(schema, roles, refs[i]);
    assert Referred(schema, ref) == info.Column(column);
  }

  lemma {:induction false} ColumnTagOk(c: Config, p: PolicyConfig, schema: Schema, roles: set<string>, tags: seq<Tag>,
                                       tag: Tag)
    requires WellNamed(schema) && CleanScopes(c, schema, tags) && tag in tags && tag.ColumnTag?
    requires Permitted(p, schema, roles, ScanTables(c, schema, Virtuals(tags), tags).tables,
                       ScanColumns(schema, NamesOf(c, schema, tags), tags).columns)
    ensures TagOk(KnowledgeOf(c, schema, roles, tags), tag)
  {
    var names := NamesOf(c, schema, tags);
    var k := KnowledgeOf(c, schema, roles, tags);
    forall info: TableInfo | info.HasColumn(tag.name) &&
      (Shadowed(k, info) || if tag.qualifier != "" then Denotes(k, tag.qualifier, info) else info in names.infos)
      ensures k.readable(info, tag.name)
    {
      assert !Shadowed(k, info);
      if tag.qualifier != "" {
        CleanQualifier(c, schema, tags, tag.qualifier);
        KnownInSchema(schema, names.aliases[tag.qualifier], info);
      } else {
        KnownInSchema(schema, c.shuffle(Map(ScanTables(c, schema, Virtuals(tags), tags).tables, BareName)), info);
      }
      assert MayDenote(schema, names, tag, info);
      DenotedRecorded(schema, names, tags, tag, info);
      PermittedViewable(p, schema, roles, ScanTables(c, schema, Virtuals(tags), tags).tables,
                        ScanColumns(schema, names, tags).columns, info, tag.name);
    }
  }

  lemma {:induction false} AllTagsOk(k: Knowledge, root: Statement, t: Statement)
    requires Has(root, t)
    requires forall tag :: tag in Tags(root) ==> TagOk(k, tag)
    ensures AllOk(k, t)
    decreases t
  {
    NodesMeet(root, t);
    var v :| v in Nodes(root) && v.tree == t;
    var j :| 0 <= j < |Nodes(root)| && Nodes(root)[j] == v;
    assert Tags(root)[j] == t.tag;
    forall i | 0 <= i < |t.kids|
      ensures AllOk(k, t.kids[i])
    {
      HasChild(root, t, i);
      AllTagsOk(k, root, t.kids[i]);
    }
  }

  lemma {:induction false} HasChild(root: Statement, t: Statement, i: nat)
    requires Has(root, t) && i < |t.kids|
    ensures Has(root, t.kids[i])
  {
    if root == t {
      assert Has(root.kids[i], root.kids[i]);
    } else {
      var j :| 0 <= j < |root.kids| && Has(root.kids[j], t);
      HasChild(root.kids[j], t, i);
    }
  }

  /** Everything an accepted statement mentions is accounted for. */
  lemma {:induction false} AcceptedAllOk(c: Config, p: PolicyConfig, schema: Schema, roles: set<string>, t: Statement)
    requires WellNamed(schema) && FairShuffle(c) && CleanScopes(c, schema, Tags(t))
    requires Permitted(p, schema, roles, ReferencedTables(c, schema, t), ReferencedColumns(c, schema, t))
    ensures AllOk(KnowledgeOf(c, schema, roles, Tags(t)), t)
  {
    var k := KnowledgeOf(c, schema, roles, Tags(t));
    forall tag | tag in Tags(t)
      ensures TagOk(k, tag)
    {
      if tag.TableTag? {
        TableTagOk(c, schema, k, Tags(t), tag);
      } else if tag.ColumnTag? {
        ColumnTagOk(c, p, schema, roles, Tags(t), tag);
      }
    }
    assert Has(t, t);
    AllTagsOk(k, t, t);
  }

  /** A query the policy permits does not depend on any column the caller may not view. */
  lemma {:induction false} PolicyIndependence(c: Config, p: PolicyConfig, schema: Schema, roles: set<string>,
                                              q: Query, s: Store, r: Store)
    requires WellNamed(schema) && FairShuffle(c) && CleanScopes(c, schema, Tags(EncodeQuery(q)))
    requires Permitted(p, schema, roles, ReferencedTables(c, schema, EncodeQuery(q)),
                       ReferencedColumns(c, schema, EncodeQuery(q)))
    requires AlikeStores(KnowledgeOf(c, schema, roles, Tags(EncodeQuery(q))), s, r)
    ensures EvalQuery(s, map[], [], q) == EvalQuery(r, map[], [], q)
  {
    AcceptedAllOk(c, p, schema, roles, EncodeQuery(q));
    AgreeQuery(KnowledgeOf(c, schema, roles, Tags(EncodeQuery(q))), s, r, map[], [], [], q);
  }
}
