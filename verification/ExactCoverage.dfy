/** Exactly when the base column a reference denotes is recorded for it. */
module ExactCoverage {
  import opened Collections
  import opened Schemas
  import opened Syntax
  import opened Evaluator
  import opened StatementTree
  import opened Encoding
  import opened Issues
  import opened ValidatorSpec
  import opened Coverage
  import opened LexicalCoverage
  import opened Revalidation
  import opened UnrecordedColumns

  /** Tables have names, and no table, CTE or derived table has a dot in its name. */
  ghost predicate PlainNames(tags: seq<Tag>) {
    && TablesNamed(tags)
    && (forall tag :: tag in tags && tag.TableTag? ==> '.' !in tag.name)
    && (forall name :: name in Virtuals(tags) ==> '.' !in name)
  }

  /** In the order the set of referenced tables is iterated, the table is the first with such a column. */
  ghost predicate FirstWith(names: Names, column: string, info: TableInfo) {
    |Owners(names.infos, column)| != 0 && Owners(names.infos, column)[0] == info
  }

  /** What the code requires of a reference to a base column in order to record it. */
  ghost predicate Records(names: Names, site: Site, info: TableInfo) {
    && info.name !in names.virtuals
    && (site.qualifier != "" ==> site.qualifier !in names.virtuals)
    && (site.qualifier == "" ==> site.name !in names.outputs && FirstWith(names, site.name, info))
  }

  lemma FirstKnown(names: Names, column: string, info: TableInfo)
    ensures FirstWith(names, column, info) ==> info in names.infos && info.HasColumn(column)
  {
    var owners := Owners(names.infos, column);
    OwnersSpec(names.infos, column);
    if |owners| != 0 {
      assert owners[0] in owners;
    }
  }

  // ----- tables that are known are not shadowed -----

  lemma {:induction false} KnownNotShadowed(c: Config, schema: Schema, tags: seq<Tag>, info: TableInfo)
    requires WellNamed(schema) && FairShuffle(c) && PlainNames(tags) && info in NamesOf(c, schema, tags).infos
    ensures info in schema.tables && info.name !in Virtuals(tags)
  {
    var tables := ScanTables(c, schema, Virtuals(tags), tags).tables;
    var bare := Map(tables, BareName);
    KnownInSchema(schema, c.shuffle(bare), info);
    KnownMember(schema, c.shuffle(bare), info);
    var name :| name in bare && schema.Table(name) == Some(info);
    var i :| 0 <= i < |bare| && bare[i] == name;
    assert name == BareName(tables[i]) && tables[i] in tables;
    ScanTablesAre(c, schema, Virtuals(tags), tags);
    var tag :| tag in tags && Real(schema, Virtuals(tags), tag)
            && tables[i] == schema.Table(tag.name).value.QualifiedName();
    TableMember(schema, tag.name);
    BareNameOf(schema.Table(tag.name).value);
    FoundByName(schema, tag.name);
  }

  lemma NoneShadowed(c: Config, schema: Schema, tags: seq<Tag>)
    requires WellNamed(schema) && FairShuffle(c) && PlainNames(tags)
    ensures forall info :: info in NamesOf(c, schema, tags).infos ==>
      info in schema.tables && info.name !in Virtuals(tags)
  {
    forall info | info in NamesOf(c, schema, tags).infos
      ensures info in schema.tables && info.name !in Virtuals(tags)
    {
      KnownNotShadowed(c, schema, tags, info);
    }
  }

  lemma {:induction false} DenotedNotShadowed(c: Config, schema: Schema, tags: seq<Tag>, alias: string, info: TableInfo)
    requires WellNamed(schema) && PlainNames(tags) && alias in NamesOf(c, schema, tags).aliases
    requires info in Known(schema, NamesOf(c, schema, tags).aliases[alias])
    ensures info in schema.tables && info.name !in Virtuals(tags)
  {
    var candidates := NamesOf(c, schema, tags).aliases[alias];
    KnownInSchema(schema, candidates, info);
    KnownMember(schema, candidates, info);
    var name :| name in candidates && schema.Table(name) == Some(info);
    ScanTablesAre(c, schema, Virtuals(tags), tags);
    assert Aliased(schema, Virtuals(tags), tags, alias, name);
    FoundByName(schema, name);
  }

  /** A table that no CTE or derived table is named like is found under no such name. */
  lemma ShadowedByName(schema: Schema, tags: seq<Tag>, info: TableInfo, name: string)
    requires WellNamed(schema) && PlainNames(tags) && name in Virtuals(tags) && schema.Table(name) == Some(info)
    ensures info.name in Virtuals(tags)
  {
    FoundByName(schema, name);
  }

  // ----- what a contribution consists of -----

  lemma {:induction false} QualifiedContribution(schema: Schema, names: Names, tag: Tag, info: TableInfo)
    requires WellNamed(schema) && info in schema.tables
    requires tag.ColumnTag? && tag.qualifier != "" && Reference(info.name, tag.name) in Contribution(schema, names, tag)
    ensures tag.qualifier !in names.virtuals && tag.qualifier in names.aliases
    ensures info in Known(schema, names.aliases[tag.qualifier])
  {
    var infos := Known(schema, names.aliases[tag.qualifier]);
    var owners := Owners(infos, tag.name);
    OwnersSpec(infos, tag.name);
    InsertAllAdds([], owners, tag.name, Reference(info.name, tag.name));
    var owner :| owner in owners && Reference(info.name, tag.name) == Reference(owner.name, tag.name);
    ReferenceInjective(info.name, owner.name, tag.name);
    KnownInSchema(schema, names.aliases[tag.qualifier], owner);
  }

  lemma {:induction false} UnqualifiedContribution(schema: Schema, names: Names, tag: Tag, info: TableInfo)
    requires WellNamed(schema) && info in schema.tables && (forall i :: i in names.infos ==> i in schema.tables)
    requires tag.ColumnTag? && tag.qualifier == "" && tag.name != "" && tag.name != "*"
    ensures Reference(info.name, tag.name) in Contribution(schema, names, tag)
       <==> tag.name !in names.outputs && FirstWith(names, tag.name, info)
  {
    var owners := Owners(names.infos, tag.name);
    if |owners| != 0 && tag.name !in names.outputs {
      OwnersSpec(names.infos, tag.name);
      assert owners[0] in owners;
      InsertOne(owners[0], tag.name);
      assert Contribution(schema, names, tag) == [Reference(owners[0].name, tag.name)];
      ReferenceInjective(info.name, owners[0].name, tag.name);
    }
  }

  lemma {:induction false} ShadowedContribution(c: Config, schema: Schema, tags: seq<Tag>, tag: Tag, info: TableInfo)
    requires WellNamed(schema) && FairShuffle(c) && PlainNames(tags) && info in schema.tables
    requires info.name in Virtuals(tags) && tag.ColumnTag? && info.HasColumn(tag.name)
    ensures Reference(info.name, tag.name) !in Contribution(schema, NamesOf(c, schema, tags), tag)
  {
    var names := NamesOf(c, schema, tags);
    NoneShadowed(c, schema, tags);
    if tag.qualifier == "" {
      UnqualifiedContribution(schema, names, tag, info);
      FirstKnown(names, tag.name, info);
    } else if Reference(info.name, tag.name) in Contribution(schema, names, tag) {
      QualifiedContribution(schema, names, tag, info);
      DenotedNotShadowed(c, schema, tags, tag.qualifier, info);
    }
  }

  // ----- the theorem -----

  /** For every statement and database, wherever evaluation meets a reference to a base column: the node
      contributes that column exactly when no CTE or derived table bears the name of the table, none bears
      the qualifier, and without a qualifier the name is no output alias and the table comes first. */
  lemma {:induction false} MetExactly(c: Config, schema: Schema, q: Query, s: Store, site: Site, info: TableInfo)
    requires WellNamed(schema) && FairShuffle(c) && PlainNames(Tags(EncodeQuery(q))) && s.schema == schema
    requires MeetsQuery(s, map[], [], q, site) && Denoted(site) == Some(info)
    ensures var names := NamesOf(c, schema, Tags(EncodeQuery(q)));
      Reference(info.name, site.name) in Contribution(schema, names, ColumnTag(site.qualifier, site.name))
      <==> Records(names, site, info)
  {
    var tags := Tags(EncodeQuery(q));
    var names := NamesOf(c, schema, tags);
    var tag := ColumnTag(site.qualifier, site.name);
    MetKnown(c, schema, q, s, site, info);
    NoneShadowed(c, schema, tags);
    if name :| name in names.virtuals && schema.Table(name) == Some(info) {
      TableMember(schema, name);
      ShadowedByName(schema, tags, info, name);
      ShadowedContribution(c, schema, tags, tag, info);
    } else if site.qualifier != "" {
      QualifiedCoveredExactly(schema, names, tag, info);
    } else {
      UnqualifiedContribution(schema, names, tag, info);
    }
  }
}
