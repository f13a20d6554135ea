/** What validation does not record: exactly when, and on which concrete statements. */
module UnrecordedColumns {
  import opened Collections
  import opened Schemas
  import opened Syntax
  import opened StatementTree
  import opened Issues
  import opened ValidatorSpec
  import opened Coverage
  import opened Revalidation

  // ----- one unqualified reference -----

  lemma FirstOwner(infos: seq<TableInfo>, column: string)
    ensures Owners(infos, column) != [] <==> exists info :: info in infos && info.HasColumn(column)
  {
    OwnersSpec(infos, column);
    if |Owners(infos, column)| != 0 {
      assert Owners(infos, column)[0] in Owners(infos, column);
    }
  }

  lemma {:induction false} InsertOne(info: TableInfo, column: string)
    ensures InsertAll([], [info], column) == [Reference(info.name, column)]
  {
    assert [info][1..] == [];
    assert InsertAll([], [info], column) == InsertAll(Insert([], Reference(info.name, column)), [info][1..], column);
  }

  lemma ReferenceInjective(a: string, b: string, column: string)
    ensures Reference(a, column) == Reference(b, column) <==> a == b
  {
    if Reference(a, column) == Reference(b, column) {
      assert |a| == |b|;
      assert a == Reference(a, column)[..|a|] == Reference(b, column)[..|b|] == b;
    }
  }

  ghost predicate Owned(names: Names, column: string) {
    exists info :: info in names.infos && info.HasColumn(column)
  }

  ghost predicate OneOwnerName(names: Names, column: string) {
    forall a, b :: a in names.infos && b in names.infos && a.HasColumn(column) && b.HasColumn(column) ==>
      a.name == b.name
  }

  /** An unqualified reference records every referenced table that has such a column exactly when there
      is none, or the name is no output alias and all of them have one name. */
  lemma UnqualifiedCoveredExactly(schema: Schema, names: Names, tag: Tag)
    requires tag.ColumnTag? && tag.qualifier == "" && tag.name != "" && tag.name != "*"
    ensures (forall info :: info in names.infos && info.HasColumn(tag.name) ==>
               Reference(info.name, tag.name) in Contribution(schema, names, tag))
       <==> (Owned(names, tag.name) ==> tag.name !in names.outputs && OneOwnerName(names, tag.name))
  {
    var owners := Owners(names.infos, tag.name);
    OwnersSpec(names.infos, tag.name);
    FirstOwner(names.infos, tag.name);
    if |owners| != 0 && tag.name !in names.outputs {
      assert owners[0] in owners;
      InsertOne(owners[0], tag.name);
      assert Contribution(schema, names, tag) == [Reference(owners[0].name, tag.name)];
      forall info | info in owners
        ensures Reference(info.name, tag.name) == Reference(owners[0].name, tag.name) <==> info.name == owners[0].name
      {
        ReferenceInjective(info.name, owners[0].name, tag.name);
      }
    }
  }

  /** A statement all of whose column references are unqualified and named like an output alias records
      no column. */
  lemma {:induction false} AliasedUnrecorded(schema: Schema, names: Names, tags: seq<Tag>)
    requires forall tag :: tag in tags && tag.ColumnTag? ==> tag.qualifier == "" && tag.name in names.outputs
    ensures ScanColumns(schema, names, tags).columns == []
  {
    var columns := ScanColumns(schema, names, tags).columns;
    forall x
      ensures x !in columns
    {
      ScanColumnsAre(schema, names, tags, x);
    }
    FirstMember(columns);
  }

  // ----- one qualified reference -----

  /** A qualified reference records a column of a table that its qualifier denotes exactly when the qualifier
      is not the alias of a CTE or derived table as well. */
  lemma {:induction false} QualifiedCoveredExactly(schema: Schema, names: Names, tag: Tag, info: TableInfo)
    requires tag.ColumnTag? && tag.qualifier != "" && tag.name != "" && tag.name != "*"
    requires tag.qualifier in names.aliases
    requires info in Known(schema, names.aliases[tag.qualifier]) && info.HasColumn(tag.name)
    ensures Reference(info.name, tag.name) in Contribution(schema, names, tag) <==> tag.qualifier !in names.virtuals
  {
    if tag.qualifier !in names.virtuals {
      QualifiedRecorded(schema, names, ColumnScan([], []), tag, info);
    }
  }

  /** A statement all of whose column references are qualified with such an alias records no column. */
  lemma {:induction false} LabelledUnrecorded(schema: Schema, names: Names, tags: seq<Tag>)
    requires forall tag :: tag in tags && tag.ColumnTag? ==> tag.qualifier != "" && tag.qualifier in names.virtuals
    ensures ScanColumns(schema, names, tags).columns == []
  {
    var columns := ScanColumns(schema, names, tags).columns;
    forall x
      ensures x !in columns
    {
      ScanColumnsAre(schema, names, tags, x);
    }
    FirstMember(columns);
  }

  // ----- one table -----

  lemma {:induction false} IndexedUnder(tables: seq<TableInfo>, name: string)
    requires name in IndexOf(tables)
    ensures name == IndexOf(tables)[name].name || name == IndexOf(tables)[name].Key()
  {
    var before, last := tables[..|tables| - 1], tables[|tables| - 1];
    if name in IndexOf(before) {
      IndexedUnder(before, name);
    }
  }

  /** In a well-named catalog a dot-free name finds the table that bears it. */
  lemma FoundByName(schema: Schema, name: string)
    requires WellNamed(schema) && '.' !in name && schema.Table(name).Some?
    ensures schema.Table(name).value.name == name
  {
    var info := schema.Table(name).value;
    TableMember(schema, name);
    IndexedUnder(schema.tables, name);
    if info.schemaName != "" {
      assert info.Key()[|info.schemaName|] == '.';
    }
  }

  ghost predicate Occurs(tags: seq<Tag>, name: string) {
    exists tag :: tag in tags && tag.TableTag? && tag.name == name
  }

  /** A catalog table is referenced exactly when it occurs in the statement and no CTE or derived table
      has its name. */
  lemma {:induction false} ReferencedExactly(c: Config, schema: Schema, tags: seq<Tag>, info: TableInfo)
    requires WellNamed(schema) && info in schema.tables && info.name != ""
    requires forall tag :: tag in tags && tag.TableTag? ==> '.' !in tag.name
    ensures info.QualifiedName() in ScanTables(c, schema, Virtuals(tags), tags).tables
       <==> Occurs(tags, info.name) && info.name !in Virtuals(tags)
  {
    var virtuals := Virtuals(tags);
    ScanTablesAre(c, schema, virtuals, tags);
    if Referenced(schema, virtuals, tags, info.QualifiedName()) {
      var tag :| tag in tags && Real(schema, virtuals, tag)
              && info.QualifiedName() == schema.Table(tag.name).value.QualifiedName();
      var found := schema.Table(tag.name).value;
      TableMember(schema, tag.name);
      BareNameOf(info);
      BareNameOf(found);
      FoundByName(schema, tag.name);
    }
    if Occurs(tags, info.name) && info.name !in virtuals {
      var tag :| tag in tags && tag.TableTag? && tag.name == info.name;
      assert Real(schema, virtuals, tag);
    }
  }

  /** Where every table occurrence has such a name, nothing is recorded for unqualified references. */
  lemma {:induction false} ShadowedUnrecorded(c: Config, schema: Schema, tags: seq<Tag>)
    requires FairShuffle(c)
    requires forall tag :: tag in tags && tag.TableTag? ==> tag.name in Virtuals(tags)
    requires forall tag :: tag in tags && tag.ColumnTag? ==> tag.qualifier == ""
    ensures ScanTables(c, schema, Virtuals(tags), tags).tables == []
    ensures ScanColumns(schema, NamesOf(c, schema, tags), tags).columns == []
  {
    var tables := ScanTables(c, schema, Virtuals(tags), tags).tables;
    var columns := ScanColumns(schema, NamesOf(c, schema, tags), tags).columns;
    ScanTablesAre(c, schema, Virtuals(tags), tags);
    FirstMember(tables);
    FirstMember(c.shuffle(Map(tables, BareName)));
    forall x
      ensures x !in columns
    {
      ScanColumnsAre(schema, NamesOf(c, schema, tags), tags, x);
    }
    FirstMember(columns);
  }

  lemma FirstMember(xs: seq<string>)
    ensures xs != [] ==> xs[0] in xs
  {
  }

  // ----- the nodes of a concrete statement -----

  /** Nodes that name a table, a column or an alias. */
  predicate Naming(tag: Tag) {
    tag.TableTag? || tag.ColumnTag? || tag.CteTag? || tag.SubqueryTag? || tag.AliasTag?
  }

  ghost function NamingTags(t: Statement): set<Tag> {
    (if Naming(t.tag) then {t.tag} else {}) + NamingTagsAll(t.kids)
  }

  ghost function NamingTagsAll(ts: seq<Statement>): set<Tag> {
    if |ts| == 0 then {} else NamingTags(ts[0]) + NamingTagsAll(ts[1..])
  }

  lemma {:induction false} NamingAppend(a: seq<Statement>, b: seq<Statement>)
    ensures NamingTagsAll(a + b) == NamingTagsAll(a) + NamingTagsAll(b)
  {
    if |a| == 0 {
      assert a + b == b;
    } else {
      assert (a + b)[1..] == a[1..] + b;
      NamingAppend(a[1..], b);
    }
  }

  lemma {:induction false} NamingHas(t: Statement, tag: Tag)
    requires Naming(tag)
    ensures tag in NamingTags(t) <==> exists n :: Has(t, n) && n.tag == tag
    decreases t, 0
  {
    NamingAllHas(t.kids, tag);
    if tag == t.tag {
      assert Has(t, t);
    }
    if n :| Has(t, n) && n.tag == tag {
      assert n != t ==> exists i :: 0 <= i < |t.kids| && Has(t.kids[i], n);
    }
    if i, n :| 0 <= i < |t.kids| && Has(t.kids[i], n) && n.tag == tag {
      assert Has(t, n);
    }
  }

  lemma {:induction false} NamingAllHas(ts: seq<Statement>, tag: Tag)
    requires Naming(tag)
    ensures tag in NamingTagsAll(ts) <==> exists i, n :: 0 <= i < |ts| && Has(ts[i], n) && n.tag == tag
    decreases ts, 0
  {
    if |ts| != 0 {
      NamingHas(ts[0], tag);
      NamingAllHas(ts[1..], tag);
      if i, n :| 0 <= i < |ts| && Has(ts[i], n) && n.tag == tag {
        assert i != 0 ==> Has(ts[1..][i - 1], n);
      }
      if i, n :| 0 <= i < |ts[1..]| && Has(ts[1..][i], n) && n.tag == tag {
        assert Has(ts[i + 1], n);
      }
      if n :| Has(ts[0], n) && n.tag == tag {
        assert 0 < |ts|;
      }
    }
  }

  lemma {:induction false} TagsAre(t: Statement, tag: Tag)
    requires Naming(tag)
    ensures tag in Tags(t) <==> tag in NamingTags(t)
  {
    NamingHas(t, tag);
    if tag in Tags(t) {
      var i :| 0 <= i < |Tags(t)| && Tags(t)[i] == tag;
      assert Nodes(t)[i] in Nodes(t);
      NodesMeet(t, Nodes(t)[i].tree);
    }
    if n :| Has(t, n) && n.tag == tag {
      NodesMeet(t, n);
      var v :| v in Nodes(t) && v.tree == n;
      var i :| 0 <= i < |Nodes(t)| && Nodes(t)[i] == v;
      assert Tags(t)[i] == tag;
    }
  }
}
