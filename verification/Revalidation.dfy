/** Rewriting leaves names and nodes valid, and reads nothing new but tenant columns. */
module Revalidation {
  import opened Collections
  import opened Schemas
  import opened Syntax
  import opened StatementTree
  import opened Encoding
  import opened Issues
  import opened ValidatorSpec
  import opened TenantRewrite
  import opened TreeRewrite
  import opened Placement
  import opened TreeFacts

  // ----- sorted lists are determined by their members -----

  ghost predicate Sorted(xs: seq<string>) {
    forall i, j :: 0 <= i < j < |xs| ==> Before(xs[i], xs[j])
  }

  lemma {:induction false} InsertSorted(xs: seq<string>, x: string)
    requires Sorted(xs)
    ensures Sorted(Insert(xs, x))
  {
    if |xs| == 0 || xs[0] == x {
    } else if Before(x, xs[0]) {
      forall j | 0 <= j < |xs|
        ensures Before(x, xs[j])
      {
        BeforeOrder(x, xs[0], xs[j]);
      }
    } else {
      InsertSorted(xs[1..], x);
      BeforeOrder(x, xs[0], x);
      forall j | 0 <= j < |Insert(xs[1..], x)|
        ensures Before(xs[0], Insert(xs[1..], x)[j])
      {
        InsertMember(xs[1..], x, Insert(xs[1..], x)[j]);
      }
    }
  }

  lemma {:induction false} SortedSame(xs: seq<string>, ys: seq<string>)
    requires Sorted(xs) && Sorted(ys) && forall x :: x in xs <==> x in ys
    ensures xs == ys
  {
    assert |ys| != 0 ==> ys[0] in xs;
    if |xs| != 0 {
      assert xs[0] in ys;
      var i :| 0 <= i < |ys| && ys[i] == xs[0];
      assert ys[0] in xs;
      var j :| 0 <= j < |xs| && xs[j] == ys[0];
      if i > 0 {
        assert Before(ys[0], xs[0]);
        if j > 0 {
          assert Before(xs[0], ys[0]);
          BeforeOrder(xs[0], ys[0], xs[0]);
        }
        BeforeOrder(xs[0], xs[0], xs[0]);
      }
      assert xs[0] == ys[0];
      forall x
        ensures x in xs[1..] <==> x in ys[1..]
      {
        TailMember(xs, x);
        TailMember(ys, x);
      }
      SortedSame(xs[1..], ys[1..]);
    }
  }

  lemma TailMember(xs: seq<string>, x: string)
    requires |xs| != 0 && Sorted(xs)
    ensures x in xs[1..] <==> x in xs && x != xs[0]
  {
    BeforeOrder(x, x, x);
    assert xs == [xs[0]] + xs[1..];
    if x in xs[1..] {
      var i :| 0 <= i < |xs[1..]| && xs[1..][i] == x;
      assert Before(xs[0], xs[i + 1]);
    }
  }

  // ----- the table scan is determined by the set of table nodes -----

  function LabelOf(tag: Tag): string
    requires tag.TableTag?
  {
    if tag.alias != "" then tag.alias else tag.name
  }

  predicate Real(schema: Schema, virtuals: set<string>, tag: Tag) {
    Considered(tag, virtuals) && schema.Table(tag.name).Some?
  }

  ghost predicate Aliased(schema: Schema, virtuals: set<string>, tags: seq<Tag>, q: string, x: string) {
    exists tag :: tag in tags && Real(schema, virtuals, tag) && tag.name == x && (q == LabelOf(tag) || q == tag.name)
  }

  ghost predicate Referenced(schema: Schema, virtuals: set<string>, tags: seq<Tag>, x: string) {
    exists tag :: tag in tags && Real(schema, virtuals, tag) && x == schema.Table(tag.name).value.QualifiedName()
  }

  ghost predicate AliasesAre(schema: Schema, virtuals: set<string>, tags: seq<Tag>, aliases: map<string, seq<string>>) {
    && (forall q :: q in aliases ==> Sorted(aliases[q]) && |aliases[q]| != 0)
    && forall q, x :: (q in aliases && x in aliases[q]) <==> Aliased(schema, virtuals, tags, q, x)
  }

  ghost predicate TablesAre(schema: Schema, virtuals: set<string>, tags: seq<Tag>, tables: seq<string>) {
    Sorted(tables) && forall x :: x in tables <==> Referenced(schema, virtuals, tags, x)
  }

  lemma DenoteAdds(aliases: map<string, seq<string>>, alias: string, name: string)
    requires forall q :: q in aliases ==> Sorted(aliases[q]) && |aliases[q]| != 0
    ensures var after := Denote(aliases, alias, name);
      && (forall q :: q in after ==> Sorted(after[q]) && |after[q]| != 0)
      && forall q, x :: (q in after && x in after[q]) <==>
           (q in aliases && x in aliases[q]) || (q == alias && x == name)
  {
    var before := if alias in aliases then aliases[alias] else [];
    InsertSorted(before, name);
    forall x
      ensures x in Insert(before, name) <==> x in before || x == name
    {
      InsertMember(before, name, x);
    }
    assert name in Insert(before, name);
  }

  lemma AliasedSnoc(schema: Schema, virtuals: set<string>, tags: seq<Tag>, q: string, x: string)
    requires |tags| != 0
    ensures var last := tags[|tags| - 1];
      Aliased(schema, virtuals, tags, q, x) <==>
        Aliased(schema, virtuals, tags[..|tags| - 1], q, x) ||
        (Real(schema, virtuals, last) && last.name == x && (q == LabelOf(last) || q == last.name))
  {
    assert tags == tags[..|tags| - 1] + [tags[|tags| - 1]];
  }

  lemma ReferencedSnoc(schema: Schema, virtuals: set<string>, tags: seq<Tag>, x: string)
    requires |tags| != 0
    ensures var last := tags[|tags| - 1];
      Referenced(schema, virtuals, tags, x) <==>
        Referenced(schema, virtuals, tags[..|tags| - 1], x) ||
        (Real(schema, virtuals, last) && x == schema.Table(last.name).value.QualifiedName())
  {
    assert tags == tags[..|tags| - 1] + [tags[|tags| - 1]];
  }

  lemma {:induction false} ScanTablesAre(c: Config, schema: Schema, virtuals: set<string>, tags: seq<Tag>)
    ensures AliasesAre(schema, virtuals, tags, ScanTables(c, schema, virtuals, tags).aliases)
    ensures TablesAre(schema, virtuals, tags, ScanTables(c, schema, virtuals, tags).tables)
  {
    if |tags| != 0 {
      var before, last := tags[..|tags| - 1], tags[|tags| - 1];
      var scan := ScanTables(c, schema, virtuals, before);
      ScanTablesAre(c, schema, virtuals, before);
      forall q, x
        ensures var last := tags[|tags| - 1];
          Aliased(schema, virtuals, tags, q, x) <==>
            Aliased(schema, virtuals, before, q, x) ||
            (Real(schema, virtuals, last) && last.name == x && (q == LabelOf(last) || q == last.name))
      {
        AliasedSnoc(schema, virtuals, tags, q, x);
      }
      forall x
        ensures Referenced(schema, virtuals, tags, x) <==>
          Referenced(schema, virtuals, before, x) ||
          (Real(schema, virtuals, last) && x == schema.Table(last.name).value.QualifiedName())
      {
        ReferencedSnoc(schema, virtuals, tags, x);
      }
      if Real(schema, virtuals, last) {
        DenoteAdds(scan.aliases, LabelOf(last), last.name);
        DenoteAdds(Denote(scan.aliases, LabelOf(last), last.name), last.name, last.name);
        var qualified := schema.Table(last.name).value.QualifiedName();
        InsertSorted(scan.tables, qualified);
        forall x
          ensures x in Insert(scan.tables, qualified) <==> x in scan.tables || x == qualified
        {
          InsertMember(scan.tables, qualified, x);
        }
      }
    }
  }

  lemma {:induction false} SameTables(c: Config, schema: Schema, virtuals: set<string>, a: seq<Tag>, b: seq<Tag>)
    requires forall tag: Tag :: tag.TableTag? ==> (tag in a <==> tag in b)
    ensures ScanTables(c, schema, virtuals, a).aliases == ScanTables(c, schema, virtuals, b).aliases
    ensures ScanTables(c, schema, virtuals, a).tables == ScanTables(c, schema, virtuals, b).tables
  {
    ScanTablesAre(c, schema, virtuals, a);
    ScanTablesAre(c, schema, virtuals, b);
    var x, y := ScanTables(c, schema, virtuals, a), ScanTables(c, schema, virtuals, b);
    assert forall q, n :: Aliased(schema, virtuals, a, q, n) <==> Aliased(schema, virtuals, b, q, n);
    assert forall n :: Referenced(schema, virtuals, a, n) <==> Referenced(schema, virtuals, b, n);
    SortedSame(x.tables, y.tables);
    SameAliases(x.aliases, y.aliases);
  }

  lemma SameAliases(a: map<string, seq<string>>, b: map<string, seq<string>>)
    requires forall q :: q in a ==> Sorted(a[q]) && |a[q]| != 0
    requires forall q :: q in b ==> Sorted(b[q]) && |b[q]| != 0
    requires forall q, x :: (q in a && x in a[q]) <==> (q in b && x in b[q])
    ensures a == b
  {
    forall q
      ensures q in a <==> q in b
      ensures q in a && q in b ==> a[q] == b[q]
    {
      if q in a {
        assert a[q][0] in a[q];
      }
      if q in b {
        assert b[q][0] in b[q];
      }
      if q in a && q in b {
        SortedSame(a[q], b[q]);
      }
    }
  }

  // ----- which references the column scan records -----

  /** The references one column node contributes. */
  function Contribution(schema: Schema, names: Names, tag: Tag): seq<string> {
    ScanColumn(schema, names, ColumnScan([], []), tag).columns
  }

  lemma ScanColumnAdds(schema: Schema, names: Names, scan: ColumnScan, tag: Tag, x: string)
    ensures x in ScanColumn(schema, names, scan, tag).columns <==>
      x in scan.columns || x in Contribution(schema, names, tag)
  {
    if tag.ColumnTag? {
      var owners := Owners(names.infos, tag.name);
      if |owners| != 0 {
        InsertAllAdds(scan.columns, [owners[0]], tag.name, x);
        InsertAllAdds([], [owners[0]], tag.name, x);
      }
      if tag.qualifier in names.aliases {
        var mine := Owners(Known(schema, names.aliases[tag.qualifier]), tag.name);
        InsertAllAdds(scan.columns, mine, tag.name, x);
        InsertAllAdds([], mine, tag.name, x);
      }
    }
  }

  lemma {:induction false} ScanColumnsAre(schema: Schema, names: Names, tags: seq<Tag>, x: string)
    ensures x in ScanColumns(schema, names, tags).columns <==>
      exists tag :: tag in tags && x in Contribution(schema, names, tag)
  {
    if |tags| != 0 {
      var before, last := tags[..|tags| - 1], tags[|tags| - 1];
      ScanColumnsAre(schema, names, before, x);
      ScanColumnAdds(schema, names, ScanColumns(schema, names, before), last, x);
      assert tags == before + [last];
    }
  }

  // ----- the tags of a rewritten statement -----

  /** A node the rewrite adds for some table occurrence. */
  ghost predicate IsAdded(t: Tenancy, s: Statement, tag: Tag) {
    || tag == AndTag || tag == EqualsTag || tag == LiteralTag(t.tenant)
    || exists table: Tag :: table in Tags(s) && table.TableTag? && AddsColumn(t, table, tag)
  }

  ghost predicate AddsColumn(t: Tenancy, table: Tag, tag: Tag)
    requires table.TableTag?
  {
    && TenantColumn(t, SourceOf(table)).Some?
    && tag == ColumnTag(SourceOf(table).Label(), TenantColumn(t, SourceOf(table)).value)
  }

  /** Tags other than the added kinds are untouched. */
  lemma {:induction false} OtherTagsKept(t: Tenancy, s: Statement, tag: Tag)
    requires Shaped(s)
    requires !Addable(tag)
    ensures tag in Tags(RewriteTree(t, s)) <==> tag in Tags(s)
  {
    assert AcceptsAdded(Isnt(tag));
    AcceptsWelcome(t, s, Isnt(tag));
    RewriteEverywhere(t, s, Isnt(tag));
    TagsHave(s, tag);
    TagsHave(RewriteTree(t, s), tag);
  }

  ghost function OldOrAdded(t: Tenancy, s: Statement): NodeTest {
    (x: Tag, commented: bool) => x in Tags(s) || IsAdded(t, s, x)
  }

  lemma OldOrAddedMeets(t: Tenancy, s: Statement, table: Tag)
    requires table in Tags(s) && table.TableTag? && TenantColumn(t, SourceOf(table)).Some?
    ensures OldOrAdded(t, s)(ColumnTag(SourceOf(table).Label(), TenantColumn(t, SourceOf(table)).value), false)
  {
    assert AddsColumn(t, table, ColumnTag(SourceOf(table).Label(), TenantColumn(t, SourceOf(table)).value));
  }

  lemma JointsMeet(t: Tenancy, s: Statement)
    ensures var p := OldOrAdded(t, s);
      p(AndTag, false) && p(EqualsTag, false) && p(LiteralTag(t.tenant), false)
  {
  }

  lemma OldOrAddedTable(t: Tenancy, s: Statement, table: Tag)
    requires table in Tags(s) && table.TableTag?
    ensures TableWelcome(t, table, OldOrAdded(t, s))
  {
    JointsMeet(t, s);
    if TenantColumn(t, SourceOf(table)).Some? {
      OldOrAddedMeets(t, s, table);
    }
    AddedMeets(t, table, OldOrAdded(t, s));
  }

  lemma OldOrAddedWelcome(t: Tenancy, s: Statement)
    ensures Welcome(t, s, OldOrAdded(t, s))
  {
    JointsMeet(t, s);
    forall table: Tag | table.TableTag? && !Everywhere(s, Isnt(table))
      ensures TableWelcome(t, table, OldOrAdded(t, s))
    {
      TagsHave(s, table);
      OldOrAddedTable(t, s, table);
    }
  }

  lemma {:induction false} OldEverywhere(t: Tenancy, s: Statement)
    ensures Everywhere(s, OldOrAdded(t, s))
  {
    forall v | v in Nodes(s)
      ensures OldOrAdded(t, s)(v.tree.tag, v.tree.commented)
    {
      var i :| 0 <= i < |Nodes(s)| && Nodes(s)[i] == v;
      assert Tags(s)[i] == v.tree.tag;
    }
    EverywhereWalked(s, OldOrAdded(t, s));
  }

  lemma {:induction false} EverywhereTags(s: Statement, p: NodeTest, tag: Tag)
    requires Everywhere(s, p) && tag in Tags(s)
    ensures p(tag, false) || p(tag, true)
  {
    EverywhereWalked(s, p);
    var i :| 0 <= i < |Tags(s)| && Tags(s)[i] == tag;
    assert Nodes(s)[i] in Nodes(s);
  }

  /** Every node of the result is an original one or an added one. */
  lemma {:induction false} OldTagsKept(t: Tenancy, s: Statement, tag: Tag)
    requires Shaped(s) && tag in Tags(RewriteTree(t, s))
    ensures tag in Tags(s) || IsAdded(t, s, tag)
  {
    var p := OldOrAdded(t, s);
    OldOrAddedWelcome(t, s);
    OldEverywhere(t, s);
    RewriteEverywhere(t, s, p);
    EverywhereTags(RewriteTree(t, s), p, tag);
    assert p(tag, false) == (tag in Tags(s) || IsAdded(t, s, tag)) == p(tag, true);
  }

  /** Every node of the original is still there. */
  lemma {:induction false} OldTagsStay(t: Tenancy, s: Statement, tag: Tag)
    requires Shaped(s) && tag in Tags(s)
    ensures tag in Tags(RewriteTree(t, s))
  {
    TagsHave(s, tag);
    TagsHave(RewriteTree(t, s), tag);
    if Everywhere(RewriteTree(t, s), Isnt(tag)) {
      StaysEverywhere(t, s, Isnt(tag));
    }
  }

  lemma {:induction false} StaysAttach(holder: Statement, e: Expr, p: NodeTest)
    requires |holder.kids| <= 1 && Everywhere(Attach(holder, EncodeExpr(e), ()), p)
    ensures Everywhere(holder, p) && |Attach(holder, EncodeExpr(e), ()).kids| == 1
  {
    var grown := Attach(holder, EncodeExpr(e), ());
    if |holder.kids| != 0 {
      assert Everywhere(grown.kids[0], p);
      assert grown.kids[0].kids[0] == holder.kids[0];
    }
  }

  lemma {:induction false} StaysAttachAll(holder: Statement, es: seq<Expr>, p: NodeTest)
    requires |holder.kids| <= 1 && Everywhere(AttachAll(holder, es), p)
    ensures Everywhere(holder, p)
    decreases |es|
  {
    if |es| != 0 {
      var grown := Attach(holder, EncodeExpr(es[0]), ());
      assert |grown.kids| == 1;
      StaysAttachAll(grown, es[1..], p);
      StaysAttach(holder, es[0], p);
    }
  }

  lemma {:induction false} StaysEverywhere(t: Tenancy, s: Statement, p: NodeTest)
    requires Shaped(s) && Everywhere(RewriteTree(t, s), p)
    ensures Everywhere(s, p)
  {
    var kids := RewriteTrees(t, s.kids);
    var done := RewriteTree(t, s).kids;
    assert |done| == |s.kids|;
    forall i | 0 <= i < |s.kids|
      ensures Everywhere(s.kids[i], p)
    {
      assert Everywhere(done[i], p);
      if s.tag.SelectTag? && i == 0 {
        RewriteKeepsShape(t, s.kids[0]);
        StaysAttachAll(kids[0], AllPredicates(t, Scan(s.kids)), p);
      }
      StaysEverywhere(t, s.kids[i], p);
    }
  }

  // ----- names are resolved the same way -----

  /** Rewriting changes nothing about which names mean what. */
  lemma {:induction false} RewriteKeepsNames(c: Config, t: Tenancy, s: Statement)
    requires Shaped(s)
    ensures Virtuals(Tags(RewriteTree(t, s))) == Virtuals(Tags(s))
    ensures NamesOf(c, t.schema, Tags(RewriteTree(t, s))) == NamesOf(c, t.schema, Tags(s))
    ensures ReferencedTables(c, t.schema, RewriteTree(t, s)) == ReferencedTables(c, t.schema, s)
  {
    var before, after := Tags(s), Tags(RewriteTree(t, s));
    forall tag: Tag | tag.CteTag? || tag.SubqueryTag? || tag.AliasTag? || tag.TableTag?
      ensures tag in after <==> tag in before
    {
      OtherTagsKept(t, s, tag);
    }
    assert VirtualAliases(after) == VirtualAliases(before);
    assert DerivedAliases(after) == DerivedAliases(before);
    assert OutputAliases(after) == OutputAliases(before);
    SameTables(c, t.schema, Virtuals(before), after, before);
  }

  // ----- the results -----

  /** What enrichment guarantees: a tenant column is a column of its table. */
  ghost predicate TenantColumnsExist(schema: Schema) {
    forall info :: info in schema.tables && info.tenantColumn.Some? ==> info.HasColumn(info.tenantColumn.value)
  }

  ghost function Harmless(c: Config): NodeTest {
    (tag: Tag, commented: bool) =>
      !tag.ForbiddenTag? && !commented && !(tag.FunctionTag? && tag.name in c.denylist)
  }

  lemma {:induction false} NodesAllowed(c: Config, s: Statement)
    ensures (forall v :: v in Nodes(s) ==> NodeAllowed(c, v)) <==> Everywhere(s, Harmless(c)) && StarFree(s)
  {
    EverywhereWalked(s, Harmless(c));
    StarFreeNodes(s);
  }

  lemma HarmlessWelcome(c: Config, t: Tenancy, s: Statement)
    ensures Welcome(t, s, Harmless(c))
  {
    assert AcceptsAdded(Harmless(c));
    AcceptsWelcome(t, s, Harmless(c));
  }

  lemma {:induction false} NodesStayAllowed(c: Config, t: Tenancy, s: Statement)
    requires Shaped(s) && forall v :: v in Nodes(s) ==> NodeAllowed(c, v)
    ensures forall v :: v in Nodes(RewriteTree(t, s)) ==> NodeAllowed(c, v)
  {
    NodesAllowed(c, s);
    HarmlessWelcome(c, t, s);
    RewriteEverywhere(t, s, Harmless(c));
    RewriteStarFree(t, s);
    NodesAllowed(c, RewriteTree(t, s));
  }

  /** References of the original stay; the tables stay the same. */
  lemma {:induction false} RewriteKeepsReferences(c: Config, t: Tenancy, s: Statement, x: string)
    requires Shaped(s)
    ensures ReferencedTables(c, t.schema, RewriteTree(t, s)) == ReferencedTables(c, t.schema, s)
    ensures x in ReferencedColumns(c, t.schema, s) ==> x in ReferencedColumns(c, t.schema, RewriteTree(t, s))
  {
    var names := NamesOf(c, t.schema, Tags(s));
    RewriteKeepsNames(c, t, s);
    ScanColumnsAre(t.schema, names, Tags(s), x);
    ScanColumnsAre(t.schema, names, Tags(RewriteTree(t, s)), x);
    if x in ReferencedColumns(c, t.schema, s) {
      var tag :| tag in Tags(s) && x in Contribution(t.schema, names, tag);
      OldTagsStay(t, s, tag);
    }
  }

  /** The one way a new reference can appear: as the tenant column of a table occurrence. */
  ghost predicate FromTenantColumn(c: Config, t: Tenancy, s: Statement, x: string) {
    exists table: Tag, tag: Tag :: table in Tags(s) && table.TableTag? && AddsColumn(t, table, tag) &&
      x in Contribution(t.schema, NamesOf(c, t.schema, Tags(s)), tag)
  }

  lemma {:induction false} RewriteAddsOnlyTenantColumns(c: Config, t: Tenancy, s: Statement, x: string)
    requires Shaped(s) && x in ReferencedColumns(c, t.schema, RewriteTree(t, s))
    ensures x in ReferencedColumns(c, t.schema, s) || FromTenantColumn(c, t, s, x)
  {
    var names := NamesOf(c, t.schema, Tags(s));
    RewriteKeepsNames(c, t, s);
    ScanColumnsAre(t.schema, names, Tags(s), x);
    ScanColumnsAre(t.schema, names, Tags(RewriteTree(t, s)), x);
    var tag :| tag in Tags(RewriteTree(t, s)) && x in Contribution(t.schema, names, tag);
    OldTagsKept(t, s, tag);
    assert tag.ColumnTag?;
    if tag !in Tags(s) {
      AddedColumnGives(c, t, s, x, tag);
    }
  }

  lemma AddedColumnGives(c: Config, t: Tenancy, s: Statement, x: string, tag: Tag)
    requires tag.ColumnTag? && IsAdded(t, s, tag) && x in Contribution(t.schema, NamesOf(c, t.schema, Tags(s)), tag)
    ensures FromTenantColumn(c, t, s, x)
  {
    var table: Tag :| table in Tags(s) && table.TableTag? && AddsColumn(t, table, tag);
    assert x in Contribution(t.schema, NamesOf(c, t.schema, Tags(s)), tag);
  }
}
