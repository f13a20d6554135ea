/** Exactly when the statement a rewrite leaves is still valid. */
module Misreading {
  import opened Collections
  import opened Schemas
  import opened Syntax
  import opened StatementTree
  import opened Encoding
  import opened ValidatorSpec
  import opened TenantRewrite
  import opened TreeRewrite
  import opened Placement
  import opened TreeFacts
  import opened Coverage
  import opened Revalidation

  // ----- exactly which nodes a rewrite adds -----

  /** The nodes of the predicates added anywhere in the statement. */
  ghost predicate AddedMeet(t: Tenancy, s: Statement, p: NodeTest) {
    && (s.tag.SelectTag? ==> AllMeet(AllPredicates(t, Scan(s.kids)), p))
    && forall i :: 0 <= i < |s.kids| ==> AddedMeet(t, s.kids[i], p)
  }

  ghost predicate AllMeet(es: seq<Expr>, p: NodeTest) {
    forall e :: e in es ==> Everywhere(EncodeExpr(e), p)
  }

  lemma {:induction false} AttachMeets(p: NodeTest, holder: Statement, e: Expr)
    requires |holder.kids| <= 1 && p(AndTag, false)
    ensures var grown := Attach(holder, EncodeExpr(e), ());
      |grown.kids| == 1 && (Everywhere(grown, p) <==> Everywhere(holder, p) && Everywhere(EncodeExpr(e), p))
  {
    EverywhereOne(Attach(holder, EncodeExpr(e), ()), p);
    if |holder.kids| != 0 {
      EverywhereOne(holder, p);
      EverywhereTwo(Node((), AndTag, false, [holder.kids[0], EncodeExpr(e)]), p);
    }
  }

  lemma {:induction false} AttachAllMeet(p: NodeTest, holder: Statement, es: seq<Expr>)
    requires |holder.kids| <= 1 && p(AndTag, false)
    ensures Everywhere(AttachAll(holder, es), p) <==> Everywhere(holder, p) && AllMeet(es, p)
    decreases |es|
  {
    if |es| != 0 {
      AttachMeets(p, holder, es[0]);
      AttachAllMeet(p, Attach(holder, EncodeExpr(es[0]), ()), es[1..]);
      assert es == [es[0]] + es[1..];
    }
  }

  /** A property holds everywhere after the rewrite exactly if it did before and holds of what is added. */
  lemma {:induction false} RewriteMeetsExactly(t: Tenancy, s: Statement, p: NodeTest)
    requires Shaped(s) && p(AndTag, false)
    ensures Everywhere(RewriteTree(t, s), p) <==> Everywhere(s, p) && AddedMeet(t, s, p)
  {
    var kids, done := RewriteTrees(t, s.kids), RewriteTree(t, s);
    forall i | 0 <= i < |s.kids|
      ensures Everywhere(kids[i], p) <==> Everywhere(s.kids[i], p) && AddedMeet(t, s.kids[i], p)
    {
      RewriteMeetsExactly(t, s.kids[i], p);
    }
    if s.tag.SelectTag? {
      var ps := AllPredicates(t, Scan(s.kids));
      RewriteKeepsShape(t, s.kids[0]);
      AttachAllMeet(p, kids[0], ps);
      assert done.kids == kids[0 := AttachAll(kids[0], ps)];
      KidsMeet(s, done, kids, p);
    } else {
      assert done == s.(kids := kids);
    }
  }

  lemma {:induction false} KidsMeet(s: Statement, done: Statement, kids: seq<Statement>, p: NodeTest)
    requires |kids| == |s.kids| == |done.kids| && |kids| != 0 && done.tag == s.tag && done.commented == s.commented
    requires forall i :: 0 < i < |kids| ==> done.kids[i] == kids[i]
    ensures Everywhere(done, p) <==>
      p(s.tag, s.commented) && Everywhere(done.kids[0], p) && forall i :: 0 < i < |kids| ==> Everywhere(kids[i], p)
  {
  }

  /** The SELECT `n` is in the statement and owns an occurrence of the tenant table. */
  ghost predicate OwnsTenant(t: Tenancy, s: Statement, n: Statement, table: Tag) {
    && Has(s, n) && n.tag.SelectTag? && table in Scan(n.kids)
    && table.TableTag? && TenantColumn(t, SourceOf(table)).Some?
  }

  /** The column the rewrite adds for the occurrence. */
  function AddedColumn(t: Tenancy, table: Tag): Tag
    requires table.TableTag? && TenantColumn(t, SourceOf(table)).Some?
  {
    ColumnTag(SourceOf(table).Label(), TenantColumn(t, SourceOf(table)).value)
  }

  /** A property that only columns can lack. */
  ghost predicate OfColumns(p: NodeTest) {
    forall tag: Tag, commented: bool :: !tag.ColumnTag? ==> p(tag, commented)
  }

  lemma {:induction false} PredicateMeets(t: Tenancy, table: Tag, p: NodeTest)
    requires table.TableTag? && OfColumns(p)
    ensures AllMeet(TagPredicates(t, table), p)
       <==> (TenantColumn(t, SourceOf(table)).Some? ==> p(AddedColumn(t, table), false))
  {
    if TenantColumn(t, SourceOf(table)).Some? {
      var e := TagPredicates(t, table)[0];
      PlainKids(e);
      EverywhereTwo(EncodeExpr(e), p);
      assert e in TagPredicates(t, table);
    }
  }

  lemma {:induction false} PredicatesMeet(t: Tenancy, tags: seq<Tag>, p: NodeTest)
    requires OfColumns(p) && forall table :: table in tags ==> table.TableTag?
    ensures AllMeet(AllPredicates(t, tags), p) <==>
      forall table: Tag :: table in tags && table.TableTag? && TenantColumn(t, SourceOf(table)).Some? ==>
        p(AddedColumn(t, table), false)
  {
    if |tags| != 0 {
      assert tags == [tags[0]] + tags[1..];
      PredicateMeets(t, tags[0], p);
      PredicatesMeet(t, tags[1..], p);
      AppendMeets(TagPredicates(t, tags[0]), AllPredicates(t, tags[1..]), p);
    }
  }

  lemma AppendMeets(a: seq<Expr>, b: seq<Expr>, p: NodeTest)
    ensures AllMeet(a + b, p) <==> AllMeet(a, p) && AllMeet(b, p)
  {
    if AllMeet(a + b, p) {
      assert forall e :: e in a ==> e in a + b;
      assert forall e :: e in b ==> e in a + b;
    }
  }

  lemma {:induction false} ScanHasTables(queue: seq<Statement>)
    ensures forall table :: table in Scan(queue) ==> table.TableTag?
  {
    forall table | table in Scan(queue)
      ensures table.TableTag?
    {
      ScanOccurs(queue, table);
    }
  }

  ghost predicate OwnedMeet(t: Tenancy, s: Statement, p: NodeTest) {
    forall n: Statement, table: Tag :: OwnsTenant(t, s, n, table) ==> p(AddedColumn(t, table), false)
  }

  ghost predicate OwnTablesMeet(t: Tenancy, s: Statement, p: NodeTest) {
    forall table: Tag :: table in Scan(s.kids) && table.TableTag? && TenantColumn(t, SourceOf(table)).Some? ==>
      p(AddedColumn(t, table), false)
  }

  lemma {:induction false} OwnedMeetStep(t: Tenancy, s: Statement, p: NodeTest)
    ensures OwnedMeet(t, s, p) <==>
      (s.tag.SelectTag? ==> OwnTablesMeet(t, s, p)) && forall i :: 0 <= i < |s.kids| ==> OwnedMeet(t, s.kids[i], p)
  {
    if OwnedMeet(t, s, p) {
      forall table: Tag | s.tag.SelectTag? && table in Scan(s.kids) && table.TableTag? &&
                          TenantColumn(t, SourceOf(table)).Some?
        ensures p(AddedColumn(t, table), false)
      {
        assert OwnsTenant(t, s, s, table);
      }
      forall i, n: Statement, table: Tag | 0 <= i < |s.kids| && OwnsTenant(t, s.kids[i], n, table)
        ensures p(AddedColumn(t, table), false)
      {
        assert OwnsTenant(t, s, n, table);
      }
    }
    if (s.tag.SelectTag? ==> OwnTablesMeet(t, s, p)) && forall i :: 0 <= i < |s.kids| ==> OwnedMeet(t, s.kids[i], p) {
      forall n: Statement, table: Tag | OwnsTenant(t, s, n, table)
        ensures p(AddedColumn(t, table), false)
      {
        if n != s {
          var i :| 0 <= i < |s.kids| && Has(s.kids[i], n);
          assert OwnsTenant(t, s.kids[i], n, table);
        }
      }
    }
  }

  /** What the rewrite adds meets the property exactly if the column added for each owned occurrence does. */
  lemma {:induction false} AddedMeetExactly(t: Tenancy, s: Statement, p: NodeTest)
    requires OfColumns(p)
    ensures AddedMeet(t, s, p) <==> OwnedMeet(t, s, p)
  {
    forall i | 0 <= i < |s.kids|
      ensures AddedMeet(t, s.kids[i], p) <==> OwnedMeet(t, s.kids[i], p)
    {
      AddedMeetExactly(t, s.kids[i], p);
    }
    ScanHasTables(s.kids);
    PredicatesMeet(t, Scan(s.kids), p);
    OwnedMeetStep(t, s, p);
  }

  // ----- exactly when a qualified column is known -----

  /** A considered occurrence of a catalog table that the qualifier denotes. */
  ghost predicate KnownAs(schema: Schema, tags: seq<Tag>, qualifier: string, tag: Tag) {
    tag in tags && Real(schema, Virtuals(tags), tag) && (qualifier == LabelOf(tag) || qualifier == tag.name)
  }

  ghost predicate SomeKnownAs(schema: Schema, tags: seq<Tag>, qualifier: string) {
    exists tag :: KnownAs(schema, tags, qualifier, tag)
  }

  ghost predicate SomeHas(schema: Schema, tags: seq<Tag>, qualifier: string, column: string) {
    exists tag :: KnownAs(schema, tags, qualifier, tag) && schema.Table(tag.name).value.HasColumn(column)
  }

  lemma {:induction false} SomeHasKnown(c: Config, schema: Schema, tags: seq<Tag>, qualifier: string, column: string)
    requires qualifier in NamesOf(c, schema, tags).aliases
    ensures SomeHas(schema, tags, qualifier, column) <==>
      exists info :: info in Known(schema, NamesOf(c, schema, tags).aliases[qualifier]) && info.HasColumn(column)
  {
    var candidates := NamesOf(c, schema, tags).aliases[qualifier];
    ScanTablesAre(c, schema, Virtuals(tags), tags);
    if SomeHas(schema, tags, qualifier, column) {
      var tag :| KnownAs(schema, tags, qualifier, tag) && schema.Table(tag.name).value.HasColumn(column);
      assert Aliased(schema, Virtuals(tags), tags, qualifier, tag.name);
      KnownMember(schema, candidates, schema.Table(tag.name).value);
    }
    if info :| info in Known(schema, candidates) && info.HasColumn(column) {
      KnownMember(schema, candidates, info);
      var name :| name in candidates && schema.Table(name) == Some(info);
      assert Aliased(schema, Virtuals(tags), tags, qualifier, name);
      var tag :| tag in tags && Real(schema, Virtuals(tags), tag) && tag.name == name
              && (qualifier == LabelOf(tag) || qualifier == tag.name);
      assert KnownAs(schema, tags, qualifier, tag);
    }
  }

  lemma {:induction false} SomeKnownAlias(c: Config, schema: Schema, tags: seq<Tag>, qualifier: string)
    ensures var aliases := NamesOf(c, schema, tags).aliases;
      && (SomeKnownAs(schema, tags, qualifier) <==> qualifier in aliases)
      && (qualifier in aliases ==> |aliases[qualifier]| != 0)
  {
    var aliases := NamesOf(c, schema, tags).aliases;
    ScanTablesAre(c, schema, Virtuals(tags), tags);
    if qualifier in aliases {
      assert aliases[qualifier][0] in aliases[qualifier];
      assert Aliased(schema, Virtuals(tags), tags, qualifier, aliases[qualifier][0]);
      var tag :| tag in tags && Real(schema, Virtuals(tags), tag) && tag.name == aliases[qualifier][0]
              && (qualifier == LabelOf(tag) || qualifier == tag.name);
      assert KnownAs(schema, tags, qualifier, tag);
    }
    if tag :| KnownAs(schema, tags, qualifier, tag) {
      assert Aliased(schema, Virtuals(tags), tags, qualifier, tag.name);
    }
  }

  /** A qualified column is unknown exactly when its qualifier denotes catalog tables only and none of them has
      such a column. */
  lemma {:induction false} QualifiedKnownExactly(c: Config, schema: Schema, tags: seq<Tag>, qualifier: string,
                                                 column: string)
    requires qualifier != "" && column != ""
    ensures ColumnKnown(schema, NamesOf(c, schema, tags), ColumnTag(qualifier, column)) <==>
      || column == "*" || qualifier in Virtuals(tags) || !SomeKnownAs(schema, tags, qualifier)
      || SomeHas(schema, tags, qualifier, column)
  {
    SomeKnownAlias(c, schema, tags, qualifier);
    if qualifier in NamesOf(c, schema, tags).aliases {
      SomeHasKnown(c, schema, tags, qualifier, column);
    }
  }

  // ----- exactly when the rewritten statement is valid -----

  /** The validator takes the label of the occurrence for other tables: a CTE or derived table bears the name
      of the occurrence, none bears its label, and the catalog tables with that label or name elsewhere in the
      statement lack the tenant column. */
  ghost predicate Misread(t: Tenancy, tags: seq<Tag>, table: Tag)
    requires table.TableTag? && TenantColumn(t, SourceOf(table)).Some?
  {
    var added := AddedColumn(t, table);
    && table.name in Virtuals(tags) && added.qualifier !in Virtuals(tags) && added.name != "*"
    && SomeKnownAs(t.schema, tags, added.qualifier) && !SomeHas(t.schema, tags, added.qualifier, added.name)
  }

  ghost predicate NothingMisread(t: Tenancy, s: Statement) {
    forall n: Statement, table: Tag :: OwnsTenant(t, s, n, table) ==> !Misread(t, Tags(s), table)
  }

  lemma {:induction false} AddedKnownExactly(c: Config, t: Tenancy, tags: seq<Tag>, table: Tag)
    requires TenantColumnsExist(t.schema) && table in tags && table.TableTag? && table.name != ""
    requires TenantColumn(t, SourceOf(table)).Some?
    ensures ColumnKnown(t.schema, NamesOf(c, t.schema, tags), AddedColumn(t, table)) <==> !Misread(t, tags, table)
  {
    var added := AddedColumn(t, table);
    QualifiedKnownExactly(c, t.schema, tags, added.qualifier, added.name);
    if table.name !in Virtuals(tags) {
      TableMember(t.schema, table.name);
      assert KnownAs(t.schema, tags, added.qualifier, table);
    }
  }

  ghost function KnownColumns(schema: Schema, names: Names): NodeTest {
    (tag: Tag, commented: bool) => tag.ColumnTag? ==> ColumnKnown(schema, names, tag)
  }

  lemma {:induction false} KnownEverywhere(schema: Schema, names: Names, s: Statement)
    ensures Everywhere(s, KnownColumns(schema, names)) <==>
      forall tag :: tag in Tags(s) && tag.ColumnTag? ==> ColumnKnown(schema, names, tag)
  {
    EverywhereWalked(s, KnownColumns(schema, names));
    if Everywhere(s, KnownColumns(schema, names)) {
      forall tag | tag in Tags(s) && tag.ColumnTag?
        ensures ColumnKnown(schema, names, tag)
      {
        EverywhereTags(s, KnownColumns(schema, names), tag);
      }
    }
    if forall tag :: tag in Tags(s) && tag.ColumnTag? ==> ColumnKnown(schema, names, tag) {
      forall v | v in Nodes(s)
        ensures KnownColumns(schema, names)(v.tree.tag, v.tree.commented)
      {
        var i :| 0 <= i < |Nodes(s)| && Nodes(s)[i] == v;
        assert Tags(s)[i] == v.tree.tag;
      }
    }
  }

  lemma {:induction false} OwnedIsThere(s: Statement, n: Statement, table: Tag)
    requires Has(s, n) && table in Scan(n.kids)
    ensures table in Tags(s)
  {
    ScanOccurs(n.kids, table);
    var k :| k in n.kids && !Everywhere(k, Isnt(table));
    KidNotEverywhere(n, k, Isnt(table));
    NotEverywhereUp(s, n, Isnt(table));
    TagsHave(s, table);
  }

  lemma {:induction false} NotEverywhereUp(s: Statement, n: Statement, p: NodeTest)
    requires Has(s, n) && !Everywhere(n, p)
    ensures !Everywhere(s, p)
  {
    if s != n {
      var i :| 0 <= i < |s.kids| && Has(s.kids[i], n);
      NotEverywhereUp(s.kids[i], n, p);
    }
  }

  /** A valid statement is still valid after the rewrite exactly if the validator misreads the label of none of
      the tenant tables its SELECTs own. */
  lemma {:induction false} RewriteStaysCleanExactly(c: Config, t: Tenancy, s: Statement)
    requires Shaped(s) && Clean(c, t.schema, s) && TenantColumnsExist(t.schema) && TablesNamed(Tags(s))
    ensures Clean(c, t.schema, RewriteTree(t, s)) <==> NothingMisread(t, s)
  {
    var names := NamesOf(c, t.schema, Tags(s));
    var known := KnownColumns(t.schema, names);
    RewriteKeepsNames(c, t, s);
    RewriteKeepsShape(t, s);
    NodesStayAllowed(c, t, s);
    TablesStayAllowed(c, t, s);
    KnownEverywhere(t.schema, names, s);
    KnownEverywhere(t.schema, names, RewriteTree(t, s));
    RewriteMeetsExactly(t, s, known);
    AddedMeetExactly(t, s, known);
    forall n: Statement, table: Tag | OwnsTenant(t, s, n, table)
      ensures known(AddedColumn(t, table), false) <==> !Misread(t, Tags(s), table)
    {
      OwnedIsThere(s, n, table);
      AddedKnownExactly(c, t, Tags(s), table);
    }
  }

  lemma {:induction false} TablesStayAllowed(c: Config, t: Tenancy, s: Statement)
    requires Shaped(s) && Clean(c, t.schema, s)
    ensures var tags := Tags(RewriteTree(t, s));
      forall tag :: tag in tags && Considered(tag, Virtuals(tags)) ==> TableAllowed(c, t.schema, tag)
  {
    var tags := Tags(RewriteTree(t, s));
    RewriteKeepsNames(c, t, s);
    forall tag | tag in tags && Considered(tag, Virtuals(tags))
      ensures TableAllowed(c, t.schema, tag)
    {
      OtherTagsKept(t, s, tag);
    }
  }

  /** Nothing is misread where no CTE or derived table has the name of a catalog table, ... */
  lemma {:induction false} ProperNotMisread(t: Tenancy, s: Statement)
    requires forall name :: name in Virtuals(Tags(s)) ==> t.schema.Table(name).None?
    ensures NothingMisread(t, s)
  {
  }

  /** ... so there every valid statement is still valid after the rewrite. */
  lemma {:induction false} RewriteStaysClean(c: Config, t: Tenancy, s: Statement)
    requires Shaped(s) && Clean(c, t.schema, s) && TenantColumnsExist(t.schema) && TablesNamed(Tags(s))
    requires forall name :: name in Virtuals(Tags(s)) ==> t.schema.Table(name).None?
    ensures Clean(c, t.schema, RewriteTree(t, s))
  {
    ProperNotMisread(t, s);
    RewriteStaysCleanExactly(c, t, s);
  }
}
