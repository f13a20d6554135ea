/** Limiting a statement changes nothing validation looks at. */
module LimitFacts {
  import opened Collections
  import opened Schemas
  import opened Syntax
  import opened StatementTree
  import opened ValidatorSpec
  import opened Limits

  // ----- walks of similar statements -----

  ghost predicate SimilarVisits(a: seq<Visit<()>>, b: seq<Visit<()>>) {
    && |a| == |b|
    && forall i :: 0 <= i < |a| ==> a[i].tree == b[i].tree && UnderFunction(a[i].above) == UnderFunction(b[i].above)
  }

  lemma UnderFunctionBelow(above: seq<Step<()>>, step: Step<()>)
    ensures UnderFunction(above + [step]) <==> UnderFunction(above) || step.tag.FunctionTag?
  {
    var longer := above + [step];
    if UnderFunction(above) {
      var i :| 0 <= i < |above| && above[i].tag.FunctionTag?;
      assert longer[i].tag.FunctionTag?;
    }
    if step.tag.FunctionTag? {
      assert longer[|above|].tag.FunctionTag?;
    }
  }

  lemma SimilarKids(a: Visit<()>, b: Visit<()>)
    requires a.tree.kids == b.tree.kids && UnderFunction(a.above) == UnderFunction(b.above)
    requires a.tree.tag.FunctionTag? == b.tree.tag.FunctionTag?
    ensures SimilarVisits(KidVisits(a), KidVisits(b))
  {
    UnderFunctionBelow(a.above, Step(a.tree.mark, a.tree.tag));
    UnderFunctionBelow(b.above, Step(b.tree.mark, b.tree.tag));
  }

  lemma {:induction false} SimilarWalks(a: seq<Visit<()>>, b: seq<Visit<()>>)
    requires SimilarVisits(a, b)
    ensures SimilarVisits(Walk(a), Walk(b))
    decreases Weight(a)
  {
    if |a| != 0 {
      var kids, kids' := KidVisits(a[0]), KidVisits(b[0]);
      SimilarKids(a[0], b[0]);
      SimilarAppend(a[1..], kids, b[1..], kids');
      WeightDrops(a);
      SimilarWalks(a[1..] + kids, b[1..] + kids');
      SimilarAppend([a[0]], Walk(a[1..] + kids), [b[0]], Walk(b[1..] + kids'));
    }
  }

  lemma SimilarAppend(a: seq<Visit<()>>, more: seq<Visit<()>>, b: seq<Visit<()>>, more': seq<Visit<()>>)
    requires SimilarVisits(a, b) && SimilarVisits(more, more')
    ensures SimilarVisits(a + more, b + more')
  {
  }

  /** The same statement up to the limit at its root. */
  ghost predicate SameButLimit(s: Statement, t: Statement) {
    && LimitOf(s.tag).Some? && LimitOf(t.tag).Some?
    && s.commented == t.commented && s.kids == t.kids
    && WithLimit(s.tag, NoLimit) == WithLimit(t.tag, NoLimit)
  }

  lemma SimilarNodes(s: Statement, t: Statement)
    requires SameButLimit(s, t)
    ensures |Nodes(s)| == |Nodes(t)| && |Nodes(s)| != 0
    ensures Nodes(s)[0] == Visit(s, []) && Nodes(t)[0] == Visit(t, [])
    ensures SimilarVisits(Nodes(s)[1..], Nodes(t)[1..])
  {
    var v, w := Visit(s, []), Visit(t, []);
    assert [v][1..] + KidVisits(v) == KidVisits(v) && [w][1..] + KidVisits(w) == KidVisits(w);
    SimilarKids(v, w);
    SimilarWalks(KidVisits(v), KidVisits(w));
    assert Nodes(s) == [v] + Walk(KidVisits(v)) && Nodes(t) == [w] + Walk(KidVisits(w));
  }

  // ----- scans of similar node lists -----

  /** Equal but for query nodes that differ in their limit. */
  ghost predicate SimilarTags(a: seq<Tag>, b: seq<Tag>) {
    && |a| == |b|
    && forall i :: 0 <= i < |a| ==>
         || a[i] == b[i]
         || (LimitOf(a[i]).Some? && LimitOf(b[i]).Some? && WithLimit(a[i], NoLimit) == WithLimit(b[i], NoLimit))
  }

  lemma SimilarTagsOf(s: Statement, t: Statement)
    requires SameButLimit(s, t)
    ensures SimilarTags(Tags(s), Tags(t))
  {
    SimilarNodes(s, t);
    forall i | 0 <= i < |Tags(s)|
      ensures i > 0 ==> Tags(s)[i] == Tags(t)[i]
    {
      if i > 0 {
        assert Nodes(s)[1..][i - 1].tree == Nodes(t)[1..][i - 1].tree;
      }
    }
  }

  lemma VirtualsInclude(a: seq<Tag>, b: seq<Tag>)
    requires SimilarTags(a, b)
    ensures Virtuals(a) <= Virtuals(b) && OutputAliases(a) <= OutputAliases(b)
  {
    forall x | x in DerivedAliases(a)
      ensures x in DerivedAliases(b)
    {
      var tag :| tag in a && tag.SubqueryTag? && tag.alias == x;
      var i :| 0 <= i < |a| && a[i] == tag;
      assert b[i].SubqueryTag? && b[i].alias == x;
    }
    forall x | x in VirtualAliases(a)
      ensures x in VirtualAliases(b)
    {
      var tag :| tag in a && tag.CteTag? && tag.alias == x;
      var i :| 0 <= i < |a| && a[i] == tag;
      assert b[i] == tag;
    }
    forall x | x in OutputAliases(a)
      ensures x in OutputAliases(b)
    {
      var tag :| tag in a && tag.AliasTag? && tag.alias == x;
      var i :| 0 <= i < |a| && a[i] == tag;
      assert b[i] == tag;
    }
  }

  lemma {:induction false} SimilarScans(c: Config, schema: Schema, virtuals: set<string>, names: Names, a: seq<Tag>,
                                        b: seq<Tag>)
    requires SimilarTags(a, b)
    ensures ScanTables(c, schema, virtuals, a) == ScanTables(c, schema, virtuals, b)
    ensures ScanColumns(schema, names, a) == ScanColumns(schema, names, b)
    ensures FunctionIssues(c, a) == FunctionIssues(c, b)
  {
    if |a| != 0 {
      var n := |a| - 1;
      SimilarScans(c, schema, virtuals, names, a[..n], b[..n]);
    }
  }

  lemma SimilarNames(c: Config, schema: Schema, a: seq<Tag>, b: seq<Tag>)
    requires SimilarTags(a, b)
    ensures Virtuals(a) == Virtuals(b) && NamesOf(c, schema, a) == NamesOf(c, schema, b)
  {
    VirtualsInclude(a, b);
    VirtualsInclude(b, a);
    SimilarScans(c, schema, Virtuals(a), NamesOf(c, schema, a), a, b);
  }

  lemma ShapeIncludes(s: Statement, t: Statement)
    requires SameButLimit(s, t)
    ensures (exists v :: v in Nodes(s) && v.tree.tag.ForbiddenTag?) ==>
      exists v :: v in Nodes(t) && v.tree.tag.ForbiddenTag?
    ensures (exists v :: v in Nodes(s) && v.tree.commented) ==> exists v :: v in Nodes(t) && v.tree.commented
    ensures (exists v :: v in Nodes(s) && BareStar(v)) ==> exists v :: v in Nodes(t) && BareStar(v)
  {
    SimilarNodes(s, t);
    forall i | 0 <= i < |Nodes(s)|
      ensures Nodes(s)[i].tree.tag.ForbiddenTag? == Nodes(t)[i].tree.tag.ForbiddenTag?
      ensures Nodes(s)[i].tree.commented == Nodes(t)[i].tree.commented
      ensures BareStar(Nodes(s)[i]) == BareStar(Nodes(t)[i])
    {
      if i > 0 {
        assert Nodes(s)[i] == Nodes(s)[1..][i - 1] && Nodes(t)[i] == Nodes(t)[1..][i - 1];
      }
    }
    if v :| v in Nodes(s) && v.tree.tag.ForbiddenTag? {
      var i :| 0 <= i < |Nodes(s)| && Nodes(s)[i] == v;
      assert Nodes(t)[i] in Nodes(t);
    }
    if v :| v in Nodes(s) && v.tree.commented {
      var i :| 0 <= i < |Nodes(s)| && Nodes(s)[i] == v;
      assert Nodes(t)[i] in Nodes(t);
    }
    if v :| v in Nodes(s) && BareStar(v) {
      var i :| 0 <= i < |Nodes(s)| && Nodes(s)[i] == v;
      assert Nodes(t)[i] in Nodes(t);
    }
  }

  lemma SameFindings(c: Config, schema: Schema, s: Statement, t: Statement)
    requires SameButLimit(s, t)
    ensures Findings(c, schema, s) == Findings(c, schema, t)
    ensures ReferencedTables(c, schema, s) == ReferencedTables(c, schema, t)
    ensures ReferencedColumns(c, schema, s) == ReferencedColumns(c, schema, t)
  {
    SimilarTagsOf(s, t);
    SimilarNames(c, schema, Tags(s), Tags(t));
    SimilarScans(c, schema, Virtuals(Tags(s)), NamesOf(c, schema, Tags(s)), Tags(s), Tags(t));
    SameShape(c, s, t);
  }

  lemma {:induction false} SameShape(c: Config, s: Statement, t: Statement)
    requires SameButLimit(s, t) && FunctionIssues(c, Tags(s)) == FunctionIssues(c, Tags(t))
    ensures ShapeIssues(c, s) == ShapeIssues(c, t)
  {
    ShapeIncludes(s, t);
    ShapeIncludes(t, s);
    assert IsReadOnly(s.tag) == IsReadOnly(t.tag);
  }

  /** Validation says the same of a statement before and after it is limited. */
  lemma LimitKeepsFindings(c: Config, schema: Schema, t: Statement, maxRows: nat)
    ensures var limited := EnforceLimit(t, maxRows).expression;
      && Findings(c, schema, limited) == Findings(c, schema, t)
      && ReferencedTables(c, schema, limited) == ReferencedTables(c, schema, t)
      && ReferencedColumns(c, schema, limited) == ReferencedColumns(c, schema, t)
  {
    if LimitOf(t.tag).Some? {
      SameFindings(c, schema, EnforceLimit(t, maxRows).expression, t);
    }
  }
}
