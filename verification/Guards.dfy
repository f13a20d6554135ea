/** Every SELECT of a rewritten statement is guarded by the predicate of each tenant table it reads. */
module Guards {
  import opened Syntax
  import opened StatementTree
  import opened Encoding
  import opened TenantRewrite
  import opened TreeRewrite
  import opened Placement
  import opened TreeFacts
  import opened Limits

  // ----- the tables a SELECT reads, order forgotten -----

  /** A table node below without crossing a SELECT. */
  ghost predicate Owns(s: Statement, tag: Tag) {
    !s.tag.SelectTag? && ((s.tag.TableTag? && s.tag == tag) || exists i :: 0 <= i < |s.kids| && Owns(s.kids[i], tag))
  }

  ghost predicate SomeOwns(ss: seq<Statement>, tag: Tag) {
    exists i :: 0 <= i < |ss| && Owns(ss[i], tag)
  }

  lemma SomeOwnsAppend(a: seq<Statement>, b: seq<Statement>, tag: Tag)
    ensures SomeOwns(a + b, tag) <==> SomeOwns(a, tag) || SomeOwns(b, tag)
  {
    if SomeOwns(a, tag) {
      var i :| 0 <= i < |a| && Owns(a[i], tag);
      assert Owns((a + b)[i], tag);
    }
    if SomeOwns(b, tag) {
      var i :| 0 <= i < |b| && Owns(b[i], tag);
      assert Owns((a + b)[|a| + i], tag);
    }
  }

  lemma {:induction false} ScanOwns(queue: seq<Statement>, tag: Tag)
    ensures tag in Scan(queue) <==> SomeOwns(queue, tag)
    decreases SizeAll(queue)
  {
    if |queue| != 0 {
      var head, rest := queue[0], queue[1..];
      SizeDrops(queue);
      assert queue == [head] + rest;
      SomeOwnsAppend([head], rest, tag);
      assert SomeOwns([head], tag) <==> Owns([head][0], tag);
      if head.tag.SelectTag? {
        ScanOwns(rest, tag);
      } else {
        ScanOwns(rest + head.kids, tag);
        SomeOwnsAppend(rest, head.kids, tag);
        assert Owns(head, tag) <==> (head.tag.TableTag? && head.tag == tag) || SomeOwns(head.kids, tag);
      }
    }
  }

  // ----- conjuncts -----

  ghost predicate HasConjunct(condition: Statement, part: Statement) {
    || condition == part
    || (condition.tag == AndTag && exists i :: 0 <= i < |condition.kids| && HasConjunct(condition.kids[i], part))
  }

  /** The WHERE holder requires `part`. */
  ghost predicate Requires(holder: Statement, part: Statement) {
    |holder.kids| == 1 && HasConjunct(holder.kids[0], part)
  }

  lemma {:induction false} AttachRequires(holder: Statement, e: Expr, part: Statement)
    requires |holder.kids| <= 1
    ensures Requires(Attach(holder, EncodeExpr(e), ()), EncodeExpr(e))
    ensures Requires(holder, part) ==> Requires(Attach(holder, EncodeExpr(e), ()), part)
  {
    var grown := Attach(holder, EncodeExpr(e), ());
    if |holder.kids| != 0 {
      var both := grown.kids[0];
      assert both.kids[0] == holder.kids[0] && both.kids[1] == EncodeExpr(e);
      assert HasConjunct(both.kids[1], EncodeExpr(e));
      assert Requires(holder, part) ==> HasConjunct(both.kids[0], part);
    }
  }

  lemma {:induction false} AttachAllRequires(holder: Statement, es: seq<Expr>, part: Statement)
    requires |holder.kids| <= 1
    ensures forall e :: e in es ==> Requires(AttachAll(holder, es), EncodeExpr(e))
    ensures Requires(holder, part) ==> Requires(AttachAll(holder, es), part)
    decreases |es|
  {
    if |es| != 0 {
      var grown := Attach(holder, EncodeExpr(es[0]), ());
      AttachRequires(holder, es[0], part);
      AttachAllRequires(grown, es[1..], part);
      AttachAllRequires(grown, es[1..], EncodeExpr(es[0]));
      assert es == [es[0]] + es[1..];
    }
  }

  // ----- what the rewrite leaves owned -----

  lemma {:induction false} AttachAllOwns(holder: Statement, es: seq<Expr>, tag: Tag)
    requires |holder.kids| <= 1 && holder.tag == WhereTag
    requires forall e :: e in es ==> Plain(e)
    ensures Owns(AttachAll(holder, es), tag) <==> Owns(holder, tag)
    decreases |es|
  {
    if |es| != 0 {
      assert es[0] in es;
      AttachOwns(holder, es[0], tag);
      AttachAllOwns(Attach(holder, EncodeExpr(es[0]), ()), es[1..], tag);
    }
  }

  lemma {:induction false} OwnsOne(s: Statement, tag: Tag)
    requires |s.kids| == 1 && !s.tag.SelectTag? && !s.tag.TableTag?
    ensures Owns(s, tag) <==> Owns(s.kids[0], tag)
  {
  }

  lemma {:induction false} OwnsTwo(s: Statement, tag: Tag)
    requires |s.kids| == 2 && !s.tag.SelectTag? && !s.tag.TableTag?
    ensures Owns(s, tag) <==> Owns(s.kids[0], tag) || Owns(s.kids[1], tag)
  {
  }

  lemma {:induction false} AttachOwns(holder: Statement, e: Expr, tag: Tag)
    requires |holder.kids| <= 1 && holder.tag == WhereTag && Plain(e)
    ensures var grown := Attach(holder, EncodeExpr(e), ());
      && (Owns(grown, tag) <==> Owns(holder, tag)) && |grown.kids| == 1 && grown.tag == WhereTag
  {
    PlainKids(e);
    OwnsTwo(EncodeExpr(e), tag);
    assert !Owns(Leaf(ColumnTag(e.left.qualifier, e.left.name)), tag) && !Owns(Leaf(LiteralTag(e.right.value)), tag);
    OwnsOne(Attach(holder, EncodeExpr(e), ()), tag);
    if |holder.kids| != 0 {
      OwnsOne(holder, tag);
      OwnsTwo(Node((), AndTag, false, [holder.kids[0], EncodeExpr(e)]), tag);
    }
  }

  lemma {:induction false} OwnsNode(s: Statement, tag: Tag)
    requires !s.tag.SelectTag?
    ensures Owns(s, tag) <==> (s.tag.TableTag? && s.tag == tag) || SomeOwns(s.kids, tag)
  {
  }

  lemma {:induction false} OwnsAlike(s: Statement, kids: seq<Statement>, tag: Tag)
    requires |kids| == |s.kids| && forall i :: 0 <= i < |kids| ==> (Owns(kids[i], tag) <==> Owns(s.kids[i], tag))
    ensures SomeOwns(kids, tag) <==> SomeOwns(s.kids, tag)
  {
    if i :| 0 <= i < |kids| && Owns(s.kids[i], tag) {
      assert Owns(kids[i], tag);
    }
  }

  lemma {:induction false} RewriteOwns(t: Tenancy, s: Statement, tag: Tag)
    requires Shaped(s)
    ensures Owns(RewriteTree(t, s), tag) <==> Owns(s, tag)
  {
    if !s.tag.SelectTag? {
      var kids := RewriteTrees(t, s.kids);
      forall i | 0 <= i < |s.kids|
        ensures Owns(kids[i], tag) <==> Owns(s.kids[i], tag)
      {
        RewriteOwns(t, s.kids[i], tag);
      }
      OwnsAlike(s, kids, tag);
      assert RewriteTree(t, s) == s.(kids := kids);
      OwnsNode(s, tag);
      OwnsNode(RewriteTree(t, s), tag);
    }
  }

  // ----- the guards -----

  /** The WHERE of a SELECT requires the predicate of each tenant table it reads. */
  ghost predicate GuardedSelect(t: Tenancy, s: Statement) {
    forall tag: Tag, e: Expr :: tag in Scan(s.kids) && e in TagPredicates(t, tag) ==>
      |s.kids| != 0 && Requires(s.kids[0], EncodeExpr(e))
  }

  ghost predicate Guarded(t: Tenancy, s: Statement) {
    (s.tag.SelectTag? ==> GuardedSelect(t, s)) && forall i :: 0 <= i < |s.kids| ==> Guarded(t, s.kids[i])
  }

  lemma {:induction false} AllPredicatesHas(t: Tenancy, tags: seq<Tag>, tag: Tag, e: Expr)
    requires tag in tags && e in TagPredicates(t, tag)
    ensures e in AllPredicates(t, tags)
  {
    if tags[0] != tag {
      AllPredicatesHas(t, tags[1..], tag, e);
    }
  }

  /** The rewrite moves no table from one SELECT to another. */
  lemma {:induction false} ScanKept(t: Tenancy, s: Statement, tag: Tag)
    requires Shaped(s) && s.tag.SelectTag?
    ensures tag in Scan(RewriteTree(t, s).kids) <==> tag in Scan(s.kids)
  {
    var kids, done := RewriteTrees(t, s.kids), RewriteTree(t, s).kids;
    ScanOwns(s.kids, tag);
    ScanOwns(done, tag);
    AllPredicatesForm(t, Scan(s.kids));
    RewriteKeepsShape(t, s.kids[0]);
    AttachAllOwns(kids[0], AllPredicates(t, Scan(s.kids)), tag);
    forall i | 0 <= i < |done|
      ensures Owns(done[i], tag) <==> Owns(s.kids[i], tag)
    {
      RewriteOwns(t, s.kids[i], tag);
    }
    OwnsAlike(s, done, tag);
  }

  lemma {:induction false} RewriteGuardsSelect(t: Tenancy, s: Statement)
    requires Shaped(s) && s.tag.SelectTag?
    ensures GuardedSelect(t, RewriteTree(t, s))
  {
    var kids, done := RewriteTrees(t, s.kids), RewriteTree(t, s);
    var ps := AllPredicates(t, Scan(s.kids));
    RewriteKeepsShape(t, s.kids[0]);
    forall tag: Tag, e: Expr | tag in Scan(done.kids) && e in TagPredicates(t, tag)
      ensures Requires(done.kids[0], EncodeExpr(e))
    {
      ScanKept(t, s, tag);
      AllPredicatesHas(t, Scan(s.kids), tag, e);
      AttachAllRequires(kids[0], ps, EncodeExpr(e));
    }
  }

  /** The condition a SELECT had before is still required, itself rewritten. */
  lemma {:induction false} RewriteKeepsWhere(t: Tenancy, s: Statement)
    requires Shaped(s) && s.tag.SelectTag? && |s.kids[0].kids| == 1
    ensures Requires(RewriteTree(t, s).kids[0], RewriteTree(t, s.kids[0].kids[0]))
  {
    var holder := RewriteTrees(t, s.kids)[0];
    var condition := RewriteTree(t, s.kids[0].kids[0]);
    RewriteKeepsShape(t, s.kids[0]);
    assert holder.kids[0] == condition;
    assert Requires(holder, condition);
    AttachAllRequires(holder, AllPredicates(t, Scan(s.kids)), condition);
  }

  lemma {:induction false} AttachAllGuarded(t: Tenancy, holder: Statement, es: seq<Expr>)
    requires |holder.kids| <= 1 && holder.tag == WhereTag && Guarded(t, holder)
    requires forall e :: e in es ==> Plain(e)
    ensures Guarded(t, AttachAll(holder, es))
    decreases |es|
  {
    if |es| != 0 {
      assert es[0] in es;
      var added := EncodeExpr(es[0]);
      PlainKids(es[0]);
      assert Guarded(t, added);
      var grown := Attach(holder, added, ());
      if |holder.kids| != 0 {
        var both := grown.kids[0];
        assert both.kids[0] == holder.kids[0] && both.kids[1] == added;
        assert Guarded(t, both);
      }
      assert Guarded(t, grown);
      AttachAllGuarded(t, grown, es[1..]);
    }
  }

  lemma {:induction false} RewriteGuards(t: Tenancy, s: Statement)
    requires Shaped(s)
    ensures Guarded(t, RewriteTree(t, s))
  {
    var kids, done := RewriteTrees(t, s.kids), RewriteTree(t, s);
    forall i | 0 <= i < |s.kids|
      ensures Guarded(t, kids[i])
    {
      RewriteGuards(t, s.kids[i]);
    }
    if s.tag.SelectTag? {
      RewriteGuardsSelect(t, s);
      RewriteKeepsShape(t, s.kids[0]);
      AllPredicatesForm(t, Scan(s.kids));
      AttachAllGuarded(t, kids[0], AllPredicates(t, Scan(s.kids)));
      assert forall i :: 0 < i < |done.kids| ==> done.kids[i] == kids[i];
    }
  }

  lemma {:induction false} LimitKeepsGuards(t: Tenancy, s: Statement, maxRows: nat)
    requires Guarded(t, s)
    ensures Guarded(t, EnforceLimit(s, maxRows).expression)
  {
    var limited := EnforceLimit(s, maxRows).expression;
    assert limited.kids == s.kids && limited.tag.SelectTag? == s.tag.SelectTag?;
    if s.tag.SelectTag? {
      SameKidsGuarded(t, s, limited);
    }
  }

  lemma SameKidsGuarded(t: Tenancy, a: Statement, b: Statement)
    requires a.kids == b.kids && GuardedSelect(t, a)
    ensures GuardedSelect(t, b)
  {
    forall tag: Tag, e: Expr | tag in Scan(b.kids) && e in TagPredicates(t, tag)
      ensures |b.kids| != 0 && Requires(b.kids[0], EncodeExpr(e))
    {
      assert tag in Scan(a.kids);
      assert Requires(a.kids[0], EncodeExpr(e)) && a.kids[0] == b.kids[0];
    }
  }
}
