/** Facts about all nodes of a statement, and what the tenant rewrite does to them. */
module TreeFacts {
  import opened Collections
  import opened Schemas
  import opened Syntax
  import opened StatementTree
  import opened Encoding
  import opened TenantRewrite
  import opened TreeRewrite
  import opened Placement
  import opened ValidatorSpec

  // ----- a property of every node -----

  type NodeTest = (Tag, bool) -> bool

  ghost predicate Everywhere(t: Statement, p: NodeTest) {
    p(t.tag, t.commented) && forall i :: 0 <= i < |t.kids| ==> Everywhere(t.kids[i], p)
  }

  lemma {:induction false} EverywhereBelow(t: Statement, n: Statement, p: NodeTest)
    requires Everywhere(t, p) && Has(t, n)
    ensures p(n.tag, n.commented)
  {
    if t != n {
      var i :| 0 <= i < |t.kids| && Has(t.kids[i], n);
      EverywhereBelow(t.kids[i], n, p);
    }
  }

  lemma {:induction false} EverywhereFromBelow(t: Statement, p: NodeTest)
    requires forall n: Statement :: Has(t, n) ==> p(n.tag, n.commented)
    ensures Everywhere(t, p)
  {
    assert Has(t, t);
    forall i | 0 <= i < |t.kids|
      ensures Everywhere(t.kids[i], p)
    {
      forall n: Statement | Has(t.kids[i], n)
        ensures p(n.tag, n.commented)
      {
        assert Has(t, n);
      }
      EverywhereFromBelow(t.kids[i], p);
    }
  }

  /** The walk sees exactly the nodes of the tree. */
  lemma {:induction false} EverywhereWalked(t: Statement, p: NodeTest)
    ensures Everywhere(t, p) <==> forall v :: v in Nodes(t) ==> p(v.tree.tag, v.tree.commented)
  {
    if Everywhere(t, p) {
      forall v | v in Nodes(t)
        ensures p(v.tree.tag, v.tree.commented)
      {
        NodesMeet(t, v.tree);
        EverywhereBelow(t, v.tree, p);
      }
    }
    if forall v :: v in Nodes(t) ==> p(v.tree.tag, v.tree.commented) {
      forall n: Statement | Has(t, n)
        ensures p(n.tag, n.commented)
      {
        NodesMeet(t, n);
      }
      EverywhereFromBelow(t, p);
    }
  }

  function Isnt(tag: Tag): NodeTest {
    (x: Tag, commented: bool) => x != tag
  }

  lemma {:induction false} TagsHave(t: Statement, tag: Tag)
    ensures tag in Tags(t) <==> !Everywhere(t, Isnt(tag))
  {
    EverywhereWalked(t, Isnt(tag));
    if tag in Tags(t) {
      var i :| 0 <= i < |Tags(t)| && Tags(t)[i] == tag;
      assert Nodes(t)[i] in Nodes(t);
    }
    if v :| v in Nodes(t) && v.tree.tag == tag {
      var i :| 0 <= i < |Nodes(t)| && Nodes(t)[i] == v;
      assert Tags(t)[i] == tag;
    }
  }

  // ----- the nodes a rewrite adds -----

  ghost predicate PredicateOk(p: NodeTest, e: Expr) {
    match e
    case Equals(Column(q, c), Literal(v)) =>
      p(EqualsTag, false) && p(ColumnTag(q, c), false) && p(LiteralTag(v), false)
    case _ => false
  }

  /** `column = literal`, the form of every added condition. */
  predicate Plain(e: Expr) {
    e.Equals? && e.left.Column? && e.right.Literal?
  }

  lemma {:induction false} PlainKids(e: Expr)
    requires Plain(e)
    ensures EncodeExpr(e).tag == EqualsTag
    ensures EncodeExpr(e).kids == [Leaf(ColumnTag(e.left.qualifier, e.left.name)), Leaf(LiteralTag(e.right.value))]
  {
    assert EncodeExpr(e.left) == Leaf(ColumnTag(e.left.qualifier, e.left.name));
    assert EncodeExpr(e.right) == Leaf(LiteralTag(e.right.value));
  }

  /** The property holds of every node a table occurrence makes the rewrite add. */
  ghost predicate TableWelcome(t: Tenancy, table: Tag, p: NodeTest) {
    forall e :: e in TagPredicates(t, table) ==> PredicateOk(p, e)
  }

  /** The property holds of everything the rewrite of `s` can add. */
  ghost predicate Welcome(t: Tenancy, s: Statement, p: NodeTest) {
    p(AndTag, false) && forall tag: Tag :: tag.TableTag? && !Everywhere(s, Isnt(tag)) ==> TableWelcome(t, tag, p)
  }

  lemma AddedMeets(t: Tenancy, table: Tag, p: NodeTest)
    requires table.TableTag?
    requires TenantColumn(t, SourceOf(table)).Some? ==>
      && p(EqualsTag, false) && p(LiteralTag(t.tenant), false)
      && p(ColumnTag(SourceOf(table).Label(), TenantColumn(t, SourceOf(table)).value), false)
    ensures TableWelcome(t, table, p)
  {
  }

  /** The classes of node the rewrite adds. */
  predicate Addable(tag: Tag) {
    tag.AndTag? || tag.EqualsTag? || tag.ColumnTag? || tag.LiteralTag?
  }

  ghost predicate AcceptsAdded(p: NodeTest) {
    forall tag: Tag :: Addable(tag) ==> p(tag, false)
  }

  lemma AcceptsTable(t: Tenancy, table: Tag, p: NodeTest)
    requires table.TableTag? && AcceptsAdded(p)
    ensures TableWelcome(t, table, p)
  {
    assert Addable(EqualsTag) && Addable(LiteralTag(t.tenant));
    if TenantColumn(t, SourceOf(table)).Some? {
      assert Addable(ColumnTag(SourceOf(table).Label(), TenantColumn(t, SourceOf(table)).value));
    }
    AddedMeets(t, table, p);
  }

  /** A property of all nodes of these classes is welcome in every statement. */
  lemma AcceptsWelcome(t: Tenancy, s: Statement, p: NodeTest)
    requires AcceptsAdded(p)
    ensures Welcome(t, s, p)
  {
    assert Addable(AndTag);
    forall table: Tag | table.TableTag? && !Everywhere(s, Isnt(table))
      ensures TableWelcome(t, table, p)
    {
      AcceptsTable(t, table, p);
    }
  }

  lemma {:induction false} EverywherePredicate(p: NodeTest, e: Expr)
    requires PredicateOk(p, e)
    ensures Everywhere(EncodeExpr(e), p)
  {
  }

  lemma {:induction false} EverywhereOne(t: Statement, p: NodeTest)
    requires |t.kids| == 1
    ensures Everywhere(t, p) <==> p(t.tag, t.commented) && Everywhere(t.kids[0], p)
  {
  }

  lemma {:induction false} EverywhereTwo(t: Statement, p: NodeTest)
    requires |t.kids| == 2
    ensures Everywhere(t, p) <==> p(t.tag, t.commented) && Everywhere(t.kids[0], p) && Everywhere(t.kids[1], p)
  {
  }

  lemma {:induction false} EverywhereAttach(p: NodeTest, holder: Statement, e: Expr)
    requires |holder.kids| <= 1 && p(AndTag, false) && PredicateOk(p, e)
    ensures Everywhere(Attach(holder, EncodeExpr(e), ()), p) <==> Everywhere(holder, p)
    ensures |Attach(holder, EncodeExpr(e), ()).kids| == 1
  {
    EverywherePredicate(p, e);
    EverywhereOne(Attach(holder, EncodeExpr(e), ()), p);
    if |holder.kids| != 0 {
      EverywhereOne(holder, p);
      EverywhereTwo(Node((), AndTag, false, [holder.kids[0], EncodeExpr(e)]), p);
    }
  }

  lemma {:induction false} EverywhereAttachAll(p: NodeTest, holder: Statement, es: seq<Expr>)
    requires |holder.kids| <= 1 && p(AndTag, false) && forall e :: e in es ==> PredicateOk(p, e)
    ensures Everywhere(AttachAll(holder, es), p) <==> Everywhere(holder, p)
    decreases |es|
  {
    if |es| != 0 {
      assert es[0] in es;
      EverywhereAttach(p, holder, es[0]);
      EverywhereAttachAll(p, Attach(holder, EncodeExpr(es[0]), ()), es[1..]);
    }
  }

  ghost predicate OccursIn(queue: seq<Statement>, tag: Tag) {
    exists s :: s in queue && !Everywhere(s, Isnt(tag))
  }

  lemma {:induction false} OccursFirst(queue: seq<Statement>, tag: Tag)
    requires |queue| != 0 && !Everywhere(queue[0], Isnt(tag))
    ensures OccursIn(queue, tag)
  {
    assert queue[0] in queue;
  }

  lemma {:induction false} OccursUp(queue: seq<Statement>, tag: Tag)
    requires |queue| != 0 && OccursIn(queue[1..] + queue[0].kids, tag)
    ensures OccursIn(queue, tag)
  {
    var s :| s in queue[1..] + queue[0].kids && !Everywhere(s, Isnt(tag));
    if s in queue[0].kids {
      KidNotEverywhere(queue[0], s, Isnt(tag));
      OccursFirst(queue, tag);
    } else {
      assert s in queue;
    }
  }

  lemma {:induction false} ScanOccurs(queue: seq<Statement>, tag: Tag)
    requires tag in Scan(queue)
    ensures tag.TableTag? && OccursIn(queue, tag)
    decreases SizeAll(queue)
  {
    var head := queue[0];
    SizeDrops(queue);
    ScanStep(head, queue[1..]);
    assert queue == [head] + queue[1..];
    if head.tag.TableTag? && head.tag == tag {
      assert !Everywhere(head, Isnt(tag));
      OccursFirst(queue, tag);
    } else if head.tag.SelectTag? {
      ScanOccurs(queue[1..], tag);
      var s :| s in queue[1..] && !Everywhere(s, Isnt(tag));
      assert s in queue;
    } else {
      ScanOccurs(queue[1..] + head.kids, tag);
      OccursUp(queue, tag);
    }
  }

  lemma {:induction false} AllPredicatesFrom(t: Tenancy, tags: seq<Tag>, e: Expr)
    requires e in AllPredicates(t, tags)
    ensures exists tag :: tag in tags && e in TagPredicates(t, tag)
  {
    if e !in TagPredicates(t, tags[0]) {
      AllPredicatesFrom(t, tags[1..], e);
    } else {
      assert tags[0] in tags;
    }
  }

  lemma {:induction false} AddedOccurs(t: Tenancy, s: Statement, e: Expr)
    requires e in AllPredicates(t, Scan(s.kids))
    ensures exists tag: Tag :: tag.TableTag? && !Everywhere(s, Isnt(tag)) && e in TagPredicates(t, tag)
  {
    AllPredicatesFrom(t, Scan(s.kids), e);
    var tag :| tag in Scan(s.kids) && e in TagPredicates(t, tag);
    ScanOccurs(s.kids, tag);
    var k :| k in s.kids && !Everywhere(k, Isnt(tag));
    KidNotEverywhere(s, k, Isnt(tag));
  }

  lemma {:induction false} KidNotEverywhere(s: Statement, k: Statement, p: NodeTest)
    requires k in s.kids && !Everywhere(k, p)
    ensures !Everywhere(s, p)
  {
    var i :| 0 <= i < |s.kids| && s.kids[i] == k;
  }

  lemma {:induction false} AddedWelcome(t: Tenancy, s: Statement, p: NodeTest)
    requires Welcome(t, s, p)
    ensures forall e :: e in AllPredicates(t, Scan(s.kids)) ==> PredicateOk(p, e)
  {
    forall e | e in AllPredicates(t, Scan(s.kids))
      ensures PredicateOk(p, e)
    {
      AddedOccurs(t, s, e);
    }
  }

  lemma WelcomeKid(t: Tenancy, s: Statement, p: NodeTest, i: nat)
    requires Welcome(t, s, p) && i < |s.kids|
    ensures Welcome(t, s.kids[i], p)
  {
    forall tag: Tag | tag.TableTag? && !Everywhere(s.kids[i], Isnt(tag))
      ensures TableWelcome(t, tag, p)
    {
      assert !Everywhere(s, Isnt(tag));
    }
  }

  lemma {:induction false} RewriteKeepsShape(t: Tenancy, s: Statement)
    ensures RewriteTree(t, s).tag == s.tag && RewriteTree(t, s).commented == s.commented
    ensures |RewriteTree(t, s).kids| == |s.kids|
  {
  }

  /** A property the added nodes have holds everywhere after the rewrite exactly if it did before. */
  lemma {:induction false} RewriteEverywhere(t: Tenancy, s: Statement, p: NodeTest)
    requires Shaped(s) && Welcome(t, s, p)
    ensures Everywhere(RewriteTree(t, s), p) <==> Everywhere(s, p)
  {
    var kids := RewriteTrees(t, s.kids);
    forall i | 0 <= i < |s.kids|
      ensures Everywhere(kids[i], p) <==> Everywhere(s.kids[i], p)
    {
      WelcomeKid(t, s, p, i);
      RewriteEverywhere(t, s.kids[i], p);
    }
    if s.tag.SelectTag? {
      AddedWelcome(t, s, p);
      RewriteKeepsShape(t, s.kids[0]);
      var ps := AllPredicates(t, Scan(s.kids));
      EverywhereAttachAll(p, kids[0], ps);
      var grown := kids[0 := AttachAll(kids[0], ps)];
      assert RewriteTree(t, s) == s.(kids := grown);
      assert forall i :: 0 <= i < |grown| ==> (Everywhere(grown[i], p) <==> Everywhere(s.kids[i], p));
      if Everywhere(s, p) {
        assert Everywhere(RewriteTree(t, s), p);
      }
      if Everywhere(RewriteTree(t, s), p) {
        forall i | 0 <= i < |s.kids|
          ensures Everywhere(s.kids[i], p)
        {
          assert Everywhere(grown[i], p);
        }
      }
    } else {
      assert RewriteTree(t, s) == s.(kids := kids);
      if Everywhere(s, p) {
        assert Everywhere(RewriteTree(t, s), p);
      }
      if Everywhere(RewriteTree(t, s), p) {
        forall i | 0 <= i < |s.kids|
          ensures Everywhere(s.kids[i], p)
        {
          assert Everywhere(kids[i], p);
        }
      }
    }
  }

  // ----- stars outside functions -----

  /** No star that is not an argument of a function. */
  ghost predicate StarFree(t: Statement) {
    !t.tag.StarTag? && (t.tag.FunctionTag? || forall i :: 0 <= i < |t.kids| ==> StarFree(t.kids[i]))
  }

  lemma {:induction false} StarFreeWalked(queue: seq<Visit<()>>)
    ensures (forall v :: v in Walk(queue) ==> !BareStar(v))
       <==> forall v :: v in queue ==> UnderFunction(v.above) || StarFree(v.tree)
    decreases Weight(queue)
  {
    if |queue| != 0 {
      var head, kids := queue[0], KidVisits(queue[0]);
      var rest := queue[1..] + kids;
      WeightDrops(queue);
      StarFreeWalked(rest);
      assert Walk(queue) == [head] + Walk(rest);
      assert queue == [head] + queue[1..];
      StarFreeStep(head);
      assert (forall v :: v in rest ==> UnderFunction(v.above) || StarFree(v.tree)) <==>
             (forall v :: v in queue[1..] ==> UnderFunction(v.above) || StarFree(v.tree)) &&
             (forall v :: v in kids ==> UnderFunction(v.above) || StarFree(v.tree));
    }
  }

  lemma StarFreeStep(head: Visit<()>)
    ensures UnderFunction(head.above) || StarFree(head.tree) <==>
      !BareStar(head) && forall v :: v in KidVisits(head) ==> UnderFunction(v.above) || StarFree(v.tree)
  {
    var kids := KidVisits(head);
    forall i | 0 <= i < |kids|
      ensures UnderFunction(kids[i].above) <==> UnderFunction(head.above) || head.tree.tag.FunctionTag?
    {
      var above := kids[i].above;
      assert above[|head.above|].tag == head.tree.tag;
      if UnderFunction(head.above) {
        var j :| 0 <= j < |head.above| && head.above[j].tag.FunctionTag?;
        assert above[j].tag.FunctionTag?;
      }
      if UnderFunction(above) {
        var j :| 0 <= j < |above| && above[j].tag.FunctionTag?;
        if j < |head.above| {
          assert head.above[j].tag.FunctionTag?;
        }
      }
    }
    if forall v :: v in kids ==> UnderFunction(v.above) || StarFree(v.tree) {
      forall i | 0 <= i < |kids|
        ensures UnderFunction(kids[i].above) || StarFree(head.tree.kids[i])
      {
        assert kids[i] in kids;
      }
    }
  }

  lemma {:induction false} StarFreeNodes(t: Statement)
    ensures (forall v :: v in Nodes(t) ==> !BareStar(v)) <==> StarFree(t)
  {
    var start := Visit(t, []);
    StarFreeWalked([start]);
    assert start in [start];
  }

  lemma {:induction false} StarFreeOne(t: Statement)
    requires |t.kids| == 1 && !t.tag.FunctionTag? && !t.tag.StarTag?
    ensures StarFree(t) <==> StarFree(t.kids[0])
  {
  }

  lemma {:induction false} StarFreeAttach(holder: Statement, e: Expr)
    requires |holder.kids| <= 1 && Plain(e)
    requires !holder.tag.FunctionTag? && !holder.tag.StarTag?
    ensures StarFree(Attach(holder, EncodeExpr(e), ())) <==> StarFree(holder)
    ensures |Attach(holder, EncodeExpr(e), ()).kids| == 1 && Attach(holder, EncodeExpr(e), ()).tag == holder.tag
  {
    assert StarFree(EncodeExpr(e));
    StarFreeOne(Attach(holder, EncodeExpr(e), ()));
    if |holder.kids| != 0 {
      StarFreeOne(holder);
      var both := Node((), AndTag, false, [holder.kids[0], EncodeExpr(e)]);
      assert both.kids[0] == holder.kids[0] && both.kids[1] == EncodeExpr(e);
    }
  }

  lemma {:induction false} StarFreeAttachAll(holder: Statement, es: seq<Expr>)
    requires |holder.kids| <= 1 && holder.tag == WhereTag
    requires forall e :: e in es ==> Plain(e)
    ensures StarFree(AttachAll(holder, es)) <==> StarFree(holder)
    decreases |es|
  {
    if |es| != 0 {
      assert es[0] in es;
      StarFreeAttach(holder, es[0]);
      StarFreeAttachAll(Attach(holder, EncodeExpr(es[0]), ()), es[1..]);
    }
  }

  lemma {:induction false} AllPredicatesForm(t: Tenancy, tags: seq<Tag>)
    ensures forall e :: e in AllPredicates(t, tags) ==> Plain(e)
  {
    if |tags| != 0 {
      AllPredicatesForm(t, tags[1..]);
    }
  }

  lemma {:induction false} RewriteStarFree(t: Tenancy, s: Statement)
    requires Shaped(s)
    ensures StarFree(RewriteTree(t, s)) <==> StarFree(s)
  {
    var kids := RewriteTrees(t, s.kids);
    forall i | 0 <= i < |s.kids|
      ensures StarFree(kids[i]) <==> StarFree(s.kids[i])
    {
      RewriteStarFree(t, s.kids[i]);
    }
    var done := RewriteTree(t, s).kids;
    if s.tag.SelectTag? {
      RewriteKeepsShape(t, s.kids[0]);
      AllPredicatesForm(t, Scan(s.kids));
      StarFreeAttachAll(kids[0], AllPredicates(t, Scan(s.kids)));
    }
    assert forall i :: 0 <= i < |done| ==> (StarFree(done[i]) <==> StarFree(s.kids[i]));
    assert |done| == |s.kids|;
    if StarFree(RewriteTree(t, s)) && !s.tag.FunctionTag? {
      forall i | 0 <= i < |s.kids|
        ensures StarFree(s.kids[i])
      {
        assert StarFree(done[i]);
      }
    }
  }
}
