/** The rewriter's effect on statement trees: SELECT by SELECT, and in the query's own terms. */
module TreeRewrite {
  import opened Collections
  import opened Schemas
  import opened Syntax
  import opened StatementTree
  import opened Encoding
  import opened TenantRewrite

  // ----- which tables a SELECT owns -----

  /** The table nodes a breadth-first search meets without entering a nested SELECT. */
  function Scan<A>(queue: seq<Tree<A>>): seq<Tag>
    decreases SizeAll(queue)
  {
    if |queue| == 0 then []
    else
      SizeDrops(queue);
      if queue[0].tag.SelectTag? then Scan(queue[1..])
      else (if queue[0].tag.TableTag? then [queue[0].tag] else []) + Scan(queue[1..] + queue[0].kids)
  }

  lemma {:induction false} SizeAllAppend<A>(a: seq<Tree<A>>, b: seq<Tree<A>>)
    ensures SizeAll(a + b) == SizeAll(a) + SizeAll(b)
  {
    if |a| == 0 {
      assert a + b == b;
    } else {
      assert (a + b)[1..] == a[1..] + b;
      SizeAllAppend(a[1..], b);
    }
  }

  lemma {:induction false} SizeDrops<A>(queue: seq<Tree<A>>)
    requires |queue| != 0
    ensures SizeAll(queue[1..]) < SizeAll(queue)
    ensures SizeAll(queue[1..] + queue[0].kids) < SizeAll(queue)
  {
    SizeAllAppend(queue[1..], queue[0].kids);
    assert Size(queue[0]) == 1 + SizeAll(queue[0].kids);
  }

  function SourceOf(tag: Tag): Source
    requires tag.TableTag?
  {
    Table(tag.catalog, tag.db, tag.name, tag.alias)
  }

  /** The predicate a table node asks for, if it is a tenant table. */
  function TagPredicates(t: Tenancy, tag: Tag): seq<Expr> {
    if tag.TableTag? then SourcePredicates(t, SourceOf(tag)) else []
  }

  function AllPredicates(t: Tenancy, tags: seq<Tag>): seq<Expr> {
    if |tags| == 0 then [] else TagPredicates(t, tags[0]) + AllPredicates(t, tags[1..])
  }

  // ----- the structural rewrite -----

  /** Append one condition to a WHERE holder. */
  function Attach<A>(holder: Tree<A>, condition: Tree<A>, joint: A): Tree<A> {
    if |holder.kids| == 0 then holder.(kids := [condition])
    else holder.(kids := [Node(joint, AndTag, false, [holder.kids[0], condition])])
  }

  function AttachAll(holder: Statement, predicates: seq<Expr>): Statement
    decreases |predicates|
  {
    if |predicates| == 0 then holder
    else AttachAll(Attach(holder, EncodeExpr(predicates[0]), ()), predicates[1..])
  }

  function RewriteTree(t: Tenancy, s: Statement): Statement {
    var kids := RewriteTrees(t, s.kids);
    if s.tag.SelectTag? && |kids| != 0
    then s.(kids := kids[0 := AttachAll(kids[0], AllPredicates(t, Scan(s.kids)))])
    else s.(kids := kids)
  }

  function RewriteTrees(t: Tenancy, ss: seq<Statement>): (r: seq<Statement>)
    ensures |r| == |ss|
    ensures forall i :: 0 <= i < |ss| ==> r[i] == RewriteTree(t, ss[i])
  {
    if |ss| == 0 then [] else [RewriteTree(t, ss[0])] + RewriteTrees(t, ss[1..])
  }

  lemma {:induction false} RewriteTreesAppend(t: Tenancy, a: seq<Statement>, b: seq<Statement>)
    ensures RewriteTrees(t, a + b) == RewriteTrees(t, a) + RewriteTrees(t, b)
  {
    if |a| == 0 {
      assert a + b == b;
    } else {
      assert (a + b)[1..] == a[1..] + b;
      RewriteTreesAppend(t, a[1..], b);
    }
  }

  // ----- scanning the tree of a query -----

  /** No table below without crossing a SELECT. */
  ghost predicate Bare<A(!new)>(s: Tree<A>) {
    s.tag.SelectTag? || (!s.tag.TableTag? && forall i :: 0 <= i < |s.kids| ==> Bare(s.kids[i]))
  }

  ghost predicate BareOrTable<A(!new)>(s: Tree<A>) {
    Bare(s) || (s.tag.TableTag? && |s.kids| == 0)
  }

  function TableTags<A>(ss: seq<Tree<A>>): seq<Tag> {
    if |ss| == 0 then []
    else (if ss[0].tag.TableTag? then [ss[0].tag] else []) + TableTags(ss[1..])
  }

  lemma {:induction false} TableTagsAppend<A>(a: seq<Tree<A>>, b: seq<Tree<A>>)
    ensures TableTags(a + b) == TableTags(a) + TableTags(b)
  {
    if |a| == 0 {
      assert a + b == b;
    } else {
      assert (a + b)[1..] == a[1..] + b;
      TableTagsAppend(a[1..], b);
    }
  }

  lemma {:induction false} TableTagsBare<A(!new)>(ss: seq<Tree<A>>)
    requires forall s :: s in ss ==> Bare(s)
    ensures TableTags(ss) == []
  {
    if |ss| != 0 {
      assert ss[0] in ss;
      TableTagsBare(ss[1..]);
    }
  }

  /** A queue of bare trees and childless tables holds exactly the tables at its top. */
  lemma {:induction false} ScanFlat<A(!new)>(queue: seq<Tree<A>>)
    requires forall s :: s in queue ==> BareOrTable(s)
    ensures Scan(queue) == TableTags(queue)
    decreases SizeAll(queue)
  {
    if |queue| != 0 {
      var head := queue[0];
      assert head in queue;
      SizeDrops(queue);
      if head.tag.SelectTag? {
        ScanFlat(queue[1..]);
      } else {
        if Bare(head) {
          TableTagsBare(head.kids);
        }
        forall s | s in queue[1..] + head.kids
          ensures BareOrTable(s)
        {
          assert s in queue[1..] || s in head.kids;
        }
        ScanFlat(queue[1..] + head.kids);
        TableTagsAppend(queue[1..], head.kids);
      }
    }
  }

  /** A node's children, none for a SELECT. */
  function Inside<A>(s: Tree<A>): seq<Tree<A>> {
    if s.tag.SelectTag? then [] else s.kids
  }

  /** The children of the queue's nodes, SELECTs left out. */
  function Below<A>(ss: seq<Tree<A>>): seq<Tree<A>> {
    if |ss| == 0 then [] else Inside(ss[0]) + Below(ss[1..])
  }

  /** One step of the scan. */
  lemma {:induction false} ScanStep<A>(head: Tree<A>, rest: seq<Tree<A>>)
    ensures Scan([head] + rest) == (if head.tag.TableTag? then [head.tag] else []) + Scan(rest + Inside(head))
  {
    var queue := [head] + rest;
    assert queue[0] == head && queue[1..] == rest;
    if head.tag.SelectTag? {
      assert rest + Inside(head) == rest;
    }
  }

  lemma {:induction false} BelowAppend<A>(a: seq<Tree<A>>, b: seq<Tree<A>>)
    ensures Below(a + b) == Below(a) + Below(b)
  {
    if |a| == 0 {
      assert a + b == b;
    } else {
      assert (a + b)[1..] == a[1..] + b;
      BelowAppend(a[1..], b);
    }
  }

  lemma Regroup<T>(x: seq<T>, y: seq<T>, z: seq<T>)
    ensures (x + y) + z == x + (y + z)
  {
  }

  /** Breadth first means level by level. */
  lemma {:induction false} ScanLevel<A>(a: seq<Tree<A>>, b: seq<Tree<A>>)
    ensures Scan(a + b) == TableTags(a) + Scan(b + Below(a))
  {
    if |a| == 0 {
      assert a + b == b && b + Below(a) == b;
    } else {
      var head, rest := a[0], a[1..];
      var here := if head.tag.TableTag? then [head.tag] else [];
      assert a == [head] + rest;
      Regroup([head], rest, b);
      ScanStep(head, rest + b);
      Regroup(rest, b, Inside(head));
      ScanLevel(rest, b + Inside(head));
      Regroup(b, Inside(head), Below(rest));
      Regroup(here, TableTags(rest), Scan(b + Below(a)));
    }
  }

  lemma {:induction false} EncodedExprBare(e: Expr)
    ensures Bare(EncodeExpr(e))
  {
    match e
    case Column(_, _) =>
    case Literal(_) =>
    case Call(_, args) => EncodedExprsBare(args);
    case Equals(l, r) => EncodedExprBare(l); EncodedExprBare(r);
    case Both(l, r) => EncodedExprBare(l); EncodedExprBare(r);
    case Either(l, r) => EncodedExprBare(l); EncodedExprBare(r);
    case Negated(x) => EncodedExprBare(x);
    case IsNull(x) => EncodedExprBare(x);
    case Aggregate(_, x) => EncodedExprBare(x);
    case CountStar => assert Bare(Leaf(StarTag));
    case Alias(x, _) => EncodedExprBare(x);
    case Exists(q) => EncodedQueryBare(q);
    case In(x, q) =>
      EncodedExprBare(x);
      EncodedQueryBare(q);
      assert Bare(Parent(SubqueryTag("", NoLimit), [EncodeQuery(q)]));
    case Scalar(q) => EncodedQueryBare(q);
  }

  lemma {:induction false} EncodedExprsBare(es: List<Expr>)
    ensures forall s :: s in EncodeExprs(es) ==> Bare(s)
  {
    if es.Cons? {
      EncodedExprBare(es.head);
      EncodedExprsBare(es.tail);
    }
  }

  lemma {:induction false} EncodedConditionBare(c: Option<Expr>)
    ensures forall s :: s in EncodeCondition(c) ==> Bare(s)
  {
    match c
    case None =>
    case Some(e) => EncodedExprBare(e);
  }

  lemma {:induction false} EncodedCtesBare(list: List<Cte>)
    ensures forall s :: s in EncodeCtes(list) ==> Bare(s)
  {
    if list.Cons? {
      EncodedQueryBare(list.head.query);
      EncodedCtesBare(list.tail);
    }
  }

  lemma {:induction false} EncodedQueryBare(q: Query)
    ensures Bare(EncodeQuery(q))
  {
    match q
    case Select(_, _, _, _, _, _, _, _, _) =>
    case SetOperation(ctes, _, left, right, _) =>
      EncodedCtesBare(ctes);
      EncodedQueryBare(left);
      EncodedQueryBare(right);
      assert Bare(Parent(WithTag, EncodeCtes(ctes)));
  }

  lemma {:induction false} EncodedSourceFlat(source: Source)
    ensures BareOrTable(EncodeSource(source))
    ensures TableTags([EncodeSource(source)])
         == if source.Table? then [TableTag(source.catalog, source.db, source.name, source.alias)] else []
  {
    match source
    case Table(_, _, _, _) =>
    case Derived(q, alias) => EncodedQueryBare(q);
  }

  /** One level below FROM and JOIN nodes: the sources, in order, and bare conditions. */
  lemma {:induction false} EncodedFromLevel(t: Tenancy, from: From)
    ensures TableTags(EncodeFrom(from)) == []
    ensures forall s :: s in Below(EncodeFrom(from)) ==> BareOrTable(s)
    ensures AllPredicates(t, TableTags(Below(EncodeFrom(from)))) == Predicates(t, from)
  {
    match from
    case Nowhere =>
    case Single(source) =>
      EncodedSourceFlat(source);
      assert Below(EncodeFrom(from)) == [EncodeSource(source)];
    case Joined(left, kind, right, on) =>
      EncodedFromLevel(t, left);
      var before, kids := EncodeFrom(left), JoinedKids(right, on);
      var node := Parent(JoinTag(kind, false, on.Some?), kids);
      EncodedJoinLevel(right, on);
      assert Below([node]) == kids;
      BelowAppend(before, [node]);
      TableTagsAppend(before, [node]);
      TableTagsAppend(Below(before), kids);
      AllPredicatesAppend(t, TableTags(Below(before)), TableTags(kids));
      SourceTags(t, right);
  }

  function JoinedKids(right: Source, on: Option<Expr>): seq<Statement> {
    [EncodeSource(right)] + EncodeCondition(on)
  }

  /** What one JOIN node holds: its source and a bare condition. */
  lemma {:induction false} EncodedJoinLevel(right: Source, on: Option<Expr>)
    ensures forall s :: s in JoinedKids(right, on) ==> BareOrTable(s)
    ensures TableTags(JoinedKids(right, on)) == TableTags([EncodeSource(right)])
  {
    EncodedSourceFlat(right);
    EncodedConditionBare(on);
    TableTagsAppend([EncodeSource(right)], EncodeCondition(on));
    TableTagsBare(EncodeCondition(on));
  }

  lemma {:induction false} SourceTags(t: Tenancy, source: Source)
    ensures AllPredicates(t, TableTags([EncodeSource(source)])) == SourcePredicates(t, source)
  {
    EncodedSourceFlat(source);
  }

  lemma {:induction false} AllPredicatesAppend(t: Tenancy, a: seq<Tag>, b: seq<Tag>)
    ensures AllPredicates(t, a + b) == AllPredicates(t, a) + AllPredicates(t, b)
  {
    if |a| == 0 {
      assert a + b == b;
    } else {
      assert (a + b)[1..] == a[1..] + b;
      AllPredicatesAppend(t, a[1..], b);
    }
  }

  lemma {:induction false} BareBelow<A(!new)>(ss: seq<Tree<A>>)
    requires forall s :: s in ss ==> Bare(s)
    ensures forall s :: s in Below(ss) ==> Bare(s)
  {
    if |ss| != 0 {
      assert ss[0] in ss;
      BareBelow(ss[1..]);
    }
  }

  function Clauses(q: Query): seq<Statement>
    requires q.Select?
  {
    [Parent(WhereTag, EncodeCondition(q.where)),
     Parent(WithTag, EncodeCtes(q.ctes)),
     Parent(GroupTag(q.grouping.Grouped?), EncodeGrouping(q.grouping)),
     Parent(HavingTag, EncodeCondition(q.having)),
     Parent(OrderTag, EncodeExprs(q.order))]
  }

  lemma ClausesBare(q: Query)
    requires q.Select?
    ensures forall s :: s in Clauses(q) ==> Bare(s)
  {
    EncodedConditionBare(q.where);
    EncodedCtesBare(q.ctes);
    if q.grouping.Grouped? {
      EncodedExprsBare(q.grouping.keys);
    }
    EncodedConditionBare(q.having);
    EncodedExprsBare(q.order);
  }

  /** The search for a SELECT's tables finds exactly its FROM chain, left to right. */
  lemma {:induction false} ScanSelect(t: Tenancy, q: Query)
    requires q.Select?
    ensures AllPredicates(t, Scan(EncodeQuery(q).kids)) == Predicates(t, q.from)
  {
    var head, from, items := Clauses(q), EncodeFrom(q.from), EncodeExprs(q.items);
    var kids := head + from + items;
    assert EncodeQuery(q).kids == kids;
    ClausesBare(q);
    EncodedExprsBare(q.items);
    EncodedFromLevel(t, q.from);
    TableTagsBare(head);
    TableTagsBare(items);
    TableTagsAppend(head + from, items);
    TableTagsAppend(head, from);
    BelowAppend(head + from, items);
    BelowAppend(head, from);
    BareBelow(head);
    BareBelow(items);
    ScanLevel(kids, []);
    assert kids + [] == kids && [] + Below(kids) == Below(kids);
    var level := Below(head) + Below(from) + Below(items);
    assert Below(kids) == level;
    forall s | s in level
      ensures BareOrTable(s)
    {
      assert s in Below(head) || s in Below(from) || s in Below(items);
    }
    ScanFlat(level);
    TableTagsAppend(Below(head) + Below(from), Below(items));
    TableTagsAppend(Below(head), Below(from));
    TableTagsBare(Below(head));
    TableTagsBare(Below(items));
    assert Scan(kids) == TableTags(Below(from));
  }

  // ----- the tree rewrite is the query rewrite -----

  lemma {:induction false} EncodedConjoin(where: Option<Expr>, ps: seq<Expr>)
    ensures AttachAll(Parent(WhereTag, EncodeCondition(where)), ps)
         == Parent(WhereTag, EncodeCondition(Conjoin(where, ps)))
    decreases |ps|
  {
    if |ps| != 0 {
      var grown := if where.Some? then Both(where.value, ps[0]) else ps[0];
      assert Attach(Parent(WhereTag, EncodeCondition(where)), EncodeExpr(ps[0]), ())
          == Parent(WhereTag, EncodeCondition(Some(grown)));
      EncodedConjoin(Some(grown), ps[1..]);
    }
  }

  lemma {:induction false} ApplyKeepsLength(m: Mode, t: Tenancy, es: List<Expr>)
    ensures Length(ApplyExprs(m, t, es)) == Length(es)
  {
    if es.Cons? {
      ApplyKeepsLength(m, t, es.tail);
    }
  }

  lemma {:induction false} RewriteParent(t: Tenancy, tag: Tag, kids: seq<Statement>)
    requires !tag.SelectTag?
    ensures RewriteTree(t, Parent(tag, kids)) == Parent(tag, RewriteTrees(t, kids))
  {
  }

  lemma {:induction false} RewriteOne(t: Tenancy, tag: Tag, a: Statement)
    requires !tag.SelectTag?
    ensures RewriteTree(t, Parent(tag, [a])) == Parent(tag, [RewriteTree(t, a)])
  {
    RewriteParent(t, tag, [a]);
    assert RewriteTrees(t, [a]) == [RewriteTree(t, a)];
  }

  lemma {:induction false} RewriteTwo(t: Tenancy, tag: Tag, a: Statement, b: Statement)
    requires !tag.SelectTag?
    ensures RewriteTree(t, Parent(tag, [a, b])) == Parent(tag, [RewriteTree(t, a), RewriteTree(t, b)])
  {
    RewriteParent(t, tag, [a, b]);
    assert RewriteTrees(t, [a, b]) == [RewriteTree(t, a), RewriteTree(t, b)];
  }

  lemma {:induction false} EncodedRewriteExpr(t: Tenancy, e: Expr)
    ensures RewriteTree(t, EncodeExpr(e)) == EncodeExpr(ApplyExpr(FILTERS, t, e))
  {
    match e
    case Column(_, _) =>
    case Literal(_) =>
    case Call(f, args) => EncodedRewriteExprs(t, args); RewriteParent(t, FunctionTag(f, false), EncodeExprs(args));
    case Equals(_, _) => EncodedRewriteBinary(t, e);
    case Both(_, _) => EncodedRewriteBinary(t, e);
    case Either(_, _) => EncodedRewriteBinary(t, e);
    case Negated(_) => EncodedRewriteUnary(t, e);
    case IsNull(_) => EncodedRewriteUnary(t, e);
    case Aggregate(_, _) => EncodedRewriteUnary(t, e);
    case CountStar => RewriteOne(t, FunctionTag("count", true), Leaf(StarTag));
    case Alias(_, _) => EncodedRewriteUnary(t, e);
    case Exists(_) => EncodedRewriteSubquery(t, e);
    case In(_, _) => EncodedRewriteSubquery(t, e);
    case Scalar(_) => EncodedRewriteSubquery(t, e);
  }

  lemma {:induction false} EncodedRewriteBinary(t: Tenancy, e: Expr)
    requires e.Equals? || e.Both? || e.Either?
    ensures RewriteTree(t, EncodeExpr(e)) == EncodeExpr(ApplyExpr(FILTERS, t, e))
    decreases t, e, 0
  {
    EncodedRewriteExpr(t, e.left);
    EncodedRewriteExpr(t, e.right);
    RewriteTwo(t, EncodeExpr(e).tag, EncodeExpr(e.left), EncodeExpr(e.right));
  }

  lemma {:induction false} EncodedRewriteUnary(t: Tenancy, e: Expr)
    requires e.Negated? || e.IsNull? || e.Aggregate? || e.Alias?
    ensures RewriteTree(t, EncodeExpr(e)) == EncodeExpr(ApplyExpr(FILTERS, t, e))
    decreases t, e, 0
  {
    EncodedRewriteExpr(t, e.operand);
    RewriteOne(t, EncodeExpr(e).tag, EncodeExpr(e.operand));
  }

  lemma {:induction false} EncodedRewriteSubquery(t: Tenancy, e: Expr)
    requires e.Exists? || e.In? || e.Scalar?
    ensures RewriteTree(t, EncodeExpr(e)) == EncodeExpr(ApplyExpr(FILTERS, t, e))
    decreases t, e, 0
  {
    var sub := EncodeQuery(e.query);
    EncodedRewriteQuery(t, e.query);
    match e
    case Exists(_) => RewriteOne(t, FunctionTag("exists", false), sub);
    case In(x, _) =>
      EncodedRewriteExpr(t, x);
      RewriteOne(t, SubqueryTag("", NoLimit), sub);
      RewriteTwo(t, InTag, EncodeExpr(x), Parent(SubqueryTag("", NoLimit), [sub]));
    case Scalar(_) => RewriteOne(t, SubqueryTag("", NoLimit), sub);
  }

  lemma {:induction false} EncodedRewriteExprs(t: Tenancy, es: List<Expr>)
    ensures RewriteTrees(t, EncodeExprs(es)) == EncodeExprs(ApplyExprs(FILTERS, t, es))
  {
    if es.Cons? {
      EncodedRewriteExpr(t, es.head);
      EncodedRewriteExprs(t, es.tail);
    }
  }

  lemma {:induction false} EncodedRewriteCondition(t: Tenancy, c: Option<Expr>)
    ensures RewriteTrees(t, EncodeCondition(c)) == EncodeCondition(ApplyCondition(FILTERS, t, c))
  {
    match c
    case None =>
    case Some(e) => EncodedRewriteExpr(t, e);
  }

  lemma {:induction false} EncodedRewriteSource(t: Tenancy, source: Source)
    ensures RewriteTree(t, EncodeSource(source)) == EncodeSource(ApplySource(FILTERS, t, source))
  {
    match source
    case Table(_, _, _, _) =>
    case Derived(q, alias) => EncodedRewriteQuery(t, q); RewriteOne(t, SubqueryTag(alias, NoLimit), EncodeQuery(q));
  }

  lemma {:induction false} EncodedRewriteFrom(t: Tenancy, from: From)
    ensures RewriteTrees(t, EncodeFrom(from)) == EncodeFrom(ApplyFrom(FILTERS, t, from))
  {
    match from
    case Nowhere =>
    case Single(source) =>
      EncodedRewriteSource(t, source);
      RewriteOne(t, FromTag, EncodeSource(source));
    case Joined(left, kind, right, on) =>
      EncodedRewriteFrom(t, left);
      EncodedRewriteSource(t, right);
      EncodedRewriteCondition(t, on);
      var node := Parent(JoinTag(kind, false, on.Some?), [EncodeSource(right)] + EncodeCondition(on));
      RewriteTreesAppend(t, EncodeFrom(left), [node]);
      RewriteTreesAppend(t, [EncodeSource(right)], EncodeCondition(on));
  }

  lemma {:induction false} EncodedRewriteCtes(t: Tenancy, list: List<Cte>)
    ensures RewriteTrees(t, EncodeCtes(list)) == EncodeCtes(ApplyCtes(FILTERS, t, list))
  {
    match list
    case Nil =>
    case Cons(cte, rest) =>
      EncodedRewriteQuery(t, cte.query);
      EncodedRewriteCtes(t, rest);
      RewriteOne(t, CteTag(cte.name), EncodeQuery(cte.query));
      RewriteTreesAppend(t, [Parent(CteTag(cte.name), [EncodeQuery(cte.query)])], EncodeCtes(rest));
  }

  lemma {:induction false} EncodedRewriteGrouping(t: Tenancy, g: Grouping)
    ensures RewriteTrees(t, EncodeGrouping(g)) == EncodeGrouping(ApplyGrouping(FILTERS, t, g))
  {
    match g
    case PerRow =>
    case Grouped(keys) => EncodedRewriteExprs(t, keys);
  }

  /** Rewriting the tree of a query gives the tree of the rewritten query. */
  lemma {:induction false} EncodedRewriteQuery(t: Tenancy, q: Query)
    ensures RewriteTree(t, EncodeQuery(q)) == EncodeQuery(Rewrite(t, q))
  {
    match q
    case Select(ctes, _, items, from, where, grouping, having, order, _) =>
      EncodedRewriteCtes(t, ctes);
      EncodedRewriteExprs(t, items);
      EncodedRewriteFrom(t, from);
      EncodedRewriteCondition(t, where);
      EncodedRewriteGrouping(t, grouping);
      EncodedRewriteCondition(t, having);
      EncodedRewriteExprs(t, order);
      EncodedSelect(t, q);
    case SetOperation(ctes, _, left, right, _) =>
      EncodedRewriteCtes(t, ctes);
      EncodedRewriteQuery(t, left);
      EncodedRewriteQuery(t, right);
      EncodedSetOperation(t, q);
  }

  /** A set operation whose parts already agree. */
  lemma {:induction false} EncodedSetOperation(t: Tenancy, q: Query)
    requires q.SetOperation?
    requires RewriteTrees(t, EncodeCtes(q.ctes)) == EncodeCtes(ApplyCtes(FILTERS, t, q.ctes))
    requires RewriteTree(t, EncodeQuery(q.left)) == EncodeQuery(Rewrite(t, q.left))
    requires RewriteTree(t, EncodeQuery(q.right)) == EncodeQuery(Rewrite(t, q.right))
    ensures RewriteTree(t, EncodeQuery(q)) == EncodeQuery(Rewrite(t, q))
  {
    RewriteParent(t, WithTag, EncodeCtes(q.ctes));
    RewriteThree(t, SetOperationTag(q.operator, q.limit), Parent(WithTag, EncodeCtes(q.ctes)), EncodeQuery(q.left),
                 EncodeQuery(q.right));
  }

  lemma {:induction false} RewriteThree(t: Tenancy, tag: Tag, a: Statement, b: Statement, c: Statement)
    requires !tag.SelectTag?
    ensures RewriteTree(t, Parent(tag, [a, b, c]))
         == Parent(tag, [RewriteTree(t, a), RewriteTree(t, b), RewriteTree(t, c)])
  {
  }

  /** A SELECT whose clauses already agree. */
  lemma {:induction false} EncodedSelect(t: Tenancy, q: Query)
    requires q.Select?
    requires RewriteTrees(t, EncodeCtes(q.ctes)) == EncodeCtes(ApplyCtes(FILTERS, t, q.ctes))
    requires RewriteTrees(t, EncodeExprs(q.items)) == EncodeExprs(ApplyExprs(FILTERS, t, q.items))
    requires RewriteTrees(t, EncodeFrom(q.from)) == EncodeFrom(ApplyFrom(FILTERS, t, q.from))
    requires RewriteTrees(t, EncodeCondition(q.where)) == EncodeCondition(ApplyCondition(FILTERS, t, q.where))
    requires RewriteTrees(t, EncodeGrouping(q.grouping)) == EncodeGrouping(ApplyGrouping(FILTERS, t, q.grouping))
    requires RewriteTrees(t, EncodeCondition(q.having)) == EncodeCondition(ApplyCondition(FILTERS, t, q.having))
    requires RewriteTrees(t, EncodeExprs(q.order)) == EncodeExprs(ApplyExprs(FILTERS, t, q.order))
    ensures RewriteTree(t, EncodeQuery(q)) == EncodeQuery(Rewrite(t, q))
  {
    var q' := Rewrite(t, q);
    var head, from, items := Clauses(q), EncodeFrom(q.from), EncodeExprs(q.items);
    var tag := SelectTag(Length(q.items), q.distinct, q.limit);
    SelectReads(q);
    SelectReads(q');
    ApplyKeepsLength(FILTERS, t, q.items);
    RewriteTreesAppend(t, head + from, items);
    RewriteTreesAppend(t, head, from);
    EncodedClauses(t, q);
    ScanSelect(t, q);
    RewriteSelect(t, tag, head + from + items, Predicates(t, q.from));
    EncodedConjoin(ApplyCondition(FILTERS, t, q.where), Predicates(t, q.from));
    WhereReplaced(q', Parent(WhereTag, EncodeCondition(ApplyCondition(FILTERS, t, q.where))));
  }

  lemma {:induction false} SelectReads(q: Query)
    requires q.Select?
    ensures EncodeQuery(q) == Parent(SelectTag(Length(q.items), q.distinct, q.limit),
                                     Clauses(q) + EncodeFrom(q.from) + EncodeExprs(q.items))
  {
  }

  lemma {:induction false} RewriteSelect(t: Tenancy, tag: Tag, kids: seq<Statement>, ps: seq<Expr>)
    requires tag.SelectTag? && |kids| != 0 && ps == AllPredicates(t, Scan(kids))
    ensures RewriteTree(t, Parent(tag, kids))
         == Parent(tag, RewriteTrees(t, kids)[0 := AttachAll(RewriteTrees(t, kids)[0], ps)])
  {
  }

  lemma WhereReplaced(q: Query, where: Statement)
    requires q.Select?
    ensures var kids := Clauses(q)[0 := where] + EncodeFrom(q.from) + EncodeExprs(q.items);
            kids[0] == where && kids[0 := Clauses(q)[0]] == Clauses(q) + EncodeFrom(q.from) + EncodeExprs(q.items)
  {
  }

  lemma {:induction false} EncodedClauses(t: Tenancy, q: Query)
    requires q.Select?
    requires RewriteTrees(t, EncodeCtes(q.ctes)) == EncodeCtes(ApplyCtes(FILTERS, t, q.ctes))
    requires RewriteTrees(t, EncodeCondition(q.where)) == EncodeCondition(ApplyCondition(FILTERS, t, q.where))
    requires RewriteTrees(t, EncodeGrouping(q.grouping)) == EncodeGrouping(ApplyGrouping(FILTERS, t, q.grouping))
    requires RewriteTrees(t, EncodeCondition(q.having)) == EncodeCondition(ApplyCondition(FILTERS, t, q.having))
    requires RewriteTrees(t, EncodeExprs(q.order)) == EncodeExprs(ApplyExprs(FILTERS, t, q.order))
    ensures RewriteTrees(t, Clauses(q))
         == Clauses(Rewrite(t, q))[0 := Parent(WhereTag, EncodeCondition(ApplyCondition(FILTERS, t, q.where)))]
  {
    RewriteParent(t, WhereTag, EncodeCondition(q.where));
    RewriteParent(t, WithTag, EncodeCtes(q.ctes));
    RewriteParent(t, GroupTag(q.grouping.Grouped?), EncodeGrouping(q.grouping));
    RewriteParent(t, HavingTag, EncodeCondition(q.having));
    RewriteParent(t, OrderTag, EncodeExprs(q.order));
    FiveRewritten(t, Clauses(q), Clauses(Rewrite(t, q))[0 := RewriteTree(t, Clauses(q)[0])]);
  }

  lemma {:induction false} FiveRewritten(t: Tenancy, before: seq<Statement>, after: seq<Statement>)
    requires |before| == |after| == 5
    requires after[0] == RewriteTree(t, before[0]) && after[1] == RewriteTree(t, before[1])
    requires after[2] == RewriteTree(t, before[2]) && after[3] == RewriteTree(t, before[3])
    requires after[4] == RewriteTree(t, before[4])
    ensures RewriteTrees(t, before) == after
  {
    var done := RewriteTrees(t, before);
    forall i | 0 <= i < 5
      ensures done[i] == after[i]
    {
      assert i == 0 || i == 1 || i == 2 || i == 3 || i == 4;
    }
  }
}
