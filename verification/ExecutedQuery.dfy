/** The query that is executed, validated, permitted and rewritten: what its result depends on. */
module ExecutedQuery {
  import opened Collections
  import opened Values
  import opened Schemas
  import opened Syntax
  import opened Evaluator
  import opened StatementTree
  import opened Encoding
  import opened ValidatorSpec
  import opened Policy
  import opened TenantRewrite
  import opened TenantMeaning
  import opened TenantTheorem
  import opened Independence
  import opened IndependenceTheorem
  import opened Coverage

  // ----- narrowing mentions nothing new -----

  ghost predicate TreesOk(k: Knowledge, ts: seq<Statement>) {
    forall t :: t in ts ==> AllOk(k, t)
  }

  lemma {:induction false} ParentOk(k: Knowledge, tag: Tag, kids: seq<Statement>)
    requires TagOk(k, tag) && TreesOk(k, kids)
    ensures AllOk(k, Parent(tag, kids))
  {
    forall i | 0 <= i < |kids|
      ensures AllOk(k, kids[i])
    {
      assert kids[i] in kids;
    }
  }

  lemma {:induction false} NarrowExprOk(k: Knowledge, t: Tenancy, e: Expr)
    requires AllOk(k, EncodeExpr(e))
    ensures AllOk(k, EncodeExpr(ApplyExpr(NARROWS, t, e)))
  {
    match e
    case Column(_, _) =>
    case Literal(_) =>
    case Call(f, args) =>
      KidsOk(k, EncodeExpr(e));
      NarrowExprsOk(k, t, args);
      ParentOk(k, FunctionTag(f, false), EncodeExprs(ApplyExprs(NARROWS, t, args)));
    case Equals(_, _) => NarrowBinaryOk(k, t, e);
    case Both(_, _) => NarrowBinaryOk(k, t, e);
    case Either(_, _) => NarrowBinaryOk(k, t, e);
    case Negated(_) => NarrowUnaryOk(k, t, e);
    case IsNull(_) => NarrowUnaryOk(k, t, e);
    case Aggregate(_, _) => NarrowUnaryOk(k, t, e);
    case CountStar =>
    case Alias(_, _) => NarrowUnaryOk(k, t, e);
    case Exists(_) => NarrowSubqueryOk(k, t, e);
    case In(_, _) => NarrowSubqueryOk(k, t, e);
    case Scalar(_) => NarrowSubqueryOk(k, t, e);
  }

  lemma {:induction false} NarrowBinaryOk(k: Knowledge, t: Tenancy, e: Expr)
    requires AllOk(k, EncodeExpr(e)) && (e.Equals? || e.Both? || e.Either?)
    ensures AllOk(k, EncodeExpr(ApplyExpr(NARROWS, t, e)))
    decreases k, t, e, 0
  {
    AgreeTwo(k, e, e.left, e.right);
    NarrowExprOk(k, t, e.left);
    NarrowExprOk(k, t, e.right);
    var e' := ApplyExpr(NARROWS, t, e);
    ParentOk(k, EncodeExpr(e').tag, [EncodeExpr(e'.left), EncodeExpr(e'.right)]);
  }

  lemma {:induction false} NarrowUnaryOk(k: Knowledge, t: Tenancy, e: Expr)
    requires AllOk(k, EncodeExpr(e)) && (e.Negated? || e.IsNull? || e.Aggregate? || e.Alias?)
    ensures AllOk(k, EncodeExpr(ApplyExpr(NARROWS, t, e)))
    decreases k, t, e, 0
  {
    AgreeOne(k, e, e.operand);
    NarrowExprOk(k, t, e.operand);
    var e' := ApplyExpr(NARROWS, t, e);
    ParentOk(k, EncodeExpr(e').tag, [EncodeExpr(e'.operand)]);
  }

  lemma {:induction false} NarrowSubqueryOk(k: Knowledge, t: Tenancy, e: Expr)
    requires AllOk(k, EncodeExpr(e)) && (e.Exists? || e.In? || e.Scalar?)
    ensures AllOk(k, EncodeExpr(ApplyExpr(NARROWS, t, e)))
    decreases k, t, e, 0
  {
    SubqueryOk(k, e);
    NarrowQueryOk(k, t, e.query);
    var sub := [EncodeQuery(Narrow(t, e.query))];
    match e
    case Exists(_) => ParentOk(k, FunctionTag("exists", false), sub);
    case In(x, _) =>
      NarrowExprOk(k, t, x);
      ParentOk(k, SubqueryTag("", NoLimit), sub);
      ParentOk(k, InTag, [EncodeExpr(ApplyExpr(NARROWS, t, x)), Parent(SubqueryTag("", NoLimit), sub)]);
    case Scalar(_) => ParentOk(k, SubqueryTag("", NoLimit), sub);
  }

  lemma {:induction false} NarrowExprsOk(k: Knowledge, t: Tenancy, es: List<Expr>)
    requires ListOk(k, es)
    ensures ListOk(k, ApplyExprs(NARROWS, t, es))
  {
    if es.Cons? {
      ListOkCons(k, es);
      NarrowExprOk(k, t, es.head);
      NarrowExprsOk(k, t, es.tail);
    }
  }

  lemma {:induction false} NarrowConditionOk(k: Knowledge, t: Tenancy, c: Option<Expr>)
    requires ConditionOk(k, c)
    ensures ConditionOk(k, ApplyCondition(NARROWS, t, c))
  {
    match c
    case None =>
    case Some(e) =>
      assert EncodeExpr(e) in EncodeCondition(c);
      NarrowExprOk(k, t, e);
  }

  lemma {:induction false} NarrowSourceOk(k: Knowledge, t: Tenancy, source: Source)
    requires SourceOk(k, source)
    ensures SourceOk(k, ApplySource(NARROWS, t, source))
  {
    match source
    case Table(_, _, _, _) =>
    case Derived(q, alias) =>
      assert EncodeSource(source).kids[0] == EncodeQuery(q);
      NarrowQueryOk(k, t, q);
      ParentOk(k, SubqueryTag(alias, NoLimit), [EncodeQuery(Narrow(t, q))]);
  }

  lemma {:induction false} NarrowFromOk(k: Knowledge, t: Tenancy, from: From)
    requires FromOk(k, from)
    ensures TreesOk(k, EncodeFrom(ApplyFrom(NARROWS, t, from)))
  {
    match from
    case Nowhere =>
    case Single(source) =>
      NarrowSourceOk(k, t, source);
      ParentOk(k, FromTag, [EncodeSource(ApplySource(NARROWS, t, source))]);
    case Joined(left, kind, right, on) =>
      NarrowFromOk(k, t, left);
      NarrowSourceOk(k, t, right);
      NarrowConditionOk(k, t, on);
      var from' := ApplyFrom(NARROWS, t, from);
      ParentOk(k, JoinTag(from'.kind, false, on.Some?), [EncodeSource(from'.right)] + EncodeCondition(from'.on));
  }

  lemma {:induction false} NarrowCtesOk(k: Knowledge, t: Tenancy, list: List<Cte>)
    requires CtesOk(k, list)
    ensures TreesOk(k, EncodeCtes(ApplyCtes(NARROWS, t, list)))
  {
    match list
    case Nil =>
    case Cons(cte, rest) =>
      NarrowQueryOk(k, t, cte.query);
      NarrowCtesOk(k, t, rest);
      ParentOk(k, CteTag(cte.name), [EncodeQuery(Narrow(t, cte.query))]);
  }

  lemma {:induction false} NarrowGroupingOk(k: Knowledge, t: Tenancy, g: Grouping)
    requires g.Grouped? ==> ListOk(k, g.keys)
    ensures ApplyGrouping(NARROWS, t, g).Grouped? ==> ListOk(k, ApplyGrouping(NARROWS, t, g).keys)
  {
    match g
    case PerRow =>
    case Grouped(keys) => NarrowExprsOk(k, t, keys);
  }

  lemma {:induction false} NarrowQueryOk(k: Knowledge, t: Tenancy, q: Query)
    requires AllOk(k, EncodeQuery(q))
    ensures AllOk(k, EncodeQuery(Narrow(t, q)))
  {
    match q
    case Select(list, _, items, from, where, grouping, having, order, _) =>
      SelectParts(k, q);
      NarrowCtesOk(k, t, list);
      NarrowExprsOk(k, t, items);
      NarrowFromOk(k, t, from);
      NarrowConditionOk(k, t, where);
      NarrowConditionOk(k, t, having);
      NarrowExprsOk(k, t, order);
      NarrowGroupingOk(k, t, grouping);
      assert Narrow(t, q).grouping == ApplyGrouping(NARROWS, t, grouping);
      SelectOk(k, Narrow(t, q));
    case SetOperation(list, _, left, right, _) =>
      SetParts(k, q);
      NarrowCtesOk(k, t, list);
      NarrowQueryOk(k, t, left);
      NarrowQueryOk(k, t, right);
      var tree' := EncodeQuery(Narrow(t, q));
      ParentOk(k, WithTag, EncodeCtes(Narrow(t, q).ctes));
      ParentOk(k, tree'.tag, tree'.kids);
  }

  lemma {:induction false} SelectOk(k: Knowledge, q: Query)
    requires q.Select?
    requires TreesOk(k, EncodeCtes(q.ctes)) && ListOk(k, q.items) && TreesOk(k, EncodeFrom(q.from))
    requires ConditionOk(k, q.where) && ConditionOk(k, q.having) && ListOk(k, q.order)
    requires q.grouping.Grouped? ==> ListOk(k, q.grouping.keys)
    ensures AllOk(k, EncodeQuery(q))
  {
    var tree := EncodeQuery(q);
    ParentOk(k, WhereTag, EncodeCondition(q.where));
    ParentOk(k, WithTag, EncodeCtes(q.ctes));
    ParentOk(k, GroupTag(q.grouping.Grouped?), EncodeGrouping(q.grouping));
    ParentOk(k, HavingTag, EncodeCondition(q.having));
    ParentOk(k, OrderTag, EncodeExprs(q.order));
    ParentOk(k, tree.tag, tree.kids);
  }

  // ----- the tenant's rows of alike databases -----

  /** The databases agree on every tenant column. */
  ghost predicate SameTenantColumns(a: Database, b: Database) {
    forall info :: info in a && info in b && info.tenantColumn.Some? ==>
      && |a[info]| == |b[info]|
      && forall i :: 0 <= i < |a[info]| ==>
           Cell(info, a[info][i], info.tenantColumn.value) == Cell(info, b[info][i], info.tenantColumn.value)
  }

  lemma {:induction false} OwnRowsAlike(k: Knowledge, tenant: Value, info: TableInfo, column: string, xs: seq<Row>,
                                        ys: seq<Row>)
    requires AlikeRows(k, info, xs, ys)
    requires forall i :: 0 <= i < |xs| ==> Cell(info, xs[i], column) == Cell(info, ys[i], column)
    ensures AlikeRows(k, info, Filter(xs, OwnTest(tenant, info, column)), Filter(ys, OwnTest(tenant, info, column)))
  {
    if |xs| != 0 {
      assert Cell(info, xs[0], column) == Cell(info, ys[0], column);
      assert OwnTest(tenant, info, column)(xs[0]) == OwnTest(tenant, info, column)(ys[0]);
      forall i | 0 <= i < |xs[1..]|
        ensures Cell(info, xs[1..][i], column) == Cell(info, ys[1..][i], column)
      {
        assert xs[1..][i] == xs[i + 1] && ys[1..][i] == ys[i + 1];
      }
      forall i, c | 0 <= i < |xs[1..]| && k.readable(info, c)
        ensures Cell(info, xs[1..][i], c) == Cell(info, ys[1..][i], c)
      {
        assert xs[1..][i] == xs[i + 1] && ys[1..][i] == ys[i + 1];
      }
      OwnRowsAlike(k, tenant, info, column, xs[1..], ys[1..]);
    }
  }

  lemma OwnAlike(k: Knowledge, t: Tenancy, s: Store, r: Store)
    requires AlikeStores(k, s, r) && SameTenantColumns(s.db, r.db)
    ensures AlikeStores(k, Own(s, t), Own(r, t))
  {
    forall info | info in s.db
      ensures AlikeRows(k, info, OwnRows(t.tenant, info, s.db[info]), OwnRows(t.tenant, info, r.db[info]))
    {
      if info.tenantColumn.Some? && info.tenantColumn.value != "" {
        OwnRowsAlike(k, t.tenant, info, info.tenantColumn.value, s.db[info], r.db[info]);
      }
    }
  }

  /** The result of the executed query depends only on the tenant's own rows, and in them only on
      columns the caller may view: databases alike in that part give the same result. */
  lemma {:induction false} ExecutedDependsOnlyOn(c: Config, p: PolicyConfig, t: Tenancy, roles: set<string>, q: Query,
                                                 s: Store, r: Store)
    requires WellNamed(t.schema) && FairShuffle(c) && CleanScopes(c, t.schema, Tags(EncodeQuery(q)))
    requires GoodQuery(t.schema, q) && s.schema == r.schema == t.schema
    requires Permitted(p, t.schema, roles, ReferencedTables(c, t.schema, EncodeQuery(q)),
                       ReferencedColumns(c, t.schema, EncodeQuery(q)))
    requires AlikeStores(KnowledgeOf(c, t.schema, roles, Tags(EncodeQuery(q))), Own(s, t), Own(r, t))
    ensures EvalQuery(s, map[], [], Rewrite(t, q)) == EvalQuery(r, map[], [], Rewrite(t, q))
  {
    var k := KnowledgeOf(c, t.schema, roles, Tags(EncodeQuery(q)));
    AcceptedAllOk(c, p, t.schema, roles, EncodeQuery(q));
    NarrowQueryOk(k, t, q);
    RewriteQuery(s, t, map[], [], q);
    RewriteQuery(r, t, map[], [], q);
    AgreeQuery(k, Own(s, t), Own(r, t), map[], [], [], Narrow(t, q));
  }

  /** In terms of the whole databases: if they agree on every column the caller may view and on every
      tenant column, row by row, the executed query gives the same result. */
  lemma {:induction false} ExecutedDependsOnColumns(c: Config, p: PolicyConfig, t: Tenancy, roles: set<string>,
                                                    q: Query, s: Store, r: Store)
    requires WellNamed(t.schema) && FairShuffle(c) && CleanScopes(c, t.schema, Tags(EncodeQuery(q)))
    requires GoodQuery(t.schema, q) && s.schema == r.schema == t.schema
    requires Permitted(p, t.schema, roles, ReferencedTables(c, t.schema, EncodeQuery(q)),
                       ReferencedColumns(c, t.schema, EncodeQuery(q)))
    requires AlikeStores(KnowledgeOf(c, t.schema, roles, Tags(EncodeQuery(q))), s, r)
    requires SameTenantColumns(s.db, r.db)
    ensures EvalQuery(s, map[], [], Rewrite(t, q)) == EvalQuery(r, map[], [], Rewrite(t, q))
  {
    OwnAlike(KnowledgeOf(c, t.schema, roles, Tags(EncodeQuery(q))), t, s, r);
    ExecutedDependsOnlyOn(c, p, t, roles, q, s, r);
  }
}
