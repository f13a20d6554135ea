/** What running an accepted query returns. */
module GateMeaning {
  import opened Collections
  import opened Schemas
  import opened Syntax
  import opened Evaluator
  import opened StatementTree
  import opened Encoding
  import opened ValidatorSpec
  import opened TenantRewrite
  import opened TenantMeaning
  import opened TenantTheorem
  import opened TreeRewrite
  import opened Placement
  import opened Independence
  import opened Coverage
  import opened ExecutedQuery
  import opened Limits
  import opened LimitFacts
  import opened GateSpec
  import opened UnnarrowedJoins

  // ----- the statement of a query has the shape updates rely on -----

  ghost predicate AllShaped(ts: seq<Statement>) {
    forall i :: 0 <= i < |ts| ==> Shaped(ts[i])
  }

  lemma ShapedParent(tag: Tag, kids: seq<Statement>)
    requires !tag.SelectTag? && AllShaped(kids)
    ensures Shaped(Parent(tag, kids))
  {
  }

  lemma {:induction false} ShapedExpr(e: Expr)
    ensures Shaped(EncodeExpr(e))
    decreases e, 1
  {
    match e
    case Column(_, _) =>
    case Literal(_) =>
    case Call(f, args) => ShapedExprs(args); ShapedParent(FunctionTag(f, false), EncodeExprs(args));
    case Equals(_, _) => ShapedBinary(e);
    case Both(_, _) => ShapedBinary(e);
    case Either(_, _) => ShapedBinary(e);
    case Negated(_) => ShapedUnary(e);
    case IsNull(_) => ShapedUnary(e);
    case Aggregate(_, _) => ShapedUnary(e);
    case CountStar => ShapedOne(FunctionTag("count", true), Leaf(StarTag));
    case Alias(_, _) => ShapedUnary(e);
    case Exists(q) => ShapedQuery(q); ShapedOne(FunctionTag("exists", false), EncodeQuery(q));
    case In(x, q) =>
      ShapedExpr(x);
      ShapedQuery(q);
      ShapedOne(SubqueryTag("", NoLimit), EncodeQuery(q));
      ShapedTwo(InTag, EncodeExpr(x), Parent(SubqueryTag("", NoLimit), [EncodeQuery(q)]));
    case Scalar(q) => ShapedQuery(q); ShapedOne(SubqueryTag("", NoLimit), EncodeQuery(q));
  }

  lemma {:induction false} ShapedBinary(e: Expr)
    requires e.Equals? || e.Both? || e.Either?
    ensures Shaped(EncodeExpr(e))
    decreases e, 0
  {
    ShapedExpr(e.left);
    ShapedExpr(e.right);
    ShapedTwo(EncodeExpr(e).tag, EncodeExpr(e.left), EncodeExpr(e.right));
  }

  lemma {:induction false} ShapedUnary(e: Expr)
    requires e.Negated? || e.IsNull? || e.Aggregate? || e.Alias?
    ensures Shaped(EncodeExpr(e))
    decreases e, 0
  {
    ShapedExpr(e.operand);
    ShapedOne(EncodeExpr(e).tag, EncodeExpr(e.operand));
  }

  lemma {:induction false} ShapedOne(tag: Tag, kid: Statement)
    requires !tag.SelectTag? && Shaped(kid)
    ensures Shaped(Parent(tag, [kid]))
  {
    ShapedParent(tag, [kid]);
  }

  lemma {:induction false} ShapedTwo(tag: Tag, a: Statement, b: Statement)
    requires !tag.SelectTag? && Shaped(a) && Shaped(b)
    ensures Shaped(Parent(tag, [a, b]))
  {
    ShapedParent(tag, [a, b]);
  }

  lemma {:induction false} ShapedExprs(es: List<Expr>)
    ensures AllShaped(EncodeExprs(es))
  {
    if es.Cons? {
      ShapedExpr(es.head);
      ShapedExprs(es.tail);
    }
  }

  lemma {:induction false} ShapedSource(source: Source)
    ensures Shaped(EncodeSource(source))
  {
    match source
    case Table(_, _, _, _) =>
    case Derived(q, alias) => ShapedQuery(q); ShapedParent(SubqueryTag(alias, NoLimit), [EncodeQuery(q)]);
  }

  lemma {:induction false} ShapedFrom(from: From)
    ensures AllShaped(EncodeFrom(from))
  {
    match from
    case Nowhere =>
    case Single(source) => ShapedSource(source); ShapedParent(FromTag, [EncodeSource(source)]);
    case Joined(left, kind, right, on) =>
      ShapedFrom(left);
      ShapedSource(right);
      if on.Some? {
        ShapedExpr(on.value);
      }
      ShapedParent(JoinTag(kind, false, on.Some?), [EncodeSource(right)] + EncodeCondition(on));
  }

  lemma {:induction false} ShapedCtes(list: List<Cte>)
    ensures AllShaped(EncodeCtes(list))
  {
    match list
    case Nil =>
    case Cons(cte, rest) =>
      ShapedQuery(cte.query);
      ShapedParent(CteTag(cte.name), [EncodeQuery(cte.query)]);
      ShapedCtes(rest);
  }

  lemma {:induction false} ShapedQuery(q: Query)
    ensures Shaped(EncodeQuery(q))
  {
    match q
    case Select(list, _, items, from, where, grouping, having, order, _) =>
      ShapedCondition(where);
      ShapedCondition(having);
      ShapedGrouping(grouping);
      ShapedCtes(list);
      ShapedExprs(order);
      ShapedFrom(from);
      ShapedExprs(items);
      ShapedSelect(q);
    case SetOperation(list, operator, left, right, limit) =>
      ShapedCtes(list);
      ShapedQuery(left);
      ShapedQuery(right);
      ShapedParent(WithTag, EncodeCtes(list));
      ShapedParent(SetOperationTag(operator, limit),
                   [Parent(WithTag, EncodeCtes(list)), EncodeQuery(left), EncodeQuery(right)]);
  }

  lemma {:induction false} ShapedCondition(c: Option<Expr>)
    ensures AllShaped(EncodeCondition(c))
  {
    match c
    case None =>
    case Some(e) => ShapedExpr(e);
  }

  lemma {:induction false} ShapedGrouping(g: Grouping)
    ensures AllShaped(EncodeGrouping(g))
  {
    match g
    case PerRow =>
    case Grouped(keys) => ShapedExprs(keys);
  }

  /** A SELECT all of whose parts are shaped. */
  lemma {:induction false} ShapedSelect(q: Query)
    requires q.Select? && AllShaped(EncodeCondition(q.where)) && AllShaped(EncodeCondition(q.having))
    requires AllShaped(EncodeGrouping(q.grouping)) && AllShaped(EncodeCtes(q.ctes)) && AllShaped(EncodeExprs(q.order))
    requires AllShaped(EncodeFrom(q.from)) && AllShaped(EncodeExprs(q.items))
    ensures Shaped(EncodeQuery(q))
  {
    ShapedParent(WhereTag, EncodeCondition(q.where));
    ShapedParent(WithTag, EncodeCtes(q.ctes));
    ShapedParent(GroupTag(q.grouping.Grouped?), EncodeGrouping(q.grouping));
    ShapedParent(HavingTag, EncodeCondition(q.having));
    ShapedParent(OrderTag, EncodeExprs(q.order));
    assert AllShaped(Clauses(q));
    assert EncodeQuery(q).kids == Clauses(q) + EncodeFrom(q.from) + EncodeExprs(q.items);
  }

  // ----- the executed query -----

  function Executed(r: Request, q: Query): Query {
    LimitQuery(Rewrite(r.tenancy, q), r.maxRows)
  }

  lemma {:induction false} FinalIsExecuted(r: Request, q: Query)
    ensures Final(r, EncodeQuery(q)) == EncodeQuery(Executed(r, q))
  {
    EncodedRewriteQuery(r.tenancy, q);
    EncodedLimitQuery(Rewrite(r.tenancy, q), r.maxRows);
  }

  lemma RewriteKeepsLimit(t: Tenancy, q: Query, limit: Limit)
    ensures Rewrite(t, q).limit == q.limit
    ensures Rewrite(t, q.(limit := limit)) == Rewrite(t, q).(limit := limit)
    ensures Narrow(t, q.(limit := limit)) == Narrow(t, q).(limit := limit)
  {
  }

  /** An accepted query returns the first rows of its reading on the tenant's own data: no row of
      another tenant, and never more than the bound, so the executor's cap cuts nothing. */
  lemma {:induction false} AcceptedMeaning(g: GateConfig, r: Request, q: Query, s: Store)
    requires r.maxRows < UNKNOWN_LIMIT
    requires Gate(g, r, Parsed([EncodeQuery(q)], false)).Accepted?
    requires GoodQuery(r.tenancy.schema, q) && s.schema == r.tenancy.schema
    ensures Gate(g, r, Parsed([EncodeQuery(q)], false)).final == EncodeQuery(Executed(r, q))
    ensures var rows := EvalQuery(s, map[], [], Executed(r, q));
      && |rows| <= r.maxRows && Take(rows, r.maxRows) == rows
      && rows <= EvalQuery(Own(s, r.tenancy), map[], [], Narrow(r.tenancy, q).(limit := NoLimit))
      && (!q.limit.DynamicLimit? ==>
            rows == Take(EvalQuery(Own(s, r.tenancy), map[], [], Narrow(r.tenancy, q)), r.maxRows))
  {
    var t := r.tenancy;
    AcceptedExactly(g, r, EncodeQuery(q), false);
    FinalIsExecuted(r, q);
    RewriteKeepsLimit(t, q, NoLimit);
    LimitBounds(s, map[], [], Rewrite(t, q), r.maxRows);
    LimitTakes(s, map[], [], Rewrite(t, q), r.maxRows);
    RewriteQuery(s, t, map[], [], q);
    GoodWithoutLimit(t.schema, q);
    RewriteQuery(s, t, map[], [], q.(limit := NoLimit));
  }

  /** Without outer joins that null-extend a tenant table, an accepted query with a literal limit or
      none returns exactly the first rows it has on the tenant's own data. */
  lemma {:induction false} AcceptedExactMeaning(g: GateConfig, r: Request, q: Query, s: Store)
    requires r.maxRows < UNKNOWN_LIMIT
    requires Gate(g, r, Parsed([EncodeQuery(q)], false)).Accepted?
    requires GoodQuery(r.tenancy.schema, q) && s.schema == r.tenancy.schema
    requires QueryJoins(NoLoss, r.tenancy, q) && !q.limit.DynamicLimit?
    ensures EvalQuery(s, map[], [], Executed(r, q))
         == Take(EvalQuery(Own(s, r.tenancy), map[], [], q), r.maxRows)
  {
    UnnarrowedExactly(r.tenancy, q);
    AcceptedMeaning(g, r, q, s);
  }

  lemma GoodWithoutLimit(schema: Schema, q: Query)
    requires GoodQuery(schema, q)
    ensures GoodQuery(schema, q.(limit := NoLimit))
  {
  }

  // ----- what the result depends on -----

  lemma SimilarScopes(c: Config, schema: Schema, a: seq<Tag>, b: seq<Tag>)
    requires SimilarTags(a, b) && CleanScopes(c, schema, a)
    ensures CleanScopes(c, schema, b)
  {
    SimilarNames(c, schema, a, b);
    forall tag | tag in b && tag.TableTag?
      ensures tag in a
    {
      SimilarMember(a, b, tag);
    }
    assert CleanTables(schema, b);
    forall tag | tag in b && tag.ColumnTag?
      ensures Unambiguous(NamesOf(c, schema, b), tag)
    {
      SimilarMember(a, b, tag);
    }
  }

  lemma SimilarMember(a: seq<Tag>, b: seq<Tag>, tag: Tag)
    requires SimilarTags(a, b) && (tag.TableTag? || tag.ColumnTag?)
    ensures tag in a <==> tag in b
  {
    if tag in a {
      var i :| 0 <= i < |a| && a[i] == tag;
      assert b[i] == tag;
    }
    if tag in b {
      var i :| 0 <= i < |b| && b[i] == tag;
      assert a[i] == tag;
    }
  }

  lemma SimilarColumns(a: seq<Tag>, b: seq<Tag>)
    requires SimilarTags(a, b)
    ensures ColumnTags(a) == ColumnTags(b)
  {
    forall tag: Tag | tag.ColumnTag?
      ensures tag in a <==> tag in b
    {
      SimilarMember(a, b, tag);
    }
  }

  lemma {:induction false} LimitedSimilar(q: Query, maxRows: nat)
    ensures SameButLimit(EncodeQuery(q), EncodeQuery(LimitQuery(q, maxRows)))
  {
    EncodedLimitQuery(q, maxRows);
  }

  lemma ExecutedIsRewritten(r: Request, q: Query)
    ensures Executed(r, q) == Rewrite(r.tenancy, LimitQuery(q, r.maxRows))
  {
    RewriteKeepsLimit(r.tenancy, q, LiteralLimit(r.maxRows));
  }

  lemma {:induction false} GoodLimited(schema: Schema, q: Query, maxRows: nat)
    requires GoodQuery(schema, q)
    ensures GoodQuery(schema, LimitQuery(q, maxRows))
  {
  }

  /** Two databases that agree on what the tenant owns and the caller may view give an accepted
      query the same result. */
  lemma {:induction false} AcceptedDependsOnlyOn(g: GateConfig, r: Request, q: Query, s: Store, other: Store)
    requires Gate(g, r, Parsed([EncodeQuery(q)], false)).Accepted?
    requires WellNamed(r.tenancy.schema) && FairShuffle(g.validator)
    requires CleanScopes(g.validator, r.tenancy.schema, Tags(EncodeQuery(q))) && GoodQuery(r.tenancy.schema, q)
    requires s.schema == other.schema == r.tenancy.schema
    requires AlikeStores(KnowledgeOf(g.validator, r.tenancy.schema, r.roles, Tags(EncodeQuery(q))),
                         Own(s, r.tenancy), Own(other, r.tenancy))
    ensures EvalQuery(s, map[], [], Executed(r, q)) == EvalQuery(other, map[], [], Executed(r, q))
  {
    var t, c := r.tenancy, g.validator;
    var limited := LimitQuery(q, r.maxRows);
    AcceptedExactly(g, r, EncodeQuery(q), false);
    LimitedSimilar(q, r.maxRows);
    SimilarTagsOf(EncodeQuery(q), EncodeQuery(limited));
    SimilarNames(c, t.schema, Tags(EncodeQuery(q)), Tags(EncodeQuery(limited)));
    SimilarScopes(c, t.schema, Tags(EncodeQuery(q)), Tags(EncodeQuery(limited)));
    SimilarColumns(Tags(EncodeQuery(q)), Tags(EncodeQuery(limited)));
    SameFindings(c, t.schema, EncodeQuery(q), EncodeQuery(limited));
    GoodLimited(t.schema, q, r.maxRows);
    ExecutedDependsOnlyOn(c, g.policy, t, r.roles, limited, s, other);
    ExecutedIsRewritten(r, q);
  }
}
