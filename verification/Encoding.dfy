/** The statement tree of a query. */
module Encoding {
  import opened Collections
  import opened Syntax
  import opened StatementTree

  function Leaf(tag: Tag): Statement {
    Node((), tag, false, [])
  }

  function Parent(tag: Tag, kids: seq<Statement>): Statement {
    Node((), tag, false, kids)
  }

  function EncodeExpr(e: Expr): Statement {
    match e
    case Column(qualifier, name) => Leaf(ColumnTag(qualifier, name))
    case Literal(value) => Leaf(LiteralTag(value))
    case Call(f, args) => Parent(FunctionTag(f, false), EncodeExprs(args))
    case Equals(l, r) => Parent(EqualsTag, [EncodeExpr(l), EncodeExpr(r)])
    case Both(l, r) => Parent(AndTag, [EncodeExpr(l), EncodeExpr(r)])
    case Either(l, r) => Parent(OrTag, [EncodeExpr(l), EncodeExpr(r)])
    case Negated(x) => Parent(NotTag, [EncodeExpr(x)])
    case IsNull(x) => Parent(IsNullTag, [EncodeExpr(x)])
    case Aggregate(f, x) => Parent(FunctionTag(f, true), [EncodeExpr(x)])
    case CountStar => Parent(FunctionTag("count", true), [Leaf(StarTag)])
    case Alias(x, name) => Parent(AliasTag(name), [EncodeExpr(x)])
    case Exists(q) => Parent(FunctionTag("exists", false), [EncodeQuery(q)])
    case In(x, q) => Parent(InTag, [EncodeExpr(x), Parent(SubqueryTag("", NoLimit), [EncodeQuery(q)])])
    case Scalar(q) => Parent(SubqueryTag("", NoLimit), [EncodeQuery(q)])
  }

  function EncodeExprs(es: List<Expr>): seq<Statement> {
    match es
    case Nil => []
    case Cons(e, rest) => [EncodeExpr(e)] + EncodeExprs(rest)
  }

  /** An optional clause: a holder with no child when the clause is absent. */
  function EncodeCondition(c: Option<Expr>): seq<Statement> {
    match c
    case None => []
    case Some(e) => [EncodeExpr(e)]
  }

  function EncodeSource(source: Source): Statement {
    match source
    case Table(catalog, db, name, alias) => Leaf(TableTag(catalog, db, name, alias))
    case Derived(q, alias) => Parent(SubqueryTag(alias, NoLimit), [EncodeQuery(q)])
  }

  /** The FROM node and the JOIN nodes, all children of the SELECT. */
  function EncodeFrom(from: From): seq<Statement> {
    match from
    case Nowhere => []
    case Single(source) => [Parent(FromTag, [EncodeSource(source)])]
    case Joined(left, kind, right, on) =>
      EncodeFrom(left) + [Parent(JoinTag(kind, false, on.Some?), [EncodeSource(right)] + EncodeCondition(on))]
  }

  function EncodeCtes(list: List<Cte>): seq<Statement> {
    match list
    case Nil => []
    case Cons(cte, rest) => [Parent(CteTag(cte.name), [EncodeQuery(cte.query)])] + EncodeCtes(rest)
  }

  function EncodeGrouping(g: Grouping): seq<Statement> {
    match g
    case PerRow => []
    case Grouped(keys) => EncodeExprs(keys)
  }

  /** A SELECT keeps its WHERE holder as first child. */
  function EncodeQuery(q: Query): Statement {
    match q
    case Select(ctes, distinct, items, from, where, grouping, having, order, limit) =>
      Parent(SelectTag(Length(items), distinct, limit),
             [Parent(WhereTag, EncodeCondition(where)),
              Parent(WithTag, EncodeCtes(ctes)),
              Parent(GroupTag(grouping.Grouped?), EncodeGrouping(grouping)),
              Parent(HavingTag, EncodeCondition(having)),
              Parent(OrderTag, EncodeExprs(order))]
             + EncodeFrom(from) + EncodeExprs(items))
    case SetOperation(ctes, operator, left, right, limit) =>
      Parent(SetOperationTag(operator, limit),
             [Parent(WithTag, EncodeCtes(ctes)), EncodeQuery(left), EncodeQuery(right)])
  }
}
