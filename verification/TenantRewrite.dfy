/** Tenant-predicate injection as a structural transformation of queries (security/rewriter.py). */
module TenantRewrite {
  import opened Collections
  import opened Values
  import opened Schemas
  import opened Syntax
  import opened JoinFilter

  /** Who is asking: the catalog and the literal the predicates compare with. */
  datatype Tenancy = Tenancy(schema: Schema, tenant: Value)

  /** Two transformations share one traversal. `filters` adds the tenant predicates to each
      SELECT; `narrows` turns outer joins that null-extend a tenant table into narrower ones. */
  datatype Mode = Mode(filters: bool, narrows: bool)

  const FILTERS := Mode(true, false)
  const NARROWS := Mode(false, true)

  /** The column a table occurrence must be filtered on, if any. */
  function TenantColumn(t: Tenancy, source: Source): Option<string> {
    if source.Derived? then None
    else match t.schema.Table(source.name)
         case Some(info) =>
           if info.tenantColumn.Some? && info.tenantColumn.value != "" then info.tenantColumn else None
         case None => None
  }

  predicate IsTenantSource(t: Tenancy, source: Source) {
    TenantColumn(t, source).Some?
  }

  predicate HasTenantSource(t: Tenancy, from: From) {
    match from
    case Nowhere => false
    case Single(source) => IsTenantSource(t, source)
    case Joined(left, _, right, _) => HasTenantSource(t, left) || IsTenantSource(t, right)
  }

  function BuildPredicate(t: Tenancy, qualifier: string, column: string): Expr {
    Equals(Column(qualifier, column), Literal(t.tenant))
  }

  function SourcePredicates(t: Tenancy, source: Source): seq<Expr> {
    match TenantColumn(t, source)
    case Some(column) => [BuildPredicate(t, source.Label(), column)]
    case None => []
  }

  /** One predicate for each tenant-table occurrence the SELECT owns, left to right. */
  function Predicates(t: Tenancy, from: From): seq<Expr> {
    match from
    case Nowhere => []
    case Single(source) => SourcePredicates(t, source)
    case Joined(left, _, right, _) => Predicates(t, left) + SourcePredicates(t, right)
  }

  /** `where(predicate, append=True)`, once for each predicate. */
  function Conjoin(where: Option<Expr>, predicates: seq<Expr>): Option<Expr>
    decreases |predicates|
  {
    if |predicates| == 0 then where
    else
      var grown := if where.Some? then Both(where.value, predicates[0]) else predicates[0];
      Conjoin(Some(grown), predicates[1..])
  }

  // ----- the traversal -----

  function ApplyExpr(m: Mode, t: Tenancy, e: Expr): Expr {
    match e
    case Column(_, _) => e
    case Literal(_) => e
    case Call(f, args) => Call(f, ApplyExprs(m, t, args))
    case Equals(l, r) => Equals(ApplyExpr(m, t, l), ApplyExpr(m, t, r))
    case Both(l, r) => Both(ApplyExpr(m, t, l), ApplyExpr(m, t, r))
    case Either(l, r) => Either(ApplyExpr(m, t, l), ApplyExpr(m, t, r))
    case Negated(x) => Negated(ApplyExpr(m, t, x))
    case IsNull(x) => IsNull(ApplyExpr(m, t, x))
    case Aggregate(f, x) => Aggregate(f, ApplyExpr(m, t, x))
    case CountStar => CountStar
    case Alias(x, name) => Alias(ApplyExpr(m, t, x), name)
    case Exists(q) => Exists(ApplyQuery(m, t, q))
    case In(x, q) => In(ApplyExpr(m, t, x), ApplyQuery(m, t, q))
    case Scalar(q) => Scalar(ApplyQuery(m, t, q))
  }

  function ApplyExprs(m: Mode, t: Tenancy, es: List<Expr>): List<Expr> {
    match es
    case Nil => Nil
    case Cons(e, rest) => Cons(ApplyExpr(m, t, e), ApplyExprs(m, t, rest))
  }

  function ApplyCondition(m: Mode, t: Tenancy, c: Option<Expr>): Option<Expr> {
    match c
    case None => None
    case Some(e) => Some(ApplyExpr(m, t, e))
  }

  function ApplySource(m: Mode, t: Tenancy, source: Source): Source {
    match source
    case Table(_, _, _, _) => source
    case Derived(q, alias) => Derived(ApplyQuery(m, t, q), alias)
  }

  function ApplyFrom(m: Mode, t: Tenancy, from: From): From {
    match from
    case Nowhere => Nowhere
    case Single(source) => Single(ApplySource(m, t, source))
    case Joined(left, kind, right, on) =>
      var kind' := if m.narrows then NarrowKind(kind, HasTenantSource(t, left), IsTenantSource(t, right)) else kind;
      Joined(ApplyFrom(m, t, left), kind', ApplySource(m, t, right), ApplyCondition(m, t, on))
  }

  function ApplyCtes(m: Mode, t: Tenancy, list: List<Cte>): List<Cte> {
    match list
    case Nil => Nil
    case Cons(cte, rest) => Cons(Cte(cte.name, ApplyQuery(m, t, cte.query)), ApplyCtes(m, t, rest))
  }

  function ApplyGrouping(m: Mode, t: Tenancy, grouping: Grouping): Grouping {
    match grouping
    case PerRow => PerRow
    case Grouped(keys) => Grouped(ApplyExprs(m, t, keys))
  }

  function ApplyQuery(m: Mode, t: Tenancy, q: Query): Query {
    match q
    case Select(ctes, distinct, items, from, where, grouping, having, order, limit) =>
      var where' := ApplyCondition(m, t, where);
      Select(ApplyCtes(m, t, ctes), distinct, ApplyExprs(m, t, items), ApplyFrom(m, t, from),
             if m.filters then Conjoin(where', Predicates(t, from)) else where',
             ApplyGrouping(m, t, grouping), ApplyCondition(m, t, having), ApplyExprs(m, t, order), limit)
    case SetOperation(ctes, operator, left, right, limit) =>
      SetOperation(ApplyCtes(m, t, ctes), operator, ApplyQuery(m, t, left), ApplyQuery(m, t, right), limit)
  }

  /** What the rewriter makes of a query. */
  function Rewrite(t: Tenancy, q: Query): Query {
    ApplyQuery(FILTERS, t, q)
  }

  /** The query whose plain reading the rewritten query has: no filters, narrower outer joins. */
  function Narrow(t: Tenancy, q: Query): Query {
    ApplyQuery(NARROWS, t, q)
  }

  // ----- what every mode keeps -----

  lemma {:induction false} ApplyKeepsNames(m: Mode, t: Tenancy, items: List<Expr>)
    ensures OutputNames(ApplyExprs(m, t, items)) == OutputNames(items)
  {
    if items.Cons? {
      ApplyKeepsNames(m, t, items.tail);
    }
  }

  lemma {:induction false} ApplyKeepsHeader(m: Mode, t: Tenancy, q: Query)
    ensures Header(ApplyQuery(m, t, q)) == Header(q)
  {
    match q
    case Select(_, _, items, _, _, _, _, _, _) => ApplyKeepsNames(m, t, items);
    case SetOperation(_, _, left, _, _) => ApplyKeepsHeader(m, t, left);
  }

  lemma {:induction false} ApplyKeepsSources(m: Mode, t: Tenancy, from: From)
    ensures Labels(ApplyFrom(m, t, from)) == Labels(from)
    ensures HasTenantSource(t, ApplyFrom(m, t, from)) == HasTenantSource(t, from)
    ensures Predicates(t, ApplyFrom(m, t, from)) == Predicates(t, from)
  {
    if from.Joined? {
      ApplyKeepsSources(m, t, from.left);
    }
  }
}
