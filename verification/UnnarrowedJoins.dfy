/** Which queries keep their reading under the rewrite: a condition on their joins alone. */
module UnnarrowedJoins {
  import opened Collections
  import opened Syntax
  import opened Evaluator
  import opened JoinFilter
  import opened TenantRewrite
  import opened TenantMeaning
  import opened TenantResults

  /** `NoOuter`: inner and cross joins only. `NoLoss`: outer joins too, if they null-extend no tenant table. */
  datatype JoinRule = NoOuter | NoLoss

  predicate Allowed(rule: JoinRule, t: Tenancy, left: From, kind: JoinKind, right: Source) {
    match rule
    case NoOuter => !KeepsLeft(kind) && !KeepsRight(kind)
    case NoLoss => (KeepsLeft(kind) ==> !IsTenantSource(t, right)) && (KeepsRight(kind) ==> !HasTenantSource(t, left))
  }

  // ----- every join of a query, at any depth -----

  predicate ExprJoins(rule: JoinRule, t: Tenancy, e: Expr) {
    match e
    case Column(_, _) => true
    case Literal(_) => true
    case Call(_, args) => ExprsJoins(rule, t, args)
    case Equals(l, r) => ExprJoins(rule, t, l) && ExprJoins(rule, t, r)
    case Both(l, r) => ExprJoins(rule, t, l) && ExprJoins(rule, t, r)
    case Either(l, r) => ExprJoins(rule, t, l) && ExprJoins(rule, t, r)
    case Negated(x) => ExprJoins(rule, t, x)
    case IsNull(x) => ExprJoins(rule, t, x)
    case Aggregate(_, x) => ExprJoins(rule, t, x)
    case CountStar => true
    case Alias(x, _) => ExprJoins(rule, t, x)
    case Exists(q) => QueryJoins(rule, t, q)
    case In(x, q) => ExprJoins(rule, t, x) && QueryJoins(rule, t, q)
    case Scalar(q) => QueryJoins(rule, t, q)
  }

  predicate ExprsJoins(rule: JoinRule, t: Tenancy, es: List<Expr>) {
    es.Cons? ==> ExprJoins(rule, t, es.head) && ExprsJoins(rule, t, es.tail)
  }

  predicate ConditionJoins(rule: JoinRule, t: Tenancy, c: Option<Expr>) {
    match c
    case None => true
    case Some(e) => ExprJoins(rule, t, e)
  }

  predicate SourceJoins(rule: JoinRule, t: Tenancy, source: Source) {
    match source
    case Table(_, _, _, _) => true
    case Derived(q, _) => QueryJoins(rule, t, q)
  }

  predicate FromJoins(rule: JoinRule, t: Tenancy, from: From) {
    match from
    case Nowhere => true
    case Single(source) => SourceJoins(rule, t, source)
    case Joined(left, kind, right, on) =>
      && Allowed(rule, t, left, kind, right)
      && FromJoins(rule, t, left) && SourceJoins(rule, t, right) && ConditionJoins(rule, t, on)
  }

  predicate CtesJoins(rule: JoinRule, t: Tenancy, list: List<Cte>) {
    match list
    case Nil => true
    case Cons(cte, rest) => QueryJoins(rule, t, cte.query) && CtesJoins(rule, t, rest)
  }

  predicate GroupingJoins(rule: JoinRule, t: Tenancy, grouping: Grouping) {
    match grouping
    case PerRow => true
    case Grouped(keys) => ExprsJoins(rule, t, keys)
  }

  predicate QueryJoins(rule: JoinRule, t: Tenancy, q: Query) {
    match q
    case Select(ctes, _, items, from, where, grouping, having, order, _) =>
      && CtesJoins(rule, t, ctes) && ExprsJoins(rule, t, items) && FromJoins(rule, t, from)
      && ConditionJoins(rule, t, where) && GroupingJoins(rule, t, grouping)
      && ConditionJoins(rule, t, having) && ExprsJoins(rule, t, order)
    case SetOperation(ctes, _, left, right, _) =>
      CtesJoins(rule, t, ctes) && QueryJoins(rule, t, left) && QueryJoins(rule, t, right)
  }

  // ----- narrowing leaves exactly those queries alone -----

  /** What is proved of each part: narrowing leaves it alone if its joins are allowed, and for the
      weaker rule only then. */
  predicate Fits(rule: JoinRule, allowed: bool, same: bool) {
    (allowed ==> same) && (rule == NoLoss && same ==> allowed)
  }

  lemma {:induction false} AllowedFits(rule: JoinRule, t: Tenancy, left: From, kind: JoinKind, right: Source)
    ensures Fits(rule, Allowed(rule, t, left, kind, right),
                 NarrowKind(kind, HasTenantSource(t, left), IsTenantSource(t, right)) == kind)
  {
  }

  lemma {:induction false} ExprFits(rule: JoinRule, t: Tenancy, e: Expr)
    ensures Fits(rule, ExprJoins(rule, t, e), ApplyExpr(NARROWS, t, e) == e)
  {
    match e
    case Column(_, _) =>
    case Literal(_) =>
    case Call(_, args) => ExprsFit(rule, t, args);
    case Equals(l, r) => ExprFits(rule, t, l); ExprFits(rule, t, r);
    case Both(l, r) => ExprFits(rule, t, l); ExprFits(rule, t, r);
    case Either(l, r) => ExprFits(rule, t, l); ExprFits(rule, t, r);
    case Negated(x) => ExprFits(rule, t, x);
    case IsNull(x) => ExprFits(rule, t, x);
    case Aggregate(_, x) => ExprFits(rule, t, x);
    case CountStar =>
    case Alias(x, _) => ExprFits(rule, t, x);
    case Exists(q) => QueryFits(rule, t, q);
    case In(x, q) => ExprFits(rule, t, x); QueryFits(rule, t, q);
    case Scalar(q) => QueryFits(rule, t, q);
  }

  lemma {:induction false} ExprsFit(rule: JoinRule, t: Tenancy, es: List<Expr>)
    ensures Fits(rule, ExprsJoins(rule, t, es), ApplyExprs(NARROWS, t, es) == es)
  {
    if es.Cons? {
      ExprFits(rule, t, es.head);
      ExprsFit(rule, t, es.tail);
    }
  }

  lemma {:induction false} ConditionFits(rule: JoinRule, t: Tenancy, c: Option<Expr>)
    ensures Fits(rule, ConditionJoins(rule, t, c), ApplyCondition(NARROWS, t, c) == c)
  {
    match c
    case None =>
    case Some(e) => ExprFits(rule, t, e);
  }

  lemma {:induction false} SourceFits(rule: JoinRule, t: Tenancy, source: Source)
    ensures Fits(rule, SourceJoins(rule, t, source), ApplySource(NARROWS, t, source) == source)
  {
    match source
    case Table(_, _, _, _) =>
    case Derived(q, _) => QueryFits(rule, t, q);
  }

  lemma {:induction false} FromFits(rule: JoinRule, t: Tenancy, from: From)
    ensures Fits(rule, FromJoins(rule, t, from), ApplyFrom(NARROWS, t, from) == from)
  {
    match from
    case Nowhere =>
    case Single(source) => SourceFits(rule, t, source);
    case Joined(left, kind, right, on) =>
      AllowedFits(rule, t, left, kind, right);
      FromFits(rule, t, left);
      SourceFits(rule, t, right);
      ConditionFits(rule, t, on);
  }

  lemma {:induction false} CtesFit(rule: JoinRule, t: Tenancy, list: List<Cte>)
    ensures Fits(rule, CtesJoins(rule, t, list), ApplyCtes(NARROWS, t, list) == list)
  {
    match list
    case Nil =>
    case Cons(cte, rest) =>
      QueryFits(rule, t, cte.query);
      CtesFit(rule, t, rest);
  }

  lemma {:induction false} GroupingFits(rule: JoinRule, t: Tenancy, grouping: Grouping)
    ensures Fits(rule, GroupingJoins(rule, t, grouping), ApplyGrouping(NARROWS, t, grouping) == grouping)
  {
    match grouping
    case PerRow =>
    case Grouped(keys) => ExprsFit(rule, t, keys);
  }

  lemma {:induction false} QueryFits(rule: JoinRule, t: Tenancy, q: Query)
    ensures Fits(rule, QueryJoins(rule, t, q), Narrow(t, q) == q)
  {
    match q
    case Select(ctes, _, items, from, where, grouping, having, order, _) =>
      CtesFit(rule, t, ctes);
      ExprsFit(rule, t, items);
      FromFits(rule, t, from);
      ConditionFits(rule, t, where);
      GroupingFits(rule, t, grouping);
      ConditionFits(rule, t, having);
      ExprsFit(rule, t, order);
    case SetOperation(ctes, _, left, right, _) =>
      CtesFit(rule, t, ctes);
      QueryFits(rule, t, left);
      QueryFits(rule, t, right);
  }

  /** Narrowing leaves a query alone if and only if no outer join, at any depth, null-extends a tenant
      table. */
  lemma {:induction false} UnnarrowedExactly(t: Tenancy, q: Query)
    ensures Narrow(t, q) == q <==> QueryJoins(NoLoss, t, q)
  {
    QueryFits(NoLoss, t, q);
  }

  /** For queries without outer joins, with any nesting of EXISTS, IN, scalar subqueries, CTEs, derived
      tables and set operations, the rewritten query is the original on the tenant's rows. */
  lemma {:induction false} InnerJoinsExact(s: Store, t: Tenancy, q: Query)
    requires s.schema == t.schema && GoodQuery(t.schema, q) && QueryJoins(NoOuter, t, q)
    ensures EvalQuery(s, map[], [], Rewrite(t, q)) == EvalQuery(Own(s, t), map[], [], q)
  {
    QueryFits(NoOuter, t, q);
    ExactMeaning(s, t, q);
  }

  /** The same with outer joins that null-extend no tenant table. */
  lemma {:induction false} LosslessJoinsExact(s: Store, t: Tenancy, q: Query)
    requires s.schema == t.schema && GoodQuery(t.schema, q) && QueryJoins(NoLoss, t, q)
    ensures EvalQuery(s, map[], [], Rewrite(t, q)) == EvalQuery(Own(s, t), map[], [], q)
  {
    QueryFits(NoLoss, t, q);
    ExactMeaning(s, t, q);
  }
}
