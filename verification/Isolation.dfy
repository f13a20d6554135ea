/** A rewritten query reads the tenant's own rows only, whatever its CTEs are called. */
module Isolation {
  import opened Collections
  import opened Values
  import opened Schemas
  import opened Syntax
  import opened Evaluator
  import opened JoinFilter
  import opened TenantRewrite
  import opened TenantMeaning
  import opened TenantTheorem
  import opened Encoding
  import TreeRewrite
  import opened TenantIds

  /** Labels of a FROM chain differ and tables are named. In `GoodQuery` the catalog restricts the names of
      CTEs and nothing else; here any catalog will do, so CTEs may have any name. */
  ghost predicate ProperQuery(q: Query) {
    exists schema :: GoodQuery(schema, q)
  }

  // ----- one source, one join, one SELECT -----

  ghost predicate OwnSourceSuffices(s: Store, t: Tenancy, ctes: Ctes, env: Env, source: Source) {
    var source' := ApplySource(FILTERS, t, source);
    Filter(EvalSource(s, ctes, env, source'), MineTest(t, source))
      == Filter(EvalSource(Own(s, t), ctes, env, source'), MineTest(t, source))
  }

  ghost predicate OwnFromSuffices(s: Store, t: Tenancy, ctes: Ctes, env: Env, from: From) {
    var from' := ApplyFrom(FILTERS, t, from);
    Filter(EvalFrom(s, ctes, env, from'), Mine(t, from)) == Filter(EvalFrom(Own(s, t), ctes, env, from'), Mine(t, from))
  }

  lemma {:induction false} OwnTable(s: Store, t: Tenancy, ctes: Ctes, env: Env, source: Source)
    requires source.Table? && s.schema == t.schema
    ensures OwnSourceSuffices(s, t, ctes, env, source)
  {
    if source.name !in ctes {
      var bs := EvalSource(s, ctes, env, source);
      TableRestricts(s, t, ctes, env, source);
      FilterTwice(bs, MineTest(t, source), MineTest(t, source));
      FilterSame(bs, AndAlso(MineTest(t, source), MineTest(t, source)), MineTest(t, source));
    }
  }

  /** The filtered join, in terms of the filtered sides. */
  lemma {:induction false} FilteredJoin(s: Store, t: Tenancy, ctes: Ctes, env: Env, left: From, kind: JoinKind,
                                        right: Source, on: Option<Expr>)
    requires s.schema == t.schema
    ensures Filter(EvalFrom(s, ctes, env, ApplyFrom(FILTERS, t, Joined(left, kind, right, on))),
                   Mine(t, Joined(left, kind, right, on)))
         == JoinRows(Filter(EvalFrom(s, ctes, env, ApplyFrom(FILTERS, t, left)), Mine(t, left)),
                     Filter(EvalSource(s, ctes, env, ApplySource(FILTERS, t, right)), MineTest(t, right)),
                     NarrowKind(kind, HasTenantSource(t, left), IsTenantSource(t, right)),
                     PairTest(s, ctes, env, ApplyCondition(FILTERS, t, on)),
                     NullFrame(s.schema, ctes, left), NullBinding(s.schema, ctes, right))
  {
    JoinedReads(FILTERS, s, t, ctes, env, left, kind, right, on);
    LeftSideFits(s, t, ctes, env, left);
    if IsTenantSource(t, right) {
      MineNullBinding(t, ctes, right);
    }
    FilterJoin(EvalFrom(s, ctes, env, ApplyFrom(FILTERS, t, left)),
               EvalSource(s, ctes, env, ApplySource(FILTERS, t, right)), kind,
               PairTest(s, ctes, env, ApplyCondition(FILTERS, t, on)), NullFrame(s.schema, ctes, left),
               NullBinding(s.schema, ctes, right), Mine(t, left), MineTest(t, right), HasTenantSource(t, left),
               IsTenantSource(t, right));
  }

  lemma {:induction false} OwnJoin(s: Store, t: Tenancy, ctes: Ctes, env: Env, left: From, kind: JoinKind,
                                   right: Source, on: Option<Expr>)
    requires s.schema == t.schema
    requires OwnFromSuffices(s, t, ctes, env, left) && OwnSourceSuffices(s, t, ctes, env, right)
    requires SameTests(s, Own(s, t), ctes, ApplyCondition(FILTERS, t, on), ApplyCondition(FILTERS, t, on))
    ensures OwnFromSuffices(s, t, ctes, env, Joined(left, kind, right, on))
  {
    var on' := ApplyCondition(FILTERS, t, on);
    FilteredJoin(s, t, ctes, env, left, kind, right, on);
    FilteredJoin(Own(s, t), t, ctes, env, left, kind, right, on);
    PairTestsSame(s, Own(s, t), ctes, env, on', on');
    JoinRowsSame(Filter(EvalFrom(s, ctes, env, ApplyFrom(FILTERS, t, left)), Mine(t, left)),
                 Filter(EvalSource(s, ctes, env, ApplySource(FILTERS, t, right)), MineTest(t, right)),
                 NarrowKind(kind, HasTenantSource(t, left), IsTenantSource(t, right)),
                 PairTest(s, ctes, env, on'), PairTest(Own(s, t), ctes, env, on'),
                 NullFrame(s.schema, ctes, left), NullBinding(s.schema, ctes, right));
  }

  /** The rows WHERE keeps are those of the tenant that pass the condition as it was. */
  lemma {:induction false} KeptRows(s: Store, t: Tenancy, ctes: Ctes, env: Env, from: From, where: Option<Expr>)
    requires Labelled(from) && Unique(Labels(from))
    ensures Filter(EvalFrom(s, ctes, env, ApplyFrom(FILTERS, t, from)),
                   RowTest(s, ctes, env, Conjoin(where, Predicates(t, from))))
         == Filter(Filter(EvalFrom(s, ctes, env, ApplyFrom(FILTERS, t, from)), Mine(t, from)),
                   RowTest(s, ctes, env, where))
  {
    var frames := EvalFrom(s, ctes, env, ApplyFrom(FILTERS, t, from));
    var all := RowTest(s, ctes, env, Conjoin(where, Predicates(t, from)));
    var old0 := RowTest(s, ctes, env, where);
    forall f | f in frames
      ensures all(f) == AndAlso(Mine(t, from), old0)(f)
    {
      EvalFromNamed(s, ctes, env, ApplyFrom(FILTERS, t, from), f);
      ApplyKeepsSources(FILTERS, t, from);
      RewrittenWhere(s, t, ctes, env, from, where, f);
    }
    FilterSame(frames, all, AndAlso(Mine(t, from), old0));
    FilterTwice(frames, Mine(t, from), old0);
  }

  lemma SameKeysSelf(keys: List<Expr>)
    ensures SameKeys(keys, keys)
  {
  }

  /** A SELECT whose parts agree. */
  lemma {:induction false} OwnSelect(schema: Schema, s: Store, t: Tenancy, outer: Ctes, ctes: Ctes, env: Env, q: Query)
    requires s.schema == t.schema && q.Select? && GoodQuery(schema, q)
    requires ctes == EvalCtes(s, outer, env, ApplyCtes(FILTERS, t, q.ctes))
                  == EvalCtes(Own(s, t), outer, env, ApplyCtes(FILTERS, t, q.ctes))
    requires OwnFromSuffices(s, t, ctes, env, q.from)
    requires SameTests(s, Own(s, t), ctes, ApplyCondition(FILTERS, t, q.where), ApplyCondition(FILTERS, t, q.where))
    requires SameTests(s, Own(s, t), ctes, ApplyCondition(FILTERS, t, q.having), ApplyCondition(FILTERS, t, q.having))
    requires SameValues(s, Own(s, t), ctes, ApplyExprs(FILTERS, t, q.items), ApplyExprs(FILTERS, t, q.items))
    requires SameValues(s, Own(s, t), ctes, ApplyExprs(FILTERS, t, q.order), ApplyExprs(FILTERS, t, q.order))
    requires q.grouping.Grouped? ==>
      SameValues(s, Own(s, t), ctes, ApplyExprs(FILTERS, t, q.grouping.keys), ApplyExprs(FILTERS, t, q.grouping.keys))
    ensures EvalQuery(s, outer, env, Rewrite(t, q)) == EvalQuery(Own(s, t), outer, env, Rewrite(t, q))
  {
    var q' := Rewrite(t, q);
    var where := ApplyCondition(FILTERS, t, q.where);
    assert q'.where == Conjoin(where, Predicates(t, q.from)) && q'.from == ApplyFrom(FILTERS, t, q.from);
    assert q'.items == ApplyExprs(FILTERS, t, q.items) && q'.grouping == ApplyGrouping(FILTERS, t, q.grouping);
    assert q'.having == ApplyCondition(FILTERS, t, q.having) && q'.order == ApplyExprs(FILTERS, t, q.order);
    GoodLabelled(schema, q.from);
    KeptRows(s, t, ctes, env, q.from, where);
    KeptRows(Own(s, t), t, ctes, env, q.from, where);
    var mine := Filter(EvalFrom(s, ctes, env, q'.from), Mine(t, q.from));
    RowTestsSame(s, Own(s, t), ctes, env, where, where);
    FilterSame(mine, RowTest(s, ctes, env, where), RowTest(Own(s, t), ctes, env, where));
    SameKeysSelf(q'.order);
    if q'.grouping.Grouped? {
      SameKeysSelf(q'.grouping.keys);
    }
    ClausesSame(s, Own(s, t), ctes, env, Filter(mine, RowTest(s, ctes, env, where)), q', q');
    SelectReads(s, outer, ctes, env, q');
    SelectReads(Own(s, t), outer, ctes, env, q');
  }

  // ----- the simulation, one lemma for each syntactic category -----

  lemma {:induction false} OwnExpr(schema: Schema, s: Store, t: Tenancy, ctes: Ctes, env: Env, group: seq<Frame>,
                                   e: Expr)
    requires s.schema == t.schema && GoodExpr(schema, e)
    ensures EvalExpr(s, ctes, env, group, ApplyExpr(FILTERS, t, e))
         == EvalExpr(Own(s, t), ctes, env, group, ApplyExpr(FILTERS, t, e))
    decreases e, 1
  {
    match e
    case Column(_, _) =>
    case Literal(_) =>
    case Call(f, args) => OwnExprs(schema, s, t, ctes, env, group, args);
    case Equals(_, _) => OwnBinary(schema, s, t, ctes, env, group, e);
    case Both(_, _) => OwnBinary(schema, s, t, ctes, env, group, e);
    case Either(_, _) => OwnBinary(schema, s, t, ctes, env, group, e);
    case Negated(_) => OwnUnary(schema, s, t, ctes, env, group, e);
    case IsNull(_) => OwnUnary(schema, s, t, ctes, env, group, e);
    case Aggregate(_, _) => OwnAggregate(schema, s, t, ctes, env, group, e);
    case CountStar =>
    case Alias(_, _) => OwnUnary(schema, s, t, ctes, env, group, e);
    case Exists(q) => OwnQuery(schema, s, t, ctes, env, q);
    case In(x, q) =>
      OwnExpr(schema, s, t, ctes, env, group, x);
      OwnQuery(schema, s, t, ctes, env, q);
    case Scalar(q) => OwnQuery(schema, s, t, ctes, env, q);
  }

  lemma {:induction false} OwnBinary(schema: Schema, s: Store, t: Tenancy, ctes: Ctes, env: Env, group: seq<Frame>,
                                     e: Expr)
    requires s.schema == t.schema && GoodExpr(schema, e) && (e.Equals? || e.Both? || e.Either?)
    ensures EvalExpr(s, ctes, env, group, ApplyExpr(FILTERS, t, e))
         == EvalExpr(Own(s, t), ctes, env, group, ApplyExpr(FILTERS, t, e))
    decreases e, 0
  {
    OwnExpr(schema, s, t, ctes, env, group, e.left);
    OwnExpr(schema, s, t, ctes, env, group, e.right);
  }

  lemma {:induction false} OwnUnary(schema: Schema, s: Store, t: Tenancy, ctes: Ctes, env: Env, group: seq<Frame>,
                                    e: Expr)
    requires s.schema == t.schema && GoodExpr(schema, e) && (e.Negated? || e.IsNull? || e.Alias?)
    ensures EvalExpr(s, ctes, env, group, ApplyExpr(FILTERS, t, e))
         == EvalExpr(Own(s, t), ctes, env, group, ApplyExpr(FILTERS, t, e))
    decreases e, 0
  {
    OwnExpr(schema, s, t, ctes, env, group, e.operand);
  }

  lemma {:induction false} OwnAggregate(schema: Schema, s: Store, t: Tenancy, ctes: Ctes, env: Env, group: seq<Frame>,
                                        e: Expr)
    requires s.schema == t.schema && GoodExpr(schema, e) && e.Aggregate?
    ensures EvalExpr(s, ctes, env, group, ApplyExpr(FILTERS, t, e))
         == EvalExpr(Own(s, t), ctes, env, group, ApplyExpr(FILTERS, t, e))
    decreases e, 0
  {
    if |env| > 0 {
      var outer := env[..|env| - 1];
      var x := ApplyExpr(FILTERS, t, e.operand);
      forall f: Frame
        ensures Operand(s, ctes, outer, x)(f) == Operand(Own(s, t), ctes, outer, x)(f)
      {
        OwnExpr(schema, s, t, ctes, outer + [f], [f], e.operand);
      }
      MapSame(group, Operand(s, ctes, outer, x), Operand(Own(s, t), ctes, outer, x));
    }
  }

  lemma {:induction false} OwnExprs(schema: Schema, s: Store, t: Tenancy, ctes: Ctes, env: Env, group: seq<Frame>,
                                    es: List<Expr>)
    requires s.schema == t.schema && GoodExprs(schema, es)
    ensures EvalExprs(s, ctes, env, group, ApplyExprs(FILTERS, t, es))
         == EvalExprs(Own(s, t), ctes, env, group, ApplyExprs(FILTERS, t, es))
    decreases es, 0
  {
    if es.Cons? {
      OwnExpr(schema, s, t, ctes, env, group, es.head);
      OwnExprs(schema, s, t, ctes, env, group, es.tail);
    }
  }

  lemma {:induction false} OwnList(schema: Schema, s: Store, t: Tenancy, ctes: Ctes, es: List<Expr>)
    requires s.schema == t.schema && GoodExprs(schema, es)
    ensures SameValues(s, Own(s, t), ctes, ApplyExprs(FILTERS, t, es), ApplyExprs(FILTERS, t, es))
    decreases es, 1
  {
    forall e: Env, g: seq<Frame>
      ensures EvalExprs(s, ctes, e, g, ApplyExprs(FILTERS, t, es))
           == EvalExprs(Own(s, t), ctes, e, g, ApplyExprs(FILTERS, t, es))
    {
      OwnExprs(schema, s, t, ctes, e, g, es);
    }
  }

  lemma {:induction false} OwnCondition(schema: Schema, s: Store, t: Tenancy, ctes: Ctes, c: Option<Expr>)
    requires s.schema == t.schema && GoodCondition(schema, c)
    ensures SameTests(s, Own(s, t), ctes, ApplyCondition(FILTERS, t, c), ApplyCondition(FILTERS, t, c))
    decreases c, 1
  {
    if c.Some? {
      forall e: Env, g: seq<Frame>
        ensures Passes(s, ctes, e, g, ApplyCondition(FILTERS, t, c))
             == Passes(Own(s, t), ctes, e, g, ApplyCondition(FILTERS, t, c))
      {
        OwnExpr(schema, s, t, ctes, e, g, c.value);
      }
    }
  }

  lemma {:induction false} OwnSource(schema: Schema, s: Store, t: Tenancy, ctes: Ctes, env: Env, source: Source)
    requires s.schema == t.schema && GoodSource(schema, source)
    ensures OwnSourceSuffices(s, t, ctes, env, source)
    decreases source, 0
  {
    match source
    case Table(_, _, _, _) => OwnTable(s, t, ctes, env, source);
    case Derived(q, _) => OwnQuery(schema, s, t, ctes, env, q);
  }

  lemma {:induction false} OwnFrom(schema: Schema, s: Store, t: Tenancy, ctes: Ctes, env: Env, from: From)
    requires s.schema == t.schema && GoodFrom(schema, from)
    ensures OwnFromSuffices(s, t, ctes, env, from)
    decreases from, 0
  {
    match from
    case Nowhere =>
    case Single(source) =>
      OwnSource(schema, s, t, ctes, env, source);
      SingleFilter(t, source, EvalSource(s, ctes, env, ApplySource(FILTERS, t, source)));
      SingleFilter(t, source, EvalSource(Own(s, t), ctes, env, ApplySource(FILTERS, t, source)));
    case Joined(left, kind, right, on) =>
      OwnFrom(schema, s, t, ctes, env, left);
      OwnSource(schema, s, t, ctes, env, right);
      OwnCondition(schema, s, t, ctes, on);
      OwnJoin(s, t, ctes, env, left, kind, right, on);
  }

  lemma {:induction false} OwnCtes(schema: Schema, s: Store, t: Tenancy, ctes: Ctes, env: Env, list: List<Cte>)
    requires s.schema == t.schema && GoodCtes(schema, list)
    ensures EvalCtes(s, ctes, env, ApplyCtes(FILTERS, t, list))
         == EvalCtes(Own(s, t), ctes, env, ApplyCtes(FILTERS, t, list))
    decreases list, 0
  {
    match list
    case Nil =>
    case Cons(cte, rest) =>
      OwnQuery(schema, s, t, ctes, env, cte.query);
      var q := ApplyQuery(FILTERS, t, cte.query);
      OwnCtes(schema, s, t, ctes[cte.name := Relation(Header(q), EvalQuery(s, ctes, env, q))], env, rest);
  }

  /** In every scope, a rewritten query gives the same result on the whole database as on the tenant's rows,
      even where a CTE has the name of a table. */
  lemma {:induction false} OwnQuery(schema: Schema, s: Store, t: Tenancy, outer: Ctes, env: Env, q: Query)
    requires s.schema == t.schema && GoodQuery(schema, q)
    ensures EvalQuery(s, outer, env, Rewrite(t, q)) == EvalQuery(Own(s, t), outer, env, Rewrite(t, q))
    decreases q, 0
  {
    match q
    case Select(list, _, items, from, where, grouping, having, order, _) =>
      OwnCtes(schema, s, t, outer, env, list);
      var ctes := EvalCtes(s, outer, env, ApplyCtes(FILTERS, t, list));
      OwnFrom(schema, s, t, ctes, env, from);
      OwnCondition(schema, s, t, ctes, where);
      OwnCondition(schema, s, t, ctes, having);
      OwnList(schema, s, t, ctes, items);
      OwnList(schema, s, t, ctes, order);
      if grouping.Grouped? {
        OwnList(schema, s, t, ctes, grouping.keys);
      }
      OwnSelect(schema, s, t, outer, ctes, env, q);
    case SetOperation(list, _, left, right, _) =>
      OwnCtes(schema, s, t, outer, env, list);
      var ctes := EvalCtes(s, outer, env, ApplyCtes(FILTERS, t, list));
      OwnQuery(schema, s, t, ctes, env, left);
      OwnQuery(schema, s, t, ctes, env, right);
  }

  // ----- isolation -----

  /** Two databases the tenant cannot tell apart: same shared tables, same rows of its own. */
  ghost predicate SameForTenant(a: Database, b: Database, tenant: Value) {
    a.Keys == b.Keys && forall info :: info in a ==> OwnRows(tenant, info, a[info]) == OwnRows(tenant, info, b[info])
  }

  lemma SameRestriction(a: Database, b: Database, tenant: Value)
    requires SameForTenant(a, b, tenant)
    ensures Restrict(a, tenant) == Restrict(b, tenant)
  {
  }

  /** No other tenant's row can influence the result of a rewritten query. */
  lemma {:induction false} TenantIsolation(s: Store, other: Database, t: Tenancy, q: Query)
    requires s.schema == t.schema && ProperQuery(q)
    requires SameForTenant(s.db, other, t.tenant)
    ensures EvalQuery(s, map[], [], Rewrite(t, q)) == EvalQuery(s.(db := other), map[], [], Rewrite(t, q))
  {
    var schema :| GoodQuery(schema, q);
    OwnQuery(schema, s, t, map[], [], q);
    OwnQuery(schema, s.(db := other), t, map[], [], q);
    SameRestriction(s.db, other, t.tenant);
  }

  // ----- two tenants -----

  /** The rows of a table that another tenant does not own. */
  function OtherTest(tenant: Value, info: TableInfo, column: string): Row -> bool {
    (r: Row) => !OwnRow(tenant, info, column, r)
  }

  function OtherRows(tenant: Value, info: TableInfo, rows: seq<Row>): seq<Row> {
    if info.tenantColumn.Some? && info.tenantColumn.value != ""
    then Filter(rows, OtherTest(tenant, info, info.tenantColumn.value))
    else rows
  }

  /** Two databases that differ in rows of one tenant at most. */
  ghost predicate SameButTenant(a: Database, b: Database, tenant: Value) {
    && a.Keys == b.Keys
    && forall info :: info in a ==> OtherRows(tenant, info, a[info]) == OtherRows(tenant, info, b[info])
  }

  lemma OwnOfOther(mine: Value, foreign: Value, info: TableInfo, rows: seq<Row>)
    requires mine != foreign
    ensures OwnRows(mine, info, OtherRows(foreign, info, rows)) == OwnRows(mine, info, rows)
  {
    if info.tenantColumn.Some? && info.tenantColumn.value != "" {
      var own := OwnTest(mine, info, info.tenantColumn.value);
      var other := OtherTest(foreign, info, info.tenantColumn.value);
      FilterTwice(rows, other, own);
      FilterSame(rows, AndAlso(other, own), own);
    }
  }

  /** The query the rewriter produces for one tenant id does not read the rows of any id that differs in more
      than leading zeros: whatever those rows are, the result is the same. */
  lemma {:induction false} TenantsSeparate(s: Store, other: Database, id: string, foreign: string, q: Query)
    requires ProperQuery(q) && !SameId(id, foreign)
    requires SameButTenant(s.db, other, TenantLiteral(foreign))
    ensures var rewritten := Rewrite(Tenancy(s.schema, TenantLiteral(id)), q);
      && TreeRewrite.RewriteTree(Tenancy(s.schema, TenantLiteral(id)), EncodeQuery(q)) == EncodeQuery(rewritten)
      && EvalQuery(s, map[], [], rewritten) == EvalQuery(s.(db := other), map[], [], rewritten)
  {
    var t := Tenancy(s.schema, TenantLiteral(id));
    SameLiteralExactly(id, foreign);
    TreeRewrite.EncodedRewriteQuery(t, q);
    forall info | info in s.db
      ensures OwnRows(t.tenant, info, s.db[info]) == OwnRows(t.tenant, info, other[info])
    {
      OwnOfOther(t.tenant, TenantLiteral(foreign), info, s.db[info]);
      OwnOfOther(t.tenant, TenantLiteral(foreign), info, other[info]);
    }
    TenantIsolation(s, other, t, q);
  }
}
