/** An outer join whose reading the rewrite changes, on concrete data. */
module Counterexamples {
  import opened Collections
  import opened Values
  import opened Schemas
  import opened Syntax
  import opened Evaluator
  import opened TenantRewrite
  import opened TenantMeaning
  import opened TenantTheorem

  const ORDERS: TableInfo :=
    TableInfo("orders", "", [ColumnInfo("id", Public), ColumnInfo("org", Internal)], [], Some("org"))

  const REFUNDS: TableInfo :=
    TableInfo("refunds", "", [ColumnInfo("id", Public), ColumnInfo("org", Internal)], [], Some("org"))

  const SHOP: Schema := Schema([ORDERS, REFUNDS])

  const MINE: Tenancy := Tenancy(SHOP, Text("me"))

  /** One order of the tenant, and no refund. */
  const SALES: Database := map[ORDERS := [map["id" := Number(1), "org" := Text("me")]], REFUNDS := []]

  const ORDERS_SOURCE: Source := Table("", "", "orders", "")
  const REFUNDS_SOURCE: Source := Table("", "", "refunds", "")

  const SAME_ID: Expr := Equals(Column("orders", "id"), Column("refunds", "id"))

  /** SELECT orders.id FROM orders LEFT JOIN refunds ON orders.id = refunds.id */
  const ORDERS_WITH_REFUNDS: Query :=
    Select(Nil, false, Cons(Column("orders", "id"), Nil),
           Joined(Single(ORDERS_SOURCE), LeftOuter, REFUNDS_SOURCE, Some(SAME_ID)),
           None, PerRow, None, Nil, NoLimit)

  predicate IsPlain(q: Query) {
    && q.Select? && q.ctes.Nil? && !q.distinct && q.grouping.PerRow? && q.having.None? && q.order.Nil?
    && q.limit.NoLimit? && q.where.None?
  }

  /** A plain query has one row for each joined row. */
  lemma {:induction false} PlainRows(s: Store, q: Query)
    requires IsPlain(q)
    ensures |EvalQuery(s, map[], [], q)| == |EvalFrom(s, map[], [], q.from)|
  {
    var frames := EvalFrom(s, map[], [], q.from);
    var test := RowTest(s, map[], [], q.where);
    FilterAll(frames, test);
    var blank := NullFrame(s.schema, map[], q.from);
    var groups := Groups(frames, None, false);
    FilterAll(groups, GroupTest(s, map[], [], blank, q.having));
    assert GroupKey(s, map[], [], q) == None && SortKey(s, map[], [], q) == None;
    assert |EvalClauses(s, map[], [], frames, q)| == |groups|;
    assert EvalCtes(s, map[], [], q.ctes) == map[];
    assert EvalQuery(s, map[], [], q) == Limited(s.world, q.limit, EvalClauses(s, map[], [], Filter(frames, test), q));
  }

  lemma ShopTables()
    ensures SHOP.Table("orders") == Some(ORDERS) && SHOP.Table("refunds") == Some(REFUNDS)
  {
    var tables := SHOP.tables;
    assert tables[..1] == [ORDERS] && tables[1] == REFUNDS;
    assert [ORDERS][..0] == [];
    assert IndexOf([]) == map[];
    assert IndexOf([ORDERS]) == map["orders" := ORDERS];
    assert IndexOf(tables)["refunds"] == REFUNDS && IndexOf(tables)["orders"] == ORDERS;
  }

  lemma SalesOwn(s: Store)
    requires s.schema == SHOP && s.db == SALES
    ensures Own(s, MINE) == s
  {
    var row: Row := map["id" := Number(1), "org" := Text("me")];
    assert OwnRow(Text("me"), ORDERS, "org", row);
    assert OwnRows(Text("me"), ORDERS, [row]) == [row];
    assert OwnRows(Text("me"), REFUNDS, []) == [];
    assert Restrict(SALES, Text("me")) == SALES;
  }

  lemma {:induction false} OrdersRows(s: Store)
    requires s.schema == SHOP && s.db == SALES
    ensures |EvalFrom(s, map[], [], Single(ORDERS_SOURCE))| == 1
    ensures EvalSource(s, map[], [], REFUNDS_SOURCE) == []
  {
    ShopTables();
    assert BaseRows(s, "orders") == SALES[ORDERS] && BaseRows(s, "refunds") == [];
    assert |EvalSource(s, map[], [], ORDERS_SOURCE)| == 1;
  }

  lemma JoinWithNothing(ls: seq<Frame>, kind: JoinKind, on: (Frame, Binding) -> bool,
                        nullLeft: Frame, nullRight: Binding)
    requires |ls| == 1 && !KeepsRight(kind)
    ensures |JoinRows(ls, [], kind, on, nullLeft, nullRight)| == if KeepsLeft(kind) then 1 else 0
  {
    assert Matches(ls[0], [], on) == [];
    assert LeftPart(ls[1..], [], KeepsLeft(kind), on, nullRight) == [];
  }

  lemma {:induction false} NarrowPlain(t: Tenancy, q: Query)
    requires IsPlain(q)
    ensures IsPlain(Narrow(t, q)) && Narrow(t, q).from == ApplyFrom(NARROWS, t, q.from)
  {
    assert ApplyCtes(NARROWS, t, q.ctes) == Nil && ApplyExprs(NARROWS, t, q.order) == Nil;
    assert ApplyCondition(NARROWS, t, q.where) == None && ApplyCondition(NARROWS, t, q.having) == None;
    assert ApplyGrouping(NARROWS, t, q.grouping) == PerRow;
  }

  lemma {:induction false} NarrowColumns(t: Tenancy, a: Expr, b: Expr)
    requires a.Column? && b.Column?
    ensures ApplyCondition(NARROWS, t, Some(Equals(a, b))) == Some(Equals(a, b))
  {
    assert ApplyExpr(NARROWS, t, a) == a && ApplyExpr(NARROWS, t, b) == b;
    assert ApplyExpr(NARROWS, t, Equals(a, b)) == Equals(a, b);
  }

  /** A LEFT JOIN onto a tenant table becomes an inner one. */
  lemma {:induction false} NarrowLeftJoin(t: Tenancy, left: Source, right: Source, on: Option<Expr>)
    requires left.Table? && right.Table? && IsTenantSource(t, right) && ApplyCondition(NARROWS, t, on) == on
    ensures ApplyFrom(NARROWS, t, Joined(Single(left), LeftOuter, right, on)) == Joined(Single(left), Inner, right, on)
  {
    assert ApplySource(NARROWS, t, left) == left && ApplySource(NARROWS, t, right) == right;
    assert ApplyFrom(NARROWS, t, Single(left)) == Single(left);
  }

  lemma NarrowedJoin()
    ensures IsPlain(Narrow(MINE, ORDERS_WITH_REFUNDS))
    ensures Narrow(MINE, ORDERS_WITH_REFUNDS).from
         == Joined(Single(ORDERS_SOURCE), Inner, REFUNDS_SOURCE, Some(SAME_ID))
  {
    ShopTables();
    NarrowColumns(MINE, Column("orders", "id"), Column("refunds", "id"));
    NarrowPlain(MINE, ORDERS_WITH_REFUNDS);
    NarrowLeftJoin(MINE, ORDERS_SOURCE, REFUNDS_SOURCE, Some(SAME_ID));
  }

  lemma {:induction false} JoinCount(s: Store, kind: JoinKind)
    requires s.schema == SHOP && s.db == SALES && !KeepsRight(kind)
    ensures |EvalFrom(s, map[], [], Joined(Single(ORDERS_SOURCE), kind, REFUNDS_SOURCE, Some(SAME_ID)))|
         == if KeepsLeft(kind) then 1 else 0
  {
    OrdersRows(s);
    JoinWithNothing(EvalFrom(s, map[], [], Single(ORDERS_SOURCE)), kind, PairTest(s, map[], [], Some(SAME_ID)),
                    NullFrame(SHOP, map[], Single(ORDERS_SOURCE)), NullBinding(SHOP, map[], REFUNDS_SOURCE));
  }

  lemma GoodOrders()
    ensures GoodQuery(SHOP, ORDERS_WITH_REFUNDS)
  {
    var q := ORDERS_WITH_REFUNDS;
    assert Labels(Single(ORDERS_SOURCE)) == ["orders"];
    assert Labels(q.from) == ["orders", "refunds"];
    assert GoodFrom(SHOP, Single(ORDERS_SOURCE)) && GoodExpr(SHOP, SAME_ID);
    assert GoodCondition(SHOP, Some(SAME_ID));
    assert GoodFrom(SHOP, q.from) && GoodExprs(SHOP, q.items) && GoodExprs(SHOP, q.order) && GoodCtes(SHOP, q.ctes);
  }

  /** The rewritten LEFT JOIN loses the order without a refund, although both tables hold the tenant's
      own rows only: with outer joins the rewritten query need not be the original on those rows. */
  lemma {:induction false} LeftJoinLosesRows(s: Store)
    requires s.schema == SHOP && s.db == SALES
    ensures GoodQuery(SHOP, ORDERS_WITH_REFUNDS)
    ensures |EvalQuery(Own(s, MINE), map[], [], ORDERS_WITH_REFUNDS)| == 1
    ensures EvalQuery(s, map[], [], Rewrite(MINE, ORDERS_WITH_REFUNDS)) == []
  {
    GoodOrders();
    SalesOwn(s);
    PlainRows(s, ORDERS_WITH_REFUNDS);
    JoinCount(s, LeftOuter);
    RewriteQuery(s, MINE, map[], [], ORDERS_WITH_REFUNDS);
    NarrowedJoin();
    PlainRows(s, Narrow(MINE, ORDERS_WITH_REFUNDS));
    JoinCount(s, Inner);
  }
}
