/** What a rewritten query means: the narrowed query on the tenant's own part of the database. */
module TenantMeaning {
  import opened Collections
  import opened Values
  import opened Schemas
  import opened Syntax
  import opened Evaluator
  import opened JoinFilter
  import opened TenantRewrite

  // ----- the tenant's part of a database -----

  /** A stored row belongs to the tenant when its tenant column equals the tenant's literal. */
  predicate OwnRow(tenant: Value, info: TableInfo, column: string, row: Row) {
    Holds(Equal(Field(Binding("", Some(info), info.ColumnNames(), row), column), tenant))
  }

  function OwnTest(tenant: Value, info: TableInfo, column: string): Row -> bool {
    (r: Row) => OwnRow(tenant, info, column, r)
  }

  function OwnRows(tenant: Value, info: TableInfo, rows: seq<Row>): seq<Row> {
    if info.tenantColumn.Some? && info.tenantColumn.value != ""
    then Filter(rows, OwnTest(tenant, info, info.tenantColumn.value))
    else rows
  }

  function Restrict(db: Database, tenant: Value): Database {
    map info | info in db :: OwnRows(tenant, info, db[info])
  }

  function Own(s: Store, t: Tenancy): Store {
    s.(db := Restrict(s.db, t.tenant))
  }

  // ----- statements a database accepts -----

  /** Labels are distinct within a scope, tables are named, and CTE names are not catalog tables. */
  ghost predicate GoodExpr(schema: Schema, e: Expr) {
    match e
    case Column(_, _) => true
    case Literal(_) => true
    case Call(_, args) => GoodExprs(schema, args)
    case Equals(l, r) => GoodExpr(schema, l) && GoodExpr(schema, r)
    case Both(l, r) => GoodExpr(schema, l) && GoodExpr(schema, r)
    case Either(l, r) => GoodExpr(schema, l) && GoodExpr(schema, r)
    case Negated(x) => GoodExpr(schema, x)
    case IsNull(x) => GoodExpr(schema, x)
    case Aggregate(_, x) => GoodExpr(schema, x)
    case CountStar => true
    case Alias(x, _) => GoodExpr(schema, x)
    case Exists(q) => GoodQuery(schema, q)
    case In(x, q) => GoodExpr(schema, x) && GoodQuery(schema, q)
    case Scalar(q) => GoodQuery(schema, q)
  }

  ghost predicate GoodExprs(schema: Schema, es: List<Expr>) {
    es.Cons? ==> GoodExpr(schema, es.head) && GoodExprs(schema, es.tail)
  }

  ghost predicate GoodCondition(schema: Schema, c: Option<Expr>) {
    match c
    case None => true
    case Some(e) => GoodExpr(schema, e)
  }

  ghost predicate GoodSource(schema: Schema, source: Source) {
    match source
    case Table(_, _, name, _) => name != ""
    case Derived(q, _) => GoodQuery(schema, q)
  }

  ghost predicate GoodFrom(schema: Schema, from: From) {
    match from
    case Nowhere => true
    case Single(source) => GoodSource(schema, source)
    case Joined(left, _, right, on) =>
      GoodFrom(schema, left) && GoodSource(schema, right) && GoodCondition(schema, on)
  }

  ghost predicate GoodCtes(schema: Schema, list: List<Cte>) {
    match list
    case Nil => true
    case Cons(cte, rest) =>
      schema.Table(cte.name).None? && GoodQuery(schema, cte.query) && GoodCtes(schema, rest)
  }

  ghost predicate GoodGrouping(schema: Schema, grouping: Grouping) {
    match grouping
    case PerRow => true
    case Grouped(keys) => GoodExprs(schema, keys)
  }

  ghost predicate GoodQuery(schema: Schema, q: Query) {
    match q
    case Select(ctes, _, items, from, where, grouping, having, order, _) =>
      && Unique(Labels(from))
      && GoodCtes(schema, ctes) && GoodExprs(schema, items) && GoodFrom(schema, from)
      && GoodCondition(schema, where) && GoodGrouping(schema, grouping)
      && GoodCondition(schema, having) && GoodExprs(schema, order)
    case SetOperation(ctes, _, left, right, _) =>
      GoodCtes(schema, ctes) && GoodQuery(schema, left) && GoodQuery(schema, right)
  }

  /** Every table of the chain has a label to qualify its predicate with. */
  ghost predicate Labelled(from: From) {
    match from
    case Nowhere => true
    case Single(source) => source.Derived? || source.Label() != ""
    case Joined(left, _, right, _) => Labelled(left) && (right.Derived? || right.Label() != "")
  }

  lemma {:induction false} GoodLabelled(schema: Schema, from: From)
    requires GoodFrom(schema, from)
    ensures Labelled(from)
  {
    if from.Joined? {
      GoodLabelled(schema, from.left);
    }
  }

  ghost predicate FreshCtes(schema: Schema, ctes: Ctes) {
    forall name :: name in ctes ==> schema.Table(name).None?
  }

  // ----- which joined rows the predicates keep -----

  predicate MineBinding(t: Tenancy, source: Source, b: Binding) {
    match TenantColumn(t, source)
    case Some(column) => Holds(Equal(Field(b, column), t.tenant))
    case None => true
  }

  function MineTest(t: Tenancy, source: Source): Binding -> bool {
    (b: Binding) => MineBinding(t, source, b)
  }

  /** Every tenant-table component of the row is the tenant's. */
  function Mine(t: Tenancy, from: From): Frame -> bool {
    match from
    case Nowhere => (f: Frame) => true
    case Single(source) => Split((f: Frame) => true, MineTest(t, source))
    case Joined(left, _, right, _) => Split(Mine(t, left), MineTest(t, right))
  }

  ghost predicate Named(frame: Frame, names: seq<string>) {
    |frame| == |names| && forall i :: 0 <= i < |frame| ==> frame[i].name == names[i]
  }

  lemma {:induction false} NullFrameNamed(schema: Schema, ctes: Ctes, from: From)
    ensures Named(NullFrame(schema, ctes, from), Labels(from))
  {
    if from.Joined? {
      NullFrameNamed(schema, ctes, from.left);
    }
  }

  lemma {:induction false} EvalSourceNamed(s: Store, ctes: Ctes, env: Env, source: Source, b: Binding)
    requires b in EvalSource(s, ctes, env, source)
    ensures b == NullBinding(s.schema, ctes, source).(row := b.row) && b.name == source.Label()
  {
  }

  lemma JoinRowsParts(ls: seq<Frame>, rs: seq<Binding>, kind: JoinKind,
                      on: (Frame, Binding) -> bool, nullLeft: Frame, nullRight: Binding, f: Frame)
    returns (l: Frame)
    requires f in JoinRows(ls, rs, kind, on, nullLeft, nullRight)
    ensures |f| > 0 && f == l + [f[|f| - 1]]
    ensures l in ls || l == nullLeft
    ensures f[|f| - 1] in rs || f[|f| - 1] == nullRight
  {
    JoinRowsMember(ls, rs, kind, on, nullLeft, nullRight, f);
    l := f[..|f| - 1];
  }

  lemma JoinRowsMember(ls: seq<Frame>, rs: seq<Binding>, kind: JoinKind,
                       on: (Frame, Binding) -> bool, nullLeft: Frame, nullRight: Binding, f: Frame)
    requires f in JoinRows(ls, rs, kind, on, nullLeft, nullRight)
    ensures |f| > 0 && (f[..|f| - 1] in ls || f[..|f| - 1] == nullLeft)
    ensures f[|f| - 1] in rs || f[|f| - 1] == nullRight
  {
    if f in LeftPart(ls, rs, KeepsLeft(kind), on, nullRight) {
      LeftPartMember(ls, rs, KeepsLeft(kind), on, nullRight, f);
    } else {
      RightPartMember(ls, rs, on, nullLeft, f);
    }
  }

  lemma {:induction false} MatchesMember(l: Frame, rs: seq<Binding>, on: (Frame, Binding) -> bool, f: Frame)
    requires f in Matches(l, rs, on)
    ensures |f| > 0 && f[..|f| - 1] == l && f[|f| - 1] in rs
  {
    if !(on(l, rs[0]) && f == l + [rs[0]]) {
      MatchesMember(l, rs[1..], on, f);
    }
  }

  lemma {:induction false} LeftPartMember(ls: seq<Frame>, rs: seq<Binding>, keep: bool, on: (Frame, Binding) -> bool,
                                          nullRight: Binding, f: Frame)
    requires f in LeftPart(ls, rs, keep, on, nullRight)
    ensures |f| > 0 && f[..|f| - 1] in ls && (f[|f| - 1] in rs || f[|f| - 1] == nullRight)
  {
    if f in LeftPart(ls[1..], rs, keep, on, nullRight) {
      LeftPartMember(ls[1..], rs, keep, on, nullRight, f);
    } else if f in Matches(ls[0], rs, on) {
      MatchesMember(ls[0], rs, on, f);
    }
  }

  lemma {:induction false} RightPartMember(ls: seq<Frame>, rs: seq<Binding>, on: (Frame, Binding) -> bool,
                                           nullLeft: Frame, f: Frame)
    requires f in RightPart(ls, rs, on, nullLeft)
    ensures |f| > 0 && f[..|f| - 1] == nullLeft && f[|f| - 1] in rs
  {
    if f in RightPart(ls, rs[1..], on, nullLeft) {
      RightPartMember(ls, rs[1..], on, nullLeft, f);
    }
  }

  /** Every joined row binds exactly the labels of the chain, in order. */
  lemma {:induction false} EvalFromNamed(s: Store, ctes: Ctes, env: Env, from: From, f: Frame)
    requires f in EvalFrom(s, ctes, env, from)
    ensures Named(f, Labels(from))
  {
    match from
    case Nowhere =>
    case Single(source) =>
      EvalSourceNamed(s, ctes, env, source, f[0]);
    case Joined(left, kind, right, on) =>
      var l := JoinedRow(s, ctes, env, left, kind, right, on, f);
      if l in EvalFrom(s, ctes, env, left) {
        EvalFromNamed(s, ctes, env, left, l);
      } else {
        NullFrameNamed(s.schema, ctes, left);
      }
      NamedSnoc(l, f[|f| - 1], left, kind, right, on);
  }

  /** The left part of a joined row. */
  lemma JoinedRow(s: Store, ctes: Ctes, env: Env, left: From, kind: JoinKind, right: Source, on: Option<Expr>, f: Frame)
    returns (l: Frame)
    requires f in EvalFrom(s, ctes, env, Joined(left, kind, right, on))
    ensures l in EvalFrom(s, ctes, env, left) || l == NullFrame(s.schema, ctes, left)
    ensures |f| > 0 && f == l + [f[|f| - 1]] && f[|f| - 1].name == right.Label()
  {
    var ls, rs := EvalFrom(s, ctes, env, left), EvalSource(s, ctes, env, right);
    assert f in JoinRows(ls, rs, kind, PairTest(s, ctes, env, on),
                         NullFrame(s.schema, ctes, left), NullBinding(s.schema, ctes, right));
    l := JoinRowsParts(ls, rs, kind, PairTest(s, ctes, env, on),
                       NullFrame(s.schema, ctes, left), NullBinding(s.schema, ctes, right), f);
    if f[|f| - 1] in rs {
      EvalSourceNamed(s, ctes, env, right, f[|f| - 1]);
    }
  }

  lemma {:induction false} NamedSnoc(l: Frame, r: Binding, left: From, kind: JoinKind, right: Source, on: Option<Expr>)
    requires Named(l, Labels(left)) && r.name == right.Label()
    ensures Named(l + [r], Labels(Joined(left, kind, right, on)))
  {
  }

  /** A chain without tenant tables restricts nothing. */
  lemma {:induction false} MineWithoutTenant(t: Tenancy, from: From, f: Frame)
    requires !HasTenantSource(t, from) && |f| == |Labels(from)|
    ensures Mine(t, from)(f)
  {
    if from.Joined? {
      MineWithoutTenant(t, from.left, f[..|f| - 1]);
    }
  }

  lemma MineNullBinding(t: Tenancy, ctes: Ctes, source: Source)
    requires IsTenantSource(t, source)
    ensures !MineBinding(t, source, NullBinding(t.schema, ctes, source))
  {
  }

  /** A null-extended tenant table never satisfies its predicate: NULL = tenant is unknown. */
  lemma {:induction false} MineNullFrame(t: Tenancy, ctes: Ctes, from: From)
    requires HasTenantSource(t, from)
    ensures !Mine(t, from)(NullFrame(t.schema, ctes, from))
  {
    match from
    case Single(source) =>
      MineNullBinding(t, ctes, source);
    case Joined(left, _, right, _) =>
      SplitSnoc(Mine(t, left), MineTest(t, right),
                NullFrame(t.schema, ctes, left), NullBinding(t.schema, ctes, right));
      if HasTenantSource(t, left) {
        MineNullFrame(t, ctes, left);
      } else {
        MineNullBinding(t, ctes, right);
      }
  }

  // ----- the predicates select exactly those rows -----

  lemma {:induction false} FindLabelAt(f: Frame, i: nat)
    requires i < |f|
    requires forall j :: 0 <= j < i ==> f[j].name != f[i].name
    ensures FindLabel(f, f[i].name) == Some(f[i])
  {
    if i > 0 {
      assert f[1..][i - 1] == f[i];
      FindLabelAt(f[1..], i - 1);
    }
  }

  /** Each binding is what its own name finds. */
  ghost predicate Findable(f: Frame) {
    forall i :: 0 <= i < |f| ==> FindLabel(f, f[i].name) == Some(f[i])
  }

  lemma DistinctFindable(f: Frame, names: seq<string>)
    requires Named(f, names) && Unique(names)
    ensures Findable(f)
  {
    forall i | 0 <= i < |f|
      ensures FindLabel(f, f[i].name) == Some(f[i])
    {
      FindLabelAt(f, i);
    }
  }

  lemma {:induction false} PredicateMeans(s: Store, ctes: Ctes, env: Env, t: Tenancy, f: Frame, i: nat,
                                          source: Source, column: string)
    requires i < |f| && f[i].name == source.Label() && source.Label() != "" && Findable(f)
    ensures EvalExpr(s, ctes, env + [f], [f], BuildPredicate(t, source.Label(), column))
         == Equal(Field(f[i], column), t.tenant)
  {
    var scope := env + [f];
    assert scope[|scope| - 1] == f;
    assert Resolve(scope, source.Label(), column) == Some(f[i]);
    var c := Column(source.Label(), column);
    assert EvalExpr(s, ctes, scope, [f], c) == Field(f[i], column);
    assert EvalExpr(s, ctes, scope, [f], Literal(t.tenant)) == t.tenant;
  }

  ghost predicate AllHold(s: Store, ctes: Ctes, env: Env, f: Frame, es: seq<Expr>) {
    forall e :: e in es ==> Holds(EvalExpr(s, ctes, env + [f], [f], e))
  }

  lemma {:induction false} SourcePredicatesMean(s: Store, ctes: Ctes, env: Env, t: Tenancy, f: Frame, i: nat,
                                                source: Source)
    requires i < |f| && f[i].name == source.Label() && (source.Derived? || source.Label() != "") && Findable(f)
    ensures AllHold(s, ctes, env, f, SourcePredicates(t, source)) <==> MineBinding(t, source, f[i])
  {
    match TenantColumn(t, source)
    case None =>
    case Some(column) =>
      PredicateMeans(s, ctes, env, t, f, i, source, column);
      assert SourcePredicates(t, source)[0] in SourcePredicates(t, source);
  }

  lemma AllHoldAppend(s: Store, ctes: Ctes, env: Env, f: Frame, a: seq<Expr>, b: seq<Expr>)
    ensures AllHold(s, ctes, env, f, a + b) <==> AllHold(s, ctes, env, f, a) && AllHold(s, ctes, env, f, b)
  {
    if AllHold(s, ctes, env, f, a + b) {
      assert forall e :: e in a ==> e in a + b;
      assert forall e :: e in b ==> e in a + b;
    }
  }

  lemma {:induction false} NamedPrefix(f: Frame, left: From, right: Source, kind: JoinKind, on: Option<Expr>)
    requires |Labels(left)| < |f|
    requires Named(f[..|Labels(left)| + 1], Labels(Joined(left, kind, right, on)))
    ensures Named(f[..|Labels(left)|], Labels(left)) && f[|Labels(left)|].name == right.Label()
    ensures var k := |Labels(left)|; f[..k + 1] == f[..k] + [f[k]]
  {
    var k := |Labels(left)|;
    var names := Labels(Joined(left, kind, right, on));
    assert f[..k + 1][k].name == names[k];
    forall i | 0 <= i < k
      ensures f[..k][i].name == Labels(left)[i]
    {
      assert f[..k + 1][i].name == names[i];
    }
  }

  /** On a row of the whole chain, the predicates of a prefix say the prefix is the tenant's. */
  lemma {:induction false} PredicatesMean(s: Store, ctes: Ctes, env: Env, t: Tenancy, f: Frame, from: From)
    requires Labelled(from) && |Labels(from)| <= |f|
    requires Named(f[..|Labels(from)|], Labels(from)) && Findable(f)
    ensures AllHold(s, ctes, env, f, Predicates(t, from)) <==> Mine(t, from)(f[..|Labels(from)|])
  {
    match from
    case Nowhere =>
    case Single(source) =>
      assert f[..1][0] == f[0];
      SourcePredicatesMean(s, ctes, env, t, f, 0, source);
    case Joined(left, kind, right, on) =>
      var k := |Labels(left)|;
      NamedPrefix(f, left, right, kind, on);
      PredicatesMean(s, ctes, env, t, f, left);
      SourcePredicatesMean(s, ctes, env, t, f, k, right);
      PredicatesJoined(s, ctes, env, t, f, left, kind, right, on, f[..k], f[k]);
      assert f[..|Labels(from)|] == f[..k] + [f[k]];
  }

  lemma {:induction false} MineJoined(t: Tenancy, left: From, kind: JoinKind, right: Source, on: Option<Expr>,
                                      l: Frame, r: Binding)
    ensures Mine(t, Joined(left, kind, right, on))(l + [r]) <==> Mine(t, left)(l) && MineBinding(t, right, r)
  {
    SplitSnoc(Mine(t, left), MineTest(t, right), l, r);
  }

  lemma {:induction false} PredicatesJoined(s: Store, ctes: Ctes, env: Env, t: Tenancy, f: Frame, left: From,
                                            kind: JoinKind, right: Source, on: Option<Expr>, l: Frame, r: Binding)
    requires AllHold(s, ctes, env, f, Predicates(t, left)) <==> Mine(t, left)(l)
    requires AllHold(s, ctes, env, f, SourcePredicates(t, right)) <==> MineBinding(t, right, r)
    ensures AllHold(s, ctes, env, f, Predicates(t, Joined(left, kind, right, on)))
       <==> Mine(t, Joined(left, kind, right, on))(l + [r])
  {
    PredicatesSplit(s, ctes, env, t, f, left, kind, right, on);
    MineJoined(t, left, kind, right, on, l, r);
  }

  lemma {:induction false} PredicatesSplit(s: Store, ctes: Ctes, env: Env, t: Tenancy, f: Frame, left: From,
                                           kind: JoinKind, right: Source, on: Option<Expr>)
    ensures AllHold(s, ctes, env, f, Predicates(t, Joined(left, kind, right, on)))
       <==> AllHold(s, ctes, env, f, Predicates(t, left)) && AllHold(s, ctes, env, f, SourcePredicates(t, right))
  {
    assert Predicates(t, Joined(left, kind, right, on)) == Predicates(t, left) + SourcePredicates(t, right);
    AllHoldAppend(s, ctes, env, f, Predicates(t, left), SourcePredicates(t, right));
  }

  /** The rewritten WHERE passes when the old one does and every added predicate holds. */
  lemma {:induction false} ConjoinMeans(s: Store, ctes: Ctes, env: Env, f: Frame, where: Option<Expr>, ps: seq<Expr>)
    ensures Passes(s, ctes, env + [f], [f], Conjoin(where, ps))
       <==> Passes(s, ctes, env + [f], [f], where) && AllHold(s, ctes, env, f, ps)
    decreases |ps|
  {
    if |ps| != 0 {
      var grown := if where.Some? then Both(where.value, ps[0]) else ps[0];
      ConjoinMeans(s, ctes, env, f, Some(grown), ps[1..]);
      assert ps == [ps[0]] + ps[1..];
      AllHoldAppend(s, ctes, env, f, [ps[0]], ps[1..]);
      GrownHolds(s, ctes, env, f, where, ps[0]);
      assert AllHold(s, ctes, env, f, [ps[0]]) <==> Holds(EvalExpr(s, ctes, env + [f], [f], ps[0])) by {
        assert ps[0] in [ps[0]];
      }
    }
  }

  lemma GrownHolds(s: Store, ctes: Ctes, env: Env, f: Frame, where: Option<Expr>, p: Expr)
    ensures var grown := if where.Some? then Both(where.value, p) else p;
      Passes(s, ctes, env + [f], [f], Some(grown))
      <==> Passes(s, ctes, env + [f], [f], where) && Holds(EvalExpr(s, ctes, env + [f], [f], p))
  {
    if where.Some? {
      var scope := env + [f];
      assert EvalExpr(s, ctes, scope, [f], Both(where.value, p))
          == And(EvalExpr(s, ctes, scope, [f], where.value), EvalExpr(s, ctes, scope, [f], p));
    }
  }
}
