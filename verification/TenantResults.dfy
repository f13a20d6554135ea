/** Consequences of the main theorem: exact meaning, and rewriting twice. */
module TenantResults {
  import opened Collections
  import opened Values
  import opened Schemas
  import opened Syntax
  import opened Evaluator
  import opened JoinFilter
  import opened TenantRewrite
  import opened TenantMeaning
  import opened TenantTheorem

  // ----- exact meaning -----

  /** Where no outer join null-extends a tenant table (in particular without outer joins),
      the rewritten query is the original query on the tenant's own rows. */
  lemma {:induction false} ExactMeaning(s: Store, t: Tenancy, q: Query)
    requires s.schema == t.schema && GoodQuery(t.schema, q)
    requires Narrow(t, q) == q
    ensures EvalQuery(s, map[], [], Rewrite(t, q)) == EvalQuery(Own(s, t), map[], [], q)
  {
    RewriteQuery(s, t, map[], [], q);
  }

  // ----- exactly when an outer join keeps its reading -----

  ghost predicate HasMatch(l: Frame, rs: seq<Binding>, on: (Frame, Binding) -> bool) {
    exists r :: r in rs && on(l, r)
  }

  ghost predicate EveryLeftMatched(ls: seq<Frame>, rs: seq<Binding>, on: (Frame, Binding) -> bool) {
    forall l :: l in ls ==> HasMatch(l, rs, on)
  }

  ghost predicate EveryRightMatched(ls: seq<Frame>, rs: seq<Binding>, on: (Frame, Binding) -> bool) {
    forall r :: r in rs ==> Matched(ls, r, on)
  }

  lemma {:induction false} LeftPartLength(ls: seq<Frame>, rs: seq<Binding>, on: (Frame, Binding) -> bool,
                                          nullRight: Binding)
    ensures |LeftPart(ls, rs, true, on, nullRight)| >= |LeftPart(ls, rs, false, on, nullRight)|
    ensures |LeftPart(ls, rs, true, on, nullRight)| == |LeftPart(ls, rs, false, on, nullRight)|
       <==> EveryLeftMatched(ls, rs, on)
    ensures EveryLeftMatched(ls, rs, on) ==>
      LeftPart(ls, rs, true, on, nullRight) == LeftPart(ls, rs, false, on, nullRight)
  {
    if |ls| != 0 {
      LeftPartLength(ls[1..], rs, on, nullRight);
      MatchesEmpty(ls[0], rs, on);
      assert ls == [ls[0]] + ls[1..];
      assert EveryLeftMatched(ls, rs, on) <==>
             HasMatch(ls[0], rs, on) && EveryLeftMatched(ls[1..], rs, on);
    }
  }

  lemma {:induction false} RightPartLength(ls: seq<Frame>, rs: seq<Binding>, on: (Frame, Binding) -> bool,
                                           nullLeft: Frame)
    ensures |RightPart(ls, rs, on, nullLeft)| == 0 <==> EveryRightMatched(ls, rs, on)
  {
    if |rs| != 0 {
      RightPartLength(ls, rs[1..], on, nullLeft);
      assert rs == [rs[0]] + rs[1..];
    }
  }

  /** Narrowing a join changes nothing exactly when it had no row to null-extend. */
  lemma NarrowKindExact(ls: seq<Frame>, rs: seq<Binding>, kind: JoinKind, on: (Frame, Binding) -> bool,
                        nullLeft: Frame, nullRight: Binding, dropsLeft: bool, dropsRight: bool)
    ensures JoinRows(ls, rs, kind, on, nullLeft, nullRight)
         == JoinRows(ls, rs, NarrowKind(kind, dropsLeft, dropsRight), on, nullLeft, nullRight)
       <==> && (KeepsLeft(kind) && dropsRight ==> EveryLeftMatched(ls, rs, on))
            && (KeepsRight(kind) && dropsLeft ==> EveryRightMatched(ls, rs, on))
  {
    LeftPartLength(ls, rs, on, nullRight);
    RightPartLength(ls, rs, on, nullLeft);
    var l0, l1 := LeftPart(ls, rs, false, on, nullRight), LeftPart(ls, rs, true, on, nullRight);
    var r := RightPart(ls, rs, on, nullLeft);
    var narrow := NarrowKind(kind, dropsLeft, dropsRight);
    assert JoinRows(ls, rs, kind, on, nullLeft, nullRight)
        == (if KeepsLeft(kind) then l1 else l0) + (if KeepsRight(kind) then r else []);
    assert JoinRows(ls, rs, narrow, on, nullLeft, nullRight)
        == (if KeepsLeft(narrow) then l1 else l0) + (if KeepsRight(narrow) then r else []);
  }

  /** The rewriter reads a join of inner-joined parts as the original query does on the tenant's
      rows if and only if, among those rows, no tenant-table component would be null-extended. */
  lemma {:induction false} OuterJoinExact(s: Store, t: Tenancy, ctes: Ctes, env: Env, left: From, kind: JoinKind,
                                          right: Source, on: Option<Expr>)
    requires s.schema == t.schema && FreshCtes(s.schema, ctes)
    requires GoodFrom(t.schema, Joined(left, kind, right, on))
    requires ApplyFrom(NARROWS, t, left) == left && ApplySource(NARROWS, t, right) == right
    requires ApplyCondition(NARROWS, t, on) == on
    ensures var from := Joined(left, kind, right, on);
      var ls := EvalFrom(Own(s, t), ctes, env, left);
      var rs := EvalSource(Own(s, t), ctes, env, right);
      var test := PairTest(Own(s, t), ctes, env, on);
      Filter(EvalFrom(s, ctes, env, ApplyFrom(FILTERS, t, from)), Mine(t, from)) == EvalFrom(Own(s, t), ctes, env, from)
      <==> && (KeepsLeft(kind) && IsTenantSource(t, right) ==> EveryLeftMatched(ls, rs, test))
           && (KeepsRight(kind) && HasTenantSource(t, left) ==> EveryRightMatched(ls, rs, test))
  {
    RewriteFrom(s, t, ctes, env, Joined(left, kind, right, on));
    JoinedReads(NARROWS, Own(s, t), t, ctes, env, left, kind, right, on);
    NarrowKindExact(EvalFrom(Own(s, t), ctes, env, left), EvalSource(Own(s, t), ctes, env, right), kind,
                    PairTest(Own(s, t), ctes, env, on),
                    NullFrame(s.schema, ctes, left), NullBinding(s.schema, ctes, right),
                    HasTenantSource(t, left), IsTenantSource(t, right));
  }

  // ----- rewriting twice -----

  function Joint(m: Mode, n: Mode): Mode {
    Mode(m.filters || n.filters, m.narrows || n.narrows)
  }

  lemma {:induction false} ApplyConjoin(m: Mode, t: Tenancy, where: Option<Expr>, ps: seq<Expr>)
    requires forall p :: p in ps ==> ApplyExpr(m, t, p) == p
    ensures ApplyCondition(m, t, Conjoin(where, ps)) == Conjoin(ApplyCondition(m, t, where), ps)
    decreases |ps|
  {
    if |ps| != 0 {
      var grown := if where.Some? then Both(where.value, ps[0]) else ps[0];
      assert ps[0] in ps;
      assert ApplyCondition(m, t, Some(grown))
          == Some(if where.Some? then Both(ApplyExpr(m, t, where.value), ps[0]) else ps[0]);
      ApplyConjoin(m, t, Some(grown), ps[1..]);
    }
  }

  lemma {:induction false} ApplyPredicates(m: Mode, t: Tenancy, from: From)
    ensures forall p :: p in Predicates(t, from) ==> ApplyExpr(m, t, p) == p
  {
    if from.Joined? {
      ApplyPredicates(m, t, from.left);
    }
  }

  lemma {:induction false} ComposeExpr(m: Mode, n: Mode, t: Tenancy, e: Expr)
    requires !(m.filters && n.filters)
    ensures ApplyExpr(n, t, ApplyExpr(m, t, e)) == ApplyExpr(Joint(m, n), t, e)
  {
    match e
    case Column(_, _) =>
    case Literal(_) =>
    case Call(_, args) => ComposeExprs(m, n, t, args);
    case Equals(_, _) => ComposeBinary(m, n, t, e);
    case Both(_, _) => ComposeBinary(m, n, t, e);
    case Either(_, _) => ComposeBinary(m, n, t, e);
    case Negated(_) => ComposeUnary(m, n, t, e);
    case IsNull(_) => ComposeUnary(m, n, t, e);
    case Aggregate(_, _) => ComposeUnary(m, n, t, e);
    case CountStar =>
    case Alias(_, _) => ComposeUnary(m, n, t, e);
    case Exists(q) => ComposeQuery(m, n, t, q);
    case In(x, q) => ComposeExpr(m, n, t, x); ComposeQuery(m, n, t, q);
    case Scalar(q) => ComposeQuery(m, n, t, q);
  }

  lemma {:induction false} ComposeBinary(m: Mode, n: Mode, t: Tenancy, e: Expr)
    requires !(m.filters && n.filters) && (e.Equals? || e.Both? || e.Either?)
    ensures ApplyExpr(n, t, ApplyExpr(m, t, e)) == ApplyExpr(Joint(m, n), t, e)
    decreases m, n, t, e, 0
  {
    ComposeExpr(m, n, t, e.left);
    ComposeExpr(m, n, t, e.right);
  }

  lemma {:induction false} ComposeUnary(m: Mode, n: Mode, t: Tenancy, e: Expr)
    requires !(m.filters && n.filters) && (e.Negated? || e.IsNull? || e.Aggregate? || e.Alias?)
    ensures ApplyExpr(n, t, ApplyExpr(m, t, e)) == ApplyExpr(Joint(m, n), t, e)
    decreases m, n, t, e, 0
  {
    ComposeExpr(m, n, t, e.operand);
  }

  lemma {:induction false} ComposeExprs(m: Mode, n: Mode, t: Tenancy, es: List<Expr>)
    requires !(m.filters && n.filters)
    ensures ApplyExprs(n, t, ApplyExprs(m, t, es)) == ApplyExprs(Joint(m, n), t, es)
  {
    if es.Cons? {
      ComposeExpr(m, n, t, es.head);
      ComposeExprs(m, n, t, es.tail);
    }
  }

  lemma {:induction false} ComposeCondition(m: Mode, n: Mode, t: Tenancy, c: Option<Expr>)
    requires !(m.filters && n.filters)
    ensures ApplyCondition(n, t, ApplyCondition(m, t, c)) == ApplyCondition(Joint(m, n), t, c)
  {
    match c
    case None =>
    case Some(e) => ComposeExpr(m, n, t, e);
  }

  lemma {:induction false} ComposeSource(m: Mode, n: Mode, t: Tenancy, source: Source)
    requires !(m.filters && n.filters)
    ensures ApplySource(n, t, ApplySource(m, t, source)) == ApplySource(Joint(m, n), t, source)
  {
    match source
    case Table(_, _, _, _) =>
    case Derived(q, _) => ComposeQuery(m, n, t, q);
  }

  lemma {:induction false} ComposeFrom(m: Mode, n: Mode, t: Tenancy, from: From)
    requires !(m.filters && n.filters)
    ensures ApplyFrom(n, t, ApplyFrom(m, t, from)) == ApplyFrom(Joint(m, n), t, from)
  {
    match from
    case Nowhere =>
    case Single(source) => ComposeSource(m, n, t, source);
    case Joined(left, _, right, on) =>
      ComposeFrom(m, n, t, left);
      ComposeSource(m, n, t, right);
      ComposeCondition(m, n, t, on);
      ApplyKeepsSources(m, t, left);
  }

  lemma {:induction false} ComposeCtes(m: Mode, n: Mode, t: Tenancy, list: List<Cte>)
    requires !(m.filters && n.filters)
    ensures ApplyCtes(n, t, ApplyCtes(m, t, list)) == ApplyCtes(Joint(m, n), t, list)
  {
    match list
    case Nil =>
    case Cons(cte, rest) =>
      ComposeQuery(m, n, t, cte.query);
      ComposeCtes(m, n, t, rest);
  }

  lemma {:induction false} ComposeGrouping(m: Mode, n: Mode, t: Tenancy, g: Grouping)
    requires !(m.filters && n.filters)
    ensures ApplyGrouping(n, t, ApplyGrouping(m, t, g)) == ApplyGrouping(Joint(m, n), t, g)
  {
    match g
    case PerRow =>
    case Grouped(keys) => ComposeExprs(m, n, t, keys);
  }

  /** Filtering and narrowing commute, and narrowing is idempotent. */
  lemma {:induction false} ComposeQuery(m: Mode, n: Mode, t: Tenancy, q: Query)
    requires !(m.filters && n.filters)
    ensures ApplyQuery(n, t, ApplyQuery(m, t, q)) == ApplyQuery(Joint(m, n), t, q)
  {
    match q
    case Select(ctes, _, items, from, where, grouping, having, order, _) =>
      ComposeCtes(m, n, t, ctes);
      ComposeExprs(m, n, t, items);
      ComposeFrom(m, n, t, from);
      ComposeCondition(m, n, t, where);
      ComposeGrouping(m, n, t, grouping);
      ComposeCondition(m, n, t, having);
      ComposeExprs(m, n, t, order);
      ApplyPredicates(n, t, from);
      ApplyConjoin(n, t, ApplyCondition(m, t, where), Predicates(t, from));
      ApplyKeepsSources(m, t, from);
    case SetOperation(ctes, _, left, right, _) =>
      ComposeCtes(m, n, t, ctes);
      ComposeQuery(m, n, t, left);
      ComposeQuery(m, n, t, right);
  }

  // ----- both transformations keep statements acceptable -----

  lemma {:induction false} GoodConjoin(schema: Schema, where: Option<Expr>, ps: seq<Expr>)
    requires GoodCondition(schema, where) && forall p :: p in ps ==> GoodExpr(schema, p)
    ensures GoodCondition(schema, Conjoin(where, ps))
    decreases |ps|
  {
    if |ps| != 0 {
      var grown := if where.Some? then Both(where.value, ps[0]) else ps[0];
      assert ps[0] in ps;
      GoodConjoin(schema, Some(grown), ps[1..]);
    }
  }

  lemma {:induction false} GoodPredicates(t: Tenancy, from: From)
    ensures forall p :: p in Predicates(t, from) ==> GoodExpr(t.schema, p)
  {
    if from.Joined? {
      GoodPredicates(t, from.left);
    }
  }

  lemma {:induction false} ApplyGoodExpr(m: Mode, t: Tenancy, e: Expr)
    requires GoodExpr(t.schema, e)
    ensures GoodExpr(t.schema, ApplyExpr(m, t, e))
  {
    match e
    case Column(_, _) =>
    case Literal(_) =>
    case Call(_, args) => ApplyGoodExprs(m, t, args);
    case Equals(l, r) => ApplyGoodExpr(m, t, l); ApplyGoodExpr(m, t, r);
    case Both(l, r) => ApplyGoodExpr(m, t, l); ApplyGoodExpr(m, t, r);
    case Either(l, r) => ApplyGoodExpr(m, t, l); ApplyGoodExpr(m, t, r);
    case Negated(x) => ApplyGoodExpr(m, t, x);
    case IsNull(x) => ApplyGoodExpr(m, t, x);
    case Aggregate(_, x) => ApplyGoodExpr(m, t, x);
    case CountStar =>
    case Alias(x, _) => ApplyGoodExpr(m, t, x);
    case Exists(q) => ApplyGoodQuery(m, t, q);
    case In(x, q) => ApplyGoodExpr(m, t, x); ApplyGoodQuery(m, t, q);
    case Scalar(q) => ApplyGoodQuery(m, t, q);
  }

  lemma {:induction false} ApplyGoodExprs(m: Mode, t: Tenancy, es: List<Expr>)
    requires GoodExprs(t.schema, es)
    ensures GoodExprs(t.schema, ApplyExprs(m, t, es))
  {
    if es.Cons? {
      ApplyGoodExpr(m, t, es.head);
      ApplyGoodExprs(m, t, es.tail);
    }
  }

  lemma {:induction false} ApplyGoodCondition(m: Mode, t: Tenancy, c: Option<Expr>)
    requires GoodCondition(t.schema, c)
    ensures GoodCondition(t.schema, ApplyCondition(m, t, c))
  {
    match c
    case None =>
    case Some(e) => ApplyGoodExpr(m, t, e);
  }

  lemma {:induction false} ApplyGoodSource(m: Mode, t: Tenancy, source: Source)
    requires GoodSource(t.schema, source)
    ensures GoodSource(t.schema, ApplySource(m, t, source))
  {
    match source
    case Table(_, _, _, _) =>
    case Derived(q, _) => ApplyGoodQuery(m, t, q);
  }

  lemma {:induction false} ApplyGoodFrom(m: Mode, t: Tenancy, from: From)
    requires GoodFrom(t.schema, from)
    ensures GoodFrom(t.schema, ApplyFrom(m, t, from))
  {
    match from
    case Nowhere =>
    case Single(source) => ApplyGoodSource(m, t, source);
    case Joined(left, _, right, on) =>
      ApplyGoodFrom(m, t, left);
      ApplyGoodSource(m, t, right);
      ApplyGoodCondition(m, t, on);
  }

  lemma {:induction false} ApplyGoodCtes(m: Mode, t: Tenancy, list: List<Cte>)
    requires GoodCtes(t.schema, list)
    ensures GoodCtes(t.schema, ApplyCtes(m, t, list))
  {
    match list
    case Nil =>
    case Cons(cte, rest) =>
      ApplyGoodQuery(m, t, cte.query);
      ApplyGoodCtes(m, t, rest);
  }

  lemma {:induction false} ApplyGoodGrouping(m: Mode, t: Tenancy, g: Grouping)
    requires GoodGrouping(t.schema, g)
    ensures GoodGrouping(t.schema, ApplyGrouping(m, t, g))
  {
    match g
    case PerRow =>
    case Grouped(keys) => ApplyGoodExprs(m, t, keys);
  }

  lemma {:induction false} ApplyGoodQuery(m: Mode, t: Tenancy, q: Query)
    requires GoodQuery(t.schema, q)
    ensures GoodQuery(t.schema, ApplyQuery(m, t, q))
  {
    match q
    case Select(ctes, _, items, from, where, grouping, having, order, _) =>
      ApplyKeepsSources(m, t, from);
      ApplyGoodCtes(m, t, ctes);
      ApplyGoodExprs(m, t, items);
      ApplyGoodFrom(m, t, from);
      ApplyGoodCondition(m, t, where);
      ApplyGoodGrouping(m, t, grouping);
      ApplyGoodCondition(m, t, having);
      ApplyGoodExprs(m, t, order);
      GoodPredicates(t, from);
      GoodConjoin(t.schema, ApplyCondition(m, t, where), Predicates(t, from));
    case SetOperation(ctes, _, left, right, _) =>
      ApplyGoodCtes(m, t, ctes);
      ApplyGoodQuery(m, t, left);
      ApplyGoodQuery(m, t, right);
  }

  lemma RestrictTwice(db: Database, tenant: Value)
    ensures Restrict(Restrict(db, tenant), tenant) == Restrict(db, tenant)
  {
    forall info | info in db
      ensures OwnRows(tenant, info, OwnRows(tenant, info, db[info])) == OwnRows(tenant, info, db[info])
    {
      if info.tenantColumn.Some? && info.tenantColumn.value != "" {
        var own := OwnTest(tenant, info, info.tenantColumn.value);
        forall r | r in Filter(db[info], own)
          ensures own(r)
        {
          FilterMember(db[info], own, r);
        }
        FilterAll(Filter(db[info], own), own);
      }
    }
  }

  /** Rewriting a rewritten query again changes no result. */
  lemma {:induction false} RewriteTwice(s: Store, t: Tenancy, q: Query)
    requires s.schema == t.schema && GoodQuery(t.schema, q)
    ensures EvalQuery(s, map[], [], Rewrite(t, Rewrite(t, q))) == EvalQuery(s, map[], [], Rewrite(t, q))
  {
    ApplyGoodQuery(FILTERS, t, q);
    ApplyGoodQuery(NARROWS, t, q);
    RewriteQuery(s, t, map[], [], Rewrite(t, q));
    ComposeQuery(FILTERS, NARROWS, t, q);
    ComposeQuery(NARROWS, FILTERS, t, q);
    assert Narrow(t, Rewrite(t, q)) == Rewrite(t, Narrow(t, q));
    RewriteQuery(Own(s, t), t, map[], [], Narrow(t, q));
    ComposeQuery(NARROWS, NARROWS, t, q);
    RestrictTwice(s.db, t.tenant);
    RewriteQuery(s, t, map[], [], q);
  }
}
