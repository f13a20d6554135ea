/** The evaluator cannot tell alike databases apart, for any query whose names are all accounted for. */
module IndependenceTheorem {
  import opened Collections
  import opened Values
  import opened Schemas
  import opened Syntax
  import opened Evaluator
  import opened StatementTree
  import opened Encoding
  import opened TenantTheorem
  import opened Independence

  // ----- sources -----

  ghost predicate SourceOk(k: Knowledge, source: Source) {
    AllOk(k, EncodeSource(source))
  }

  lemma NullBindingAlike(k: Knowledge, ctes: Ctes, source: Source)
    requires SourceOk(k, source)
    ensures var b := NullBinding(k.schema, ctes, source); AlikeBinding(k, b, b)
  {
  }

  lemma {:induction false} NullFrameAlike(k: Knowledge, ctes: Ctes, from: From)
    requires FromOk(k, from)
    ensures var f := NullFrame(k.schema, ctes, from); AlikeFrame(k, f, f)
  {
    match from
    case Nowhere =>
    case Single(source) => NullBindingAlike(k, ctes, source);
    case Joined(left, _, right, _) =>
      NullFrameAlike(k, ctes, left);
      NullBindingAlike(k, ctes, right);
  }

  /** Every source and condition of a chain is accounted for. */
  ghost predicate FromOk(k: Knowledge, from: From) {
    match from
    case Nowhere => true
    case Single(source) => SourceOk(k, source)
    case Joined(left, _, right, on) => FromOk(k, left) && SourceOk(k, right) && ConditionOk(k, on)
  }

  ghost predicate ConditionOk(k: Knowledge, c: Option<Expr>) {
    forall t :: t in EncodeCondition(c) ==> AllOk(k, t)
  }

  ghost predicate ListOk(k: Knowledge, es: List<Expr>) {
    forall t :: t in EncodeExprs(es) ==> AllOk(k, t)
  }

  lemma {:induction false} ListOkCons(k: Knowledge, es: List<Expr>)
    requires es.Cons? && ListOk(k, es)
    ensures AllOk(k, EncodeExpr(es.head)) && ListOk(k, es.tail)
  {
    assert EncodeExprs(es)[0] in EncodeExprs(es);
    forall t | t in EncodeExprs(es.tail)
      ensures AllOk(k, t)
    {
      assert t in EncodeExprs(es);
    }
  }

  lemma {:induction false} KidsOk(k: Knowledge, t: Statement)
    requires AllOk(k, t)
    ensures forall s :: s in t.kids ==> AllOk(k, s)
  {
  }

  lemma {:induction false} FromOkFromTree(k: Knowledge, from: From)
    requires forall t :: t in EncodeFrom(from) ==> AllOk(k, t)
    ensures FromOk(k, from)
  {
    match from
    case Nowhere =>
    case Single(source) =>
      var node := EncodeFrom(from)[0];
      assert node in EncodeFrom(from);
      assert node.kids[0] == EncodeSource(source);
    case Joined(left, kind, right, on) =>
      var node := EncodeFrom(from)[|EncodeFrom(left)|];
      assert node in EncodeFrom(from);
      assert node.kids == [EncodeSource(right)] + EncodeCondition(on);
      KidsOk(k, node);
      assert node.kids[0] in node.kids;
      forall t | t in EncodeCondition(on)
        ensures AllOk(k, t)
      {
        assert t in node.kids;
      }
      forall t | t in EncodeFrom(left)
        ensures AllOk(k, t)
      {
        assert t in EncodeFrom(from);
      }
      FromOkFromTree(k, left);
  }

  ghost predicate CtesOk(k: Knowledge, list: List<Cte>) {
    match list
    case Nil => true
    case Cons(cte, rest) => AllOk(k, EncodeQuery(cte.query)) && CtesOk(k, rest)
  }

  lemma {:induction false} CtesOkFromTree(k: Knowledge, list: List<Cte>)
    requires forall t :: t in EncodeCtes(list) ==> AllOk(k, t)
    ensures CtesOk(k, list)
  {
    if list.Cons? {
      var node := EncodeCtes(list)[0];
      assert node in EncodeCtes(list);
      assert node.kids[0] == EncodeQuery(list.head.query);
      forall t | t in EncodeCtes(list.tail)
        ensures AllOk(k, t)
      {
        assert t in EncodeCtes(list);
      }
      CtesOkFromTree(k, list.tail);
    }
  }

  /** The clauses of an accounted-for SELECT are accounted for. */
  lemma {:induction false} SelectParts(k: Knowledge, q: Query)
    requires q.Select? && AllOk(k, EncodeQuery(q))
    ensures CtesOk(k, q.ctes) && ListOk(k, q.items) && FromOk(k, q.from)
    ensures ConditionOk(k, q.where) && ConditionOk(k, q.having) && ListOk(k, q.order)
    ensures q.grouping.Grouped? ==> ListOk(k, q.grouping.keys)
  {
    var t := EncodeQuery(q);
    KidsOk(k, t);
    var where, ctes, group, having, order := t.kids[0], t.kids[1], t.kids[2], t.kids[3], t.kids[4];
    assert where in t.kids && ctes in t.kids && group in t.kids && having in t.kids && order in t.kids;
    KidsOk(k, where);
    KidsOk(k, ctes);
    KidsOk(k, group);
    KidsOk(k, having);
    KidsOk(k, order);
    assert where.kids == EncodeCondition(q.where) && having.kids == EncodeCondition(q.having);
    assert order.kids == EncodeExprs(q.order) && ctes.kids == EncodeCtes(q.ctes);
    assert group.kids == EncodeGrouping(q.grouping);
    CtesOkFromTree(k, q.ctes);
    forall s | s in EncodeFrom(q.from) || s in EncodeExprs(q.items)
      ensures AllOk(k, s)
    {
      assert s in t.kids;
    }
    FromOkFromTree(k, q.from);
  }

  lemma {:induction false} SetParts(k: Knowledge, q: Query)
    requires q.SetOperation? && AllOk(k, EncodeQuery(q))
    ensures CtesOk(k, q.ctes) && AllOk(k, EncodeQuery(q.left)) && AllOk(k, EncodeQuery(q.right))
  {
    var t := EncodeQuery(q);
    assert t.kids[1] == EncodeQuery(q.left) && t.kids[2] == EncodeQuery(q.right);
    KidsOk(k, t.kids[0]);
    CtesOkFromTree(k, q.ctes);
  }

  lemma {:induction false} BindAlike(k: Knowledge, info: TableInfo, blank: Binding, xs: seq<Row>, ys: seq<Row>)
    requires AlikeBinding(k, blank, blank) && blank.origin == Some(info) && AlikeRows(k, info, xs, ys)
    ensures AlikeBindings(k, Map(xs, Bind(blank)), Map(ys, Bind(blank)))
  {
    forall i | 0 <= i < |xs|
      ensures AlikeBinding(k, Bind(blank)(xs[i]), Bind(blank)(ys[i]))
    {
      forall c | k.readable(info, c)
        ensures Field(Bind(blank)(xs[i]), c) == Field(Bind(blank)(ys[i]), c)
      {
        assert Cell(info, xs[i], c) == Cell(info, ys[i], c);
      }
    }
  }

  lemma {:induction false} DerivedAlike(k: Knowledge, blank: Binding, header: seq<string>, rows: seq<seq<Value>>)
    requires AlikeBinding(k, blank, blank) && blank.origin == None
    ensures AlikeBindings(k, Map(rows, BindNamed(blank, header)), Map(rows, BindNamed(blank, header)))
  {
  }

  lemma {:induction false} TableAlike(k: Knowledge, s: Store, r: Store, ctes: Ctes, env: Env, fnv: Env, source: Source)
    requires AlikeStores(k, s, r) && source.Table? && SourceOk(k, source)
    ensures AlikeBindings(k, EvalSource(s, ctes, env, source), EvalSource(r, ctes, fnv, source))
  {
    var blank := NullBinding(s.schema, ctes, source);
    NullBindingAlike(k, ctes, source);
    if source.name in ctes {
      DerivedAlike(k, blank, ctes[source.name].header, ctes[source.name].rows);
    } else {
      match s.schema.Table(source.name)
      case None =>
      case Some(info) =>
        if info in s.db {
          BindAlike(k, info, blank, s.db[info], r.db[info]);
        }
    }
  }

  // ----- closures on alike rows -----

  lemma AlikeExtended(k: Knowledge, env: Env, fnv: Env, f: Frame, g: Frame)
    requires AlikeFrames(k, env, fnv) && AlikeFrame(k, f, g)
    ensures AlikeFrames(k, env + [f], fnv + [g]) && AlikeFrames(k, [f], [g])
  {
  }

  lemma RepresentativeAlike(k: Knowledge, g: seq<Frame>, h: seq<Frame>, blank: Frame)
    requires AlikeFrames(k, g, h) && AlikeFrame(k, blank, blank)
    ensures AlikeFrame(k, Representative(g, blank), Representative(h, blank))
  {
    if |g| != 0 {
      assert AlikeFrame(k, g[0], h[0]);
    }
  }

  /** Two readings of an expression list, or of a condition, agree on all alike scopes. */
  ghost predicate AgreeValues(k: Knowledge, s: Store, r: Store, ctes: Ctes, es: List<Expr>) {
    forall env: Env, fnv: Env, g: seq<Frame>, h: seq<Frame> ::
      AlikeFrames(k, env, fnv) && AlikeFrames(k, g, h)
      ==> EvalExprs(s, ctes, env, g, es) == EvalExprs(r, ctes, fnv, h, es)
  }

  ghost predicate AgreeTests(k: Knowledge, s: Store, r: Store, ctes: Ctes, c: Option<Expr>) {
    forall env: Env, fnv: Env, g: seq<Frame>, h: seq<Frame> ::
      AlikeFrames(k, env, fnv) && AlikeFrames(k, g, h)
      ==> Passes(s, ctes, env, g, c) == Passes(r, ctes, fnv, h, c)
  }

  lemma {:induction false} RowTestsAgree(k: Knowledge, s: Store, r: Store, ctes: Ctes, env: Env, fnv: Env,
                                         c: Option<Expr>)
    requires AgreeTests(k, s, r, ctes, c) && AlikeFrames(k, env, fnv)
    ensures AlikeOnFrames(k, RowTest(s, ctes, env, c), RowTest(r, ctes, fnv, c))
  {
    forall f: Frame, g: Frame | AlikeFrame(k, f, g)
      ensures RowTest(s, ctes, env, c)(f) == RowTest(r, ctes, fnv, c)(g)
    {
      AlikeExtended(k, env, fnv, f, g);
      assert Passes(s, ctes, env + [f], [f], c) == Passes(r, ctes, fnv + [g], [g], c);
    }
  }

  lemma {:induction false} PairTestsAgree(k: Knowledge, s: Store, r: Store, ctes: Ctes, env: Env, fnv: Env,
                                          c: Option<Expr>)
    requires AgreeTests(k, s, r, ctes, c) && AlikeFrames(k, env, fnv)
    ensures AlikeOnPairs(k, PairTest(s, ctes, env, c), PairTest(r, ctes, fnv, c))
  {
    forall f: Frame, g: Frame, x: Binding, y: Binding | AlikeFrame(k, f, g) && AlikeBinding(k, x, y)
      ensures PairTest(s, ctes, env, c)(f, x) == PairTest(r, ctes, fnv, c)(g, y)
    {
      AlikeSnoc(k, f, g, x, y);
      AlikeExtended(k, env, fnv, f + [x], g + [y]);
      assert Passes(s, ctes, env + [f + [x]], [f + [x]], c) == Passes(r, ctes, fnv + [g + [y]], [g + [y]], c);
    }
  }

  lemma {:induction false} RowValuesAgree(k: Knowledge, s: Store, r: Store, ctes: Ctes, env: Env, fnv: Env,
                                          es: List<Expr>)
    requires AgreeValues(k, s, r, ctes, es) && AlikeFrames(k, env, fnv)
    ensures AlikeOnFrames(k, RowValues(s, ctes, env, es), RowValues(r, ctes, fnv, es))
  {
    forall f: Frame, g: Frame | AlikeFrame(k, f, g)
      ensures RowValues(s, ctes, env, es)(f) == RowValues(r, ctes, fnv, es)(g)
    {
      AlikeExtended(k, env, fnv, f, g);
      assert EvalExprs(s, ctes, env + [f], [f], es) == EvalExprs(r, ctes, fnv + [g], [g], es);
    }
  }

  lemma {:induction false} GroupTestsAgree(k: Knowledge, s: Store, r: Store, ctes: Ctes, env: Env, fnv: Env,
                                           blank: Frame, c: Option<Expr>)
    requires AgreeTests(k, s, r, ctes, c) && AlikeFrames(k, env, fnv) && AlikeFrame(k, blank, blank)
    ensures AlikeOnGroups(k, GroupTest(s, ctes, env, blank, c), GroupTest(r, ctes, fnv, blank, c))
  {
    forall g: seq<Frame>, h: seq<Frame> | AlikeFrames(k, g, h)
      ensures GroupTest(s, ctes, env, blank, c)(g) == GroupTest(r, ctes, fnv, blank, c)(h)
    {
      RepresentativeAlike(k, g, h, blank);
      var x, y := Representative(g, blank), Representative(h, blank);
      AlikeExtended(k, env, fnv, x, y);
      assert Passes(s, ctes, env + [x], g, c) == Passes(r, ctes, fnv + [y], h, c);
    }
  }

  lemma {:induction false} GroupValuesAgree(k: Knowledge, s: Store, r: Store, ctes: Ctes, env: Env, fnv: Env,
                                            blank: Frame, es: List<Expr>)
    requires AgreeValues(k, s, r, ctes, es) && AlikeFrames(k, env, fnv) && AlikeFrame(k, blank, blank)
    ensures AlikeOnGroups(k, GroupValues(s, ctes, env, blank, es), GroupValues(r, ctes, fnv, blank, es))
  {
    forall g: seq<Frame>, h: seq<Frame> | AlikeFrames(k, g, h)
      ensures GroupValues(s, ctes, env, blank, es)(g) == GroupValues(r, ctes, fnv, blank, es)(h)
    {
      RepresentativeAlike(k, g, h, blank);
      var x, y := Representative(g, blank), Representative(h, blank);
      AlikeExtended(k, env, fnv, x, y);
      assert EvalExprs(s, ctes, env + [x], g, es) == EvalExprs(r, ctes, fnv + [y], h, es);
    }
  }

  lemma {:induction false} GroupKeyAgrees(k: Knowledge, s: Store, r: Store, ctes: Ctes, env: Env, fnv: Env, q: Query)
    requires q.Select? && s.schema == r.schema && AlikeFrames(k, env, fnv) && AgreeValues(k, s, r, ctes, q.items)
    requires q.grouping.Grouped? ==> AgreeValues(k, s, r, ctes, q.grouping.keys)
    ensures AlikeKeys(k, GroupKey(s, ctes, env, q), GroupKey(r, ctes, fnv, q))
  {
    if q.grouping.Grouped? {
      RowValuesAgree(k, s, r, ctes, env, fnv, q.items);
      RowValuesAgree(k, s, r, ctes, env, fnv, q.grouping.keys);
      forall f: Frame, g: Frame | AlikeFrame(k, f, g)
        ensures GroupKey(s, ctes, env, q).value(f) == GroupKey(r, ctes, fnv, q).value(g)
      {
        assert RowValues(s, ctes, env, q.items)(f) == RowValues(r, ctes, fnv, q.items)(g);
        assert RowValues(s, ctes, env, q.grouping.keys)(f) == RowValues(r, ctes, fnv, q.grouping.keys)(g);
      }
    }
  }

  lemma {:induction false} SortKeyAgrees(k: Knowledge, s: Store, r: Store, ctes: Ctes, env: Env, fnv: Env, q: Query)
    requires q.Select? && AlikeStores(k, s, r) && AlikeFrames(k, env, fnv) && FromOk(k, q.from)
    requires AgreeValues(k, s, r, ctes, q.items) && AgreeValues(k, s, r, ctes, q.order)
    ensures AlikeSortKeys(k, SortKey(s, ctes, env, q), SortKey(r, ctes, fnv, q))
  {
    var blank := NullFrame(s.schema, ctes, q.from);
    NullFrameAlike(k, ctes, q.from);
    GroupValuesAgree(k, s, r, ctes, env, fnv, blank, q.items);
    GroupValuesAgree(k, s, r, ctes, env, fnv, blank, q.order);
    if !q.order.Nil? {
      forall g: seq<Frame>, h: seq<Frame> | AlikeFrames(k, g, h)
        ensures SortKey(s, ctes, env, q).value(g) == SortKey(r, ctes, fnv, q).value(h)
      {
        assert GroupValues(s, ctes, env, blank, q.items)(g) == GroupValues(r, ctes, fnv, blank, q.items)(h);
        assert GroupValues(s, ctes, env, blank, q.order)(g) == GroupValues(r, ctes, fnv, blank, q.order)(h);
      }
    }
  }

  /** One SELECT, given that its clauses agree. */
  lemma {:induction false} ClausesAgree(k: Knowledge, s: Store, r: Store, ctes: Ctes, env: Env, fnv: Env,
                                        fs: seq<Frame>, gs: seq<Frame>, q: Query)
    requires q.Select? && AlikeStores(k, s, r) && AlikeFrames(k, env, fnv) && AlikeFrames(k, fs, gs)
    requires FromOk(k, q.from) && AgreeTests(k, s, r, ctes, q.having)
    requires AgreeValues(k, s, r, ctes, q.items) && AgreeValues(k, s, r, ctes, q.order)
    requires q.grouping.Grouped? ==> AgreeValues(k, s, r, ctes, q.grouping.keys)
    ensures EvalClauses(s, ctes, env, fs, q) == EvalClauses(r, ctes, fnv, gs, q)
  {
    var blank := NullFrame(s.schema, ctes, q.from);
    NullFrameAlike(k, ctes, q.from);
    GroupTestsAgree(k, s, r, ctes, env, fnv, blank, q.having);
    GroupValuesAgree(k, s, r, ctes, env, fnv, blank, q.items);
    GroupKeyAgrees(k, s, r, ctes, env, fnv, q);
    SortKeyAgrees(k, s, r, ctes, env, fnv, q);
    ShapeAlike(k, s.world, fs, gs, GroupKey(s, ctes, env, q), GroupKey(r, ctes, fnv, q), q.grouping == Grouped(Nil),
               GroupTest(s, ctes, env, blank, q.having), GroupTest(r, ctes, fnv, blank, q.having),
               GroupValues(s, ctes, env, blank, q.items), GroupValues(r, ctes, fnv, blank, q.items),
               SortKey(s, ctes, env, q), SortKey(r, ctes, fnv, q), q.distinct);
  }

  // ----- the simulation -----

  lemma {:induction false} AgreeExpr(k: Knowledge, s: Store, r: Store, ctes: Ctes, env: Env, fnv: Env, g: seq<Frame>,
                                     h: seq<Frame>, e: Expr)
    requires AlikeStores(k, s, r) && AlikeFrames(k, env, fnv) && AlikeFrames(k, g, h) && AllOk(k, EncodeExpr(e))
    ensures EvalExpr(s, ctes, env, g, e) == EvalExpr(r, ctes, fnv, h, e)
    decreases e, 1
  {
    match e
    case Column(qualifier, name) =>
      assert EncodeExpr(e).tag == ColumnTag(qualifier, name);
      ResolveAlike(k, env, fnv, qualifier, name);
    case Literal(_) =>
    case Call(_, args) =>
      KidsOk(k, EncodeExpr(e));
      AgreeExprs(k, s, r, ctes, env, fnv, g, h, args);
    case Equals(_, _) => AgreeBinary(k, s, r, ctes, env, fnv, g, h, e);
    case Both(_, _) => AgreeBinary(k, s, r, ctes, env, fnv, g, h, e);
    case Either(_, _) => AgreeBinary(k, s, r, ctes, env, fnv, g, h, e);
    case Negated(_) => AgreeUnary(k, s, r, ctes, env, fnv, g, h, e);
    case IsNull(_) => AgreeUnary(k, s, r, ctes, env, fnv, g, h, e);
    case Aggregate(_, _) => AgreeAggregate(k, s, r, ctes, env, fnv, g, h, e);
    case CountStar =>
    case Alias(_, _) => AgreeUnary(k, s, r, ctes, env, fnv, g, h, e);
    case Exists(_) => AgreeSubquery(k, s, r, ctes, env, fnv, g, h, e);
    case In(_, _) => AgreeSubquery(k, s, r, ctes, env, fnv, g, h, e);
    case Scalar(_) => AgreeSubquery(k, s, r, ctes, env, fnv, g, h, e);
  }

  lemma {:induction false} AgreeBinary(k: Knowledge, s: Store, r: Store, ctes: Ctes, env: Env, fnv: Env,
                                       g: seq<Frame>, h: seq<Frame>, e: Expr)
    requires AlikeStores(k, s, r) && AlikeFrames(k, env, fnv) && AlikeFrames(k, g, h) && AllOk(k, EncodeExpr(e))
    requires e.Equals? || e.Both? || e.Either?
    ensures EvalExpr(s, ctes, env, g, e) == EvalExpr(r, ctes, fnv, h, e)
    decreases e, 0
  {
    AgreeTwo(k, e, e.left, e.right);
    AgreeExpr(k, s, r, ctes, env, fnv, g, h, e.left);
    AgreeExpr(k, s, r, ctes, env, fnv, g, h, e.right);
  }

  lemma {:induction false} AgreeUnary(k: Knowledge, s: Store, r: Store, ctes: Ctes, env: Env, fnv: Env, g: seq<Frame>,
                                      h: seq<Frame>, e: Expr)
    requires AlikeStores(k, s, r) && AlikeFrames(k, env, fnv) && AlikeFrames(k, g, h) && AllOk(k, EncodeExpr(e))
    requires e.Negated? || e.IsNull? || e.Alias?
    ensures EvalExpr(s, ctes, env, g, e) == EvalExpr(r, ctes, fnv, h, e)
    decreases e, 0
  {
    AgreeOne(k, e, e.operand);
    AgreeExpr(k, s, r, ctes, env, fnv, g, h, e.operand);
  }

  lemma {:induction false} AgreeAggregate(k: Knowledge, s: Store, r: Store, ctes: Ctes, env: Env, fnv: Env,
                                          g: seq<Frame>, h: seq<Frame>, e: Expr)
    requires AlikeStores(k, s, r) && AlikeFrames(k, env, fnv) && AlikeFrames(k, g, h) && AllOk(k, EncodeExpr(e))
    requires e.Aggregate?
    ensures EvalExpr(s, ctes, env, g, e) == EvalExpr(r, ctes, fnv, h, e)
    decreases e, 0
  {
    AgreeOne(k, e, e.operand);
    if |env| > 0 {
      var outer, outer' := env[..|env| - 1], fnv[..|fnv| - 1];
      var p, q := Operand(s, ctes, outer, e.operand), Operand(r, ctes, outer', e.operand);
      forall f: Frame, f': Frame | AlikeFrame(k, f, f')
        ensures p(f) == q(f')
      {
        AlikeExtended(k, outer, outer', f, f');
        AgreeExpr(k, s, r, ctes, outer + [f], outer' + [f'], [f], [f'], e.operand);
      }
      MapAlike(k, g, h, p, q);
    }
  }

  lemma {:induction false} AgreeSubquery(k: Knowledge, s: Store, r: Store, ctes: Ctes, env: Env, fnv: Env,
                                         g: seq<Frame>, h: seq<Frame>, e: Expr)
    requires AlikeStores(k, s, r) && AlikeFrames(k, env, fnv) && AlikeFrames(k, g, h) && AllOk(k, EncodeExpr(e))
    requires e.Exists? || e.In? || e.Scalar?
    ensures EvalExpr(s, ctes, env, g, e) == EvalExpr(r, ctes, fnv, h, e)
    decreases e, 0
  {
    SubqueryOk(k, e);
    if e.In? {
      AgreeExpr(k, s, r, ctes, env, fnv, g, h, e.operand);
    }
    AgreeQuery(k, s, r, ctes, env, fnv, e.query);
  }

  lemma {:induction false} AgreeOne(k: Knowledge, e: Expr, x: Expr)
    requires AllOk(k, EncodeExpr(e)) && |EncodeExpr(e).kids| == 1 && EncodeExpr(e).kids[0] == EncodeExpr(x)
    ensures AllOk(k, EncodeExpr(x))
  {
  }

  lemma {:induction false} AgreeTwo(k: Knowledge, e: Expr, x: Expr, y: Expr)
    requires AllOk(k, EncodeExpr(e)) && EncodeExpr(e).kids == [EncodeExpr(x), EncodeExpr(y)]
    ensures AllOk(k, EncodeExpr(x)) && AllOk(k, EncodeExpr(y))
  {
    assert EncodeExpr(e).kids[0] == EncodeExpr(x) && EncodeExpr(e).kids[1] == EncodeExpr(y);
  }

  lemma {:induction false} SubqueryOk(k: Knowledge, e: Expr)
    requires AllOk(k, EncodeExpr(e)) && (e.Exists? || e.In? || e.Scalar?)
    ensures AllOk(k, EncodeQuery(e.query)) && (e.In? ==> AllOk(k, EncodeExpr(e.operand)))
  {
    if e.In? {
      var sub := EncodeExpr(e).kids[1];
      assert EncodeExpr(e).kids[0] == EncodeExpr(e.operand) && sub.kids[0] == EncodeQuery(e.query);
    } else {
      assert EncodeExpr(e).kids[0] == EncodeQuery(e.query);
    }
  }

  lemma {:induction false} AgreeExprs(k: Knowledge, s: Store, r: Store, ctes: Ctes, env: Env, fnv: Env, g: seq<Frame>,
                                      h: seq<Frame>, es: List<Expr>)
    requires AlikeStores(k, s, r) && AlikeFrames(k, env, fnv) && AlikeFrames(k, g, h) && ListOk(k, es)
    ensures EvalExprs(s, ctes, env, g, es) == EvalExprs(r, ctes, fnv, h, es)
    decreases es, 0
  {
    if es.Cons? {
      ListOkCons(k, es);
      AgreeExpr(k, s, r, ctes, env, fnv, g, h, es.head);
      AgreeExprs(k, s, r, ctes, env, fnv, g, h, es.tail);
    }
  }

  lemma {:induction false} AgreeList(k: Knowledge, s: Store, r: Store, ctes: Ctes, es: List<Expr>)
    requires AlikeStores(k, s, r) && ListOk(k, es)
    ensures AgreeValues(k, s, r, ctes, es)
    decreases es, 1
  {
    forall env: Env, fnv: Env, g: seq<Frame>, h: seq<Frame> | AlikeFrames(k, env, fnv) && AlikeFrames(k, g, h)
      ensures EvalExprs(s, ctes, env, g, es) == EvalExprs(r, ctes, fnv, h, es)
    {
      AgreeExprs(k, s, r, ctes, env, fnv, g, h, es);
    }
  }

  lemma {:induction false} AgreeCondition(k: Knowledge, s: Store, r: Store, ctes: Ctes, c: Option<Expr>)
    requires AlikeStores(k, s, r) && ConditionOk(k, c)
    ensures AgreeTests(k, s, r, ctes, c)
    decreases c, 1
  {
    if c.Some? {
      assert EncodeExpr(c.value) in EncodeCondition(c);
      forall env: Env, fnv: Env, g: seq<Frame>, h: seq<Frame> | AlikeFrames(k, env, fnv) && AlikeFrames(k, g, h)
        ensures Passes(s, ctes, env, g, c) == Passes(r, ctes, fnv, h, c)
      {
        AgreeExpr(k, s, r, ctes, env, fnv, g, h, c.value);
      }
    }
  }

  lemma {:induction false} AgreeSource(k: Knowledge, s: Store, r: Store, ctes: Ctes, env: Env, fnv: Env, source: Source)
    requires AlikeStores(k, s, r) && AlikeFrames(k, env, fnv) && SourceOk(k, source)
    ensures AlikeBindings(k, EvalSource(s, ctes, env, source), EvalSource(r, ctes, fnv, source))
    decreases source, 0
  {
    match source
    case Table(_, _, _, _) => TableAlike(k, s, r, ctes, env, fnv, source);
    case Derived(q, _) =>
      assert EncodeSource(source).kids[0] == EncodeQuery(q);
      AgreeQuery(k, s, r, ctes, env, fnv, q);
      NullBindingAlike(k, ctes, source);
      DerivedAlike(k, NullBinding(s.schema, ctes, source), Header(q), EvalQuery(s, ctes, env, q));
  }

  lemma {:induction false} AloneAlike(k: Knowledge, bs: seq<Binding>, cs: seq<Binding>)
    requires AlikeBindings(k, bs, cs)
    ensures AlikeFrames(k, Map(bs, Alone), Map(cs, Alone))
  {
    forall i | 0 <= i < |bs|
      ensures AlikeFrame(k, Map(bs, Alone)[i], Map(cs, Alone)[i])
    {
      assert AlikeBinding(k, bs[i], cs[i]);
    }
  }

  lemma {:induction false} AgreeFrom(k: Knowledge, s: Store, r: Store, ctes: Ctes, env: Env, fnv: Env, from: From)
    requires AlikeStores(k, s, r) && AlikeFrames(k, env, fnv) && FromOk(k, from)
    ensures AlikeFrames(k, EvalFrom(s, ctes, env, from), EvalFrom(r, ctes, fnv, from))
    decreases from, 0
  {
    match from
    case Nowhere =>
    case Single(source) =>
      AgreeSource(k, s, r, ctes, env, fnv, source);
      AloneAlike(k, EvalSource(s, ctes, env, source), EvalSource(r, ctes, fnv, source));
    case Joined(left, kind, right, on) =>
      AgreeFrom(k, s, r, ctes, env, fnv, left);
      AgreeSource(k, s, r, ctes, env, fnv, right);
      AgreeCondition(k, s, r, ctes, on);
      PairTestsAgree(k, s, r, ctes, env, fnv, on);
      NullFrameAlike(k, ctes, left);
      NullBindingAlike(k, ctes, right);
      JoinAlike(k, EvalFrom(s, ctes, env, left), EvalFrom(r, ctes, fnv, left),
                EvalSource(s, ctes, env, right), EvalSource(r, ctes, fnv, right), kind,
                PairTest(s, ctes, env, on), PairTest(r, ctes, fnv, on),
                NullFrame(s.schema, ctes, left), NullBinding(s.schema, ctes, right));
  }

  lemma {:induction false} AgreeCtes(k: Knowledge, s: Store, r: Store, ctes: Ctes, env: Env, fnv: Env, list: List<Cte>)
    requires AlikeStores(k, s, r) && AlikeFrames(k, env, fnv) && CtesOk(k, list)
    ensures EvalCtes(s, ctes, env, list) == EvalCtes(r, ctes, fnv, list)
    decreases list, 0
  {
    match list
    case Nil =>
    case Cons(cte, rest) =>
      AgreeQuery(k, s, r, ctes, env, fnv, cte.query);
      var relation := Relation(Header(cte.query), EvalQuery(s, ctes, env, cte.query));
      AgreeCtes(k, s, r, ctes[cte.name := relation], env, fnv, rest);
  }

  /** Alike databases, alike scopes: the same result. */
  lemma {:induction false} AgreeQuery(k: Knowledge, s: Store, r: Store, outer: Ctes, env: Env, fnv: Env, q: Query)
    requires AlikeStores(k, s, r) && AlikeFrames(k, env, fnv) && AllOk(k, EncodeQuery(q))
    ensures EvalQuery(s, outer, env, q) == EvalQuery(r, outer, fnv, q)
    decreases q, 0
  {
    match q
    case Select(list, _, items, from, where, grouping, having, order, _) =>
      SelectParts(k, q);
      AgreeCtes(k, s, r, outer, env, fnv, list);
      var ctes := EvalCtes(s, outer, env, list);
      AgreeFrom(k, s, r, ctes, env, fnv, from);
      AgreeCondition(k, s, r, ctes, where);
      AgreeCondition(k, s, r, ctes, having);
      AgreeList(k, s, r, ctes, items);
      AgreeList(k, s, r, ctes, order);
      if grouping.Grouped? {
        AgreeList(k, s, r, ctes, grouping.keys);
      }
      SelectAgrees(k, s, r, outer, ctes, env, fnv, q);
    case SetOperation(list, _, left, right, _) =>
      SetParts(k, q);
      AgreeCtes(k, s, r, outer, env, fnv, list);
      var ctes := EvalCtes(s, outer, env, list);
      AgreeQuery(k, s, r, ctes, env, fnv, left);
      AgreeQuery(k, s, r, ctes, env, fnv, right);
  }

  lemma {:induction false} SelectAgrees(k: Knowledge, s: Store, r: Store, outer: Ctes, ctes: Ctes, env: Env, fnv: Env,
                                        q: Query)
    requires q.Select? && AlikeStores(k, s, r) && AlikeFrames(k, env, fnv) && FromOk(k, q.from)
    requires ctes == EvalCtes(s, outer, env, q.ctes) == EvalCtes(r, outer, fnv, q.ctes)
    requires AlikeFrames(k, EvalFrom(s, ctes, env, q.from), EvalFrom(r, ctes, fnv, q.from))
    requires AgreeTests(k, s, r, ctes, q.where) && AgreeTests(k, s, r, ctes, q.having)
    requires AgreeValues(k, s, r, ctes, q.items) && AgreeValues(k, s, r, ctes, q.order)
    requires q.grouping.Grouped? ==> AgreeValues(k, s, r, ctes, q.grouping.keys)
    ensures EvalQuery(s, outer, env, q) == EvalQuery(r, outer, fnv, q)
  {
    var rows, rows' := EvalFrom(s, ctes, env, q.from), EvalFrom(r, ctes, fnv, q.from);
    RowTestsAgree(k, s, r, ctes, env, fnv, q.where);
    FilterAlike(k, rows, rows', RowTest(s, ctes, env, q.where), RowTest(r, ctes, fnv, q.where));
    ClausesAgree(k, s, r, ctes, env, fnv, Filter(rows, RowTest(s, ctes, env, q.where)),
                 Filter(rows', RowTest(r, ctes, fnv, q.where)), q);
    SelectReads(s, outer, ctes, env, q);
    SelectReads(r, outer, ctes, fnv, q);
  }
}
