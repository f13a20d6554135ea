/** The main results about tenant rewriting. */
module TenantTheorem {
  import opened Collections
  import opened Values
  import opened Schemas
  import opened Syntax
  import opened Evaluator
  import opened JoinFilter
  import opened TenantRewrite
  import opened TenantMeaning

  // ----- congruences of the evaluator's combinators -----

  lemma {:induction false} MapSame<A, B>(xs: seq<A>, f: A -> B, g: A -> B)
    requires forall x :: x in xs ==> f(x) == g(x)
    ensures Map(xs, f) == Map(xs, g)
  {
    if |xs| != 0 {
      MapSame(xs[1..], f, g);
    }
  }

  ghost predicate SameFunction<A(!new), B>(f: A -> B, g: A -> B) {
    forall x :: f(x) == g(x)
  }

  ghost predicate SameOption<A(!new), B>(f: Option<A -> B>, g: Option<A -> B>) {
    f.Some? == g.Some? && (f.Some? ==> SameFunction(f.value, g.value))
  }

  lemma GroupBySame(frames: seq<Frame>, key: Frame -> seq<Value>, key': Frame -> seq<Value>)
    requires SameFunction(key, key')
    ensures GroupBy(frames, key) == GroupBy(frames, key')
  {
    MapSame(frames, key, key');
    var ks := Distinct(Map(frames, key));
    forall k | k in ks
      ensures GroupOf(frames, key)(k) == GroupOf(frames, key')(k)
    {
      FilterSame(frames, HasKey(key, k), HasKey(key', k));
    }
    MapSame(ks, GroupOf(frames, key), GroupOf(frames, key'));
  }

  lemma ShapeSame(world: World, frames: seq<Frame>,
                  key: Option<Frame -> seq<Value>>, key': Option<Frame -> seq<Value>>, whole: bool,
                  having: seq<Frame> -> bool, having': seq<Frame> -> bool,
                  project: seq<Frame> -> seq<Value>, project': seq<Frame> -> seq<Value>,
                  sortKey: Option<seq<Frame> -> seq<Value>>, sortKey': Option<seq<Frame> -> seq<Value>>,
                  distinct: bool)
    requires SameOption(key, key') && SameOption(sortKey, sortKey')
    requires SameFunction(having, having') && SameFunction(project, project')
    ensures Shape(world, frames, key, whole, having, project, sortKey, distinct)
         == Shape(world, frames, key', whole, having', project', sortKey', distinct)
  {
    if key.Some? {
      GroupBySame(frames, key.value, key'.value);
    }
    var groups := Groups(frames, key, whole);
    assert groups == Groups(frames, key', whole);
    FilterSame(groups, having, having');
    var kept := Filter(groups, having);
    if sortKey.None? {
      MapSame(kept, project, project');
    } else {
      MapSame(kept, Keyed(sortKey.value, project), Keyed(sortKey'.value, project'));
    }
  }

  lemma {:induction false} NullFrameSame(m: Mode, t: Tenancy, schema: Schema, ctes: Ctes, from: From)
    ensures NullFrame(schema, ctes, ApplyFrom(m, t, from)) == NullFrame(schema, ctes, from)
  {
    match from
    case Nowhere =>
    case Single(source) => NullBindingSame(m, t, schema, ctes, source);
    case Joined(left, _, right, _) =>
      NullFrameSame(m, t, schema, ctes, left);
      NullBindingSame(m, t, schema, ctes, right);
  }

  lemma {:induction false} NullBindingSame(m: Mode, t: Tenancy, schema: Schema, ctes: Ctes, source: Source)
    ensures NullBinding(schema, ctes, ApplySource(m, t, source)) == NullBinding(schema, ctes, source)
  {
    if source.Derived? {
      ApplyKeepsHeader(m, t, source.query);
    }
  }

  // ----- base tables: filtering the bindings is restricting the database -----

  lemma {:induction false} FilterMap<A, B>(xs: seq<A>, f: A -> B, p: B -> bool)
    ensures Filter(Map(xs, f), p) == Map(Filter(xs, Compose(f, p)), f)
  {
    if |xs| != 0 {
      FilterMap(xs[1..], f, p);
      var rest := Filter(xs[1..], Compose(f, p));
      assert Map(xs, f)[1..] == Map(xs[1..], f);
      if p(f(xs[0])) {
        assert ([xs[0]] + rest)[1..] == rest;
      }
    }
  }

  lemma {:induction false} TableRestricts(s: Store, t: Tenancy, ctes: Ctes, env: Env, source: Source)
    requires source.Table? && s.schema == t.schema && (source.name in ctes ==> s.schema.Table(source.name).None?)
    ensures Filter(EvalSource(s, ctes, env, source), MineTest(t, source))
         == EvalSource(Own(s, t), ctes, env, source)
  {
    var blank := NullBinding(s.schema, ctes, source);
    var rows := BaseRows(s, source.name);
    match TenantColumn(t, source) {
      case None =>
        FilterAll(EvalSource(s, ctes, env, source), MineTest(t, source));
        assert BaseRows(Own(s, t), source.name) == rows;
      case Some(column) =>
        var info := s.schema.Table(source.name).value;
        assert EvalSource(s, ctes, env, source) == Map(rows, Bind(blank));
        FilterMap(rows, Bind(blank), MineTest(t, source));
        FilterSame(rows, Compose(Bind(blank), MineTest(t, source)), OwnTest(t.tenant, info, column));
        assert BaseRows(Own(s, t), source.name) == OwnRows(t.tenant, info, rows);
    }
  }

  // ----- one join, one SELECT -----

  /** A join whose sides and condition already agree. */
  lemma {:induction false} JoinStep(s: Store, t: Tenancy, ctes: Ctes, env: Env, left: From, kind: JoinKind,
                                    right: Source, on: Option<Expr>)
    requires s.schema == t.schema
    requires Filter(EvalFrom(s, ctes, env, ApplyFrom(FILTERS, t, left)), Mine(t, left))
          == EvalFrom(Own(s, t), ctes, env, ApplyFrom(NARROWS, t, left))
    requires Filter(EvalSource(s, ctes, env, ApplySource(FILTERS, t, right)), MineTest(t, right))
          == EvalSource(Own(s, t), ctes, env, ApplySource(NARROWS, t, right))
    requires forall l, r :: PairTest(s, ctes, env, ApplyCondition(FILTERS, t, on))(l, r)
                         == PairTest(Own(s, t), ctes, env, ApplyCondition(NARROWS, t, on))(l, r)
    ensures Filter(EvalFrom(s, ctes, env, ApplyFrom(FILTERS, t, Joined(left, kind, right, on))),
                   Mine(t, Joined(left, kind, right, on)))
         == EvalFrom(Own(s, t), ctes, env, ApplyFrom(NARROWS, t, Joined(left, kind, right, on)))
  {
    var ls := EvalFrom(s, ctes, env, ApplyFrom(FILTERS, t, left));
    var rs := EvalSource(s, ctes, env, ApplySource(FILTERS, t, right));
    var on0 := PairTest(s, ctes, env, ApplyCondition(FILTERS, t, on));
    var on1 := PairTest(Own(s, t), ctes, env, ApplyCondition(NARROWS, t, on));
    var nullLeft := NullFrame(s.schema, ctes, left);
    var nullRight := NullBinding(s.schema, ctes, right);
    var dropsLeft, dropsRight := HasTenantSource(t, left), IsTenantSource(t, right);
    JoinedReads(FILTERS, s, t, ctes, env, left, kind, right, on);
    JoinedReads(NARROWS, Own(s, t), t, ctes, env, left, kind, right, on);
    LeftSideFits(s, t, ctes, env, left);
    if dropsRight {
      MineNullBinding(t, ctes, right);
    }
    FilterJoin(ls, rs, kind, on0, nullLeft, nullRight, Mine(t, left), MineTest(t, right), dropsLeft, dropsRight);
    JoinRowsSame(Filter(ls, Mine(t, left)), Filter(rs, MineTest(t, right)),
                 NarrowKind(kind, dropsLeft, dropsRight), on0, on1, nullLeft, nullRight);
  }

  function JoinKindIn(m: Mode, t: Tenancy, left: From, kind: JoinKind, right: Source): JoinKind {
    if m.narrows then NarrowKind(kind, HasTenantSource(t, left), IsTenantSource(t, right)) else kind
  }

  lemma {:induction false} JoinedReads(m: Mode, s: Store, t: Tenancy, ctes: Ctes, env: Env, left: From,
                                       kind: JoinKind, right: Source, on: Option<Expr>)
    ensures EvalFrom(s, ctes, env, ApplyFrom(m, t, Joined(left, kind, right, on)))
         == JoinRows(EvalFrom(s, ctes, env, ApplyFrom(m, t, left)), EvalSource(s, ctes, env, ApplySource(m, t, right)),
                     JoinKindIn(m, t, left, kind, right), PairTest(s, ctes, env, ApplyCondition(m, t, on)),
                     NullFrame(s.schema, ctes, left), NullBinding(s.schema, ctes, right))
  {
    NullFrameSame(m, t, s.schema, ctes, left);
    NullBindingSame(m, t, s.schema, ctes, right);
  }

  lemma {:induction false} MineAlone(t: Tenancy, source: Source, b: Binding)
    ensures Mine(t, Single(source))(Alone(b)) == MineTest(t, source)(b)
  {
    var none: Frame := [];
    assert none + [b] == Alone(b);
    SplitSnoc((f: Frame) => true, MineTest(t, source), none, b);
  }

  /** A single source. */
  lemma {:induction false} SingleStep(s: Store, t: Tenancy, ctes: Ctes, env: Env, source: Source)
    requires Filter(EvalSource(s, ctes, env, ApplySource(FILTERS, t, source)), MineTest(t, source))
          == EvalSource(Own(s, t), ctes, env, ApplySource(NARROWS, t, source))
    ensures Filter(EvalFrom(s, ctes, env, ApplyFrom(FILTERS, t, Single(source))), Mine(t, Single(source)))
         == EvalFrom(Own(s, t), ctes, env, ApplyFrom(NARROWS, t, Single(source)))
  {
    var bs := EvalSource(s, ctes, env, ApplySource(FILTERS, t, source));
    SingleFilter(t, source, bs);
  }

  lemma {:induction false} SingleFilter(t: Tenancy, source: Source, bs: seq<Binding>)
    ensures Filter(Map(bs, Alone), Mine(t, Single(source))) == Map(Filter(bs, MineTest(t, source)), Alone)
  {
    var mine := Mine(t, Single(source));
    FilterMap(bs, Alone, mine);
    forall b: Binding
      ensures Compose(Alone, mine)(b) == MineTest(t, source)(b)
    {
      MineAlone(t, source, b);
    }
    FilterSame(bs, Compose(Alone, mine), MineTest(t, source));
  }

  lemma {:induction false} LeftSideFits(s: Store, t: Tenancy, ctes: Ctes, env: Env, left: From)
    requires s.schema == t.schema
    ensures HasTenantSource(t, left) ==> !Mine(t, left)(NullFrame(s.schema, ctes, left))
    ensures !HasTenantSource(t, left) ==>
      && Mine(t, left)(NullFrame(s.schema, ctes, left))
      && forall l :: l in EvalFrom(s, ctes, env, ApplyFrom(FILTERS, t, left)) ==> Mine(t, left)(l)
  {
    if HasTenantSource(t, left) {
      MineNullFrame(t, ctes, left);
    } else {
      NullFrameNamed(s.schema, ctes, left);
      MineWithoutTenant(t, left, NullFrame(s.schema, ctes, left));
      forall l | l in EvalFrom(s, ctes, env, ApplyFrom(FILTERS, t, left))
        ensures Mine(t, left)(l)
      {
        EvalFromNamed(s, ctes, env, ApplyFrom(FILTERS, t, left), l);
        ApplyKeepsSources(FILTERS, t, left);
        MineWithoutTenant(t, left, l);
      }
    }
  }

  /** The rows WHERE keeps: adding the predicates is dropping the other tenants' rows first. */
  lemma {:induction false} WhereStep(s: Store, t: Tenancy, ctes: Ctes, env: Env, from: From, where: Option<Expr>)
    requires s.schema == t.schema && Labelled(from) && Unique(Labels(from))
    requires Filter(EvalFrom(s, ctes, env, ApplyFrom(FILTERS, t, from)), Mine(t, from))
          == EvalFrom(Own(s, t), ctes, env, ApplyFrom(NARROWS, t, from))
    requires forall f :: RowTest(s, ctes, env, ApplyCondition(FILTERS, t, where))(f)
                      == RowTest(Own(s, t), ctes, env, ApplyCondition(NARROWS, t, where))(f)
    ensures Filter(EvalFrom(s, ctes, env, ApplyFrom(FILTERS, t, from)),
                   RowTest(s, ctes, env, Conjoin(ApplyCondition(FILTERS, t, where), Predicates(t, from))))
         == Filter(EvalFrom(Own(s, t), ctes, env, ApplyFrom(NARROWS, t, from)),
                   RowTest(Own(s, t), ctes, env, ApplyCondition(NARROWS, t, where)))
  {
    var frames := EvalFrom(s, ctes, env, ApplyFrom(FILTERS, t, from));
    var where0 := ApplyCondition(FILTERS, t, where);
    var all := RowTest(s, ctes, env, Conjoin(where0, Predicates(t, from)));
    var old0 := RowTest(s, ctes, env, where0);
    var old1 := RowTest(Own(s, t), ctes, env, ApplyCondition(NARROWS, t, where));
    forall f | f in frames
      ensures all(f) == AndAlso(Mine(t, from), old0)(f)
    {
      EvalFromNamed(s, ctes, env, ApplyFrom(FILTERS, t, from), f);
      ApplyKeepsSources(FILTERS, t, from);
      RewrittenWhere(s, t, ctes, env, from, where0, f);
    }
    FilterSame(frames, all, AndAlso(Mine(t, from), old0));
    FilterTwice(frames, Mine(t, from), old0);
    FilterSame(Filter(frames, Mine(t, from)), old0, old1);
  }

  /** On one joined row: the rewritten WHERE is the old WHERE and ownership of every component. */
  lemma {:induction false} RewrittenWhere(s: Store, t: Tenancy, ctes: Ctes, env: Env, from: From, where: Option<Expr>,
                                          f: Frame)
    requires Labelled(from) && Unique(Labels(from)) && Named(f, Labels(from))
    ensures RowTest(s, ctes, env, Conjoin(where, Predicates(t, from)))(f)
        <==> Mine(t, from)(f) && RowTest(s, ctes, env, where)(f)
  {
    assert f[..|Labels(from)|] == f;
    DistinctFindable(f, Labels(from));
    PredicatesMean(s, ctes, env, t, f, from);
    ConjoinMeans(s, ctes, env, f, where, Predicates(t, from));
  }

  /** Two readings of an expression list, or of a condition, agree everywhere. */
  ghost predicate SameValues(s0: Store, s1: Store, ctes: Ctes, es0: List<Expr>, es1: List<Expr>) {
    forall e: Env, g: seq<Frame> :: EvalExprs(s0, ctes, e, g, es0) == EvalExprs(s1, ctes, e, g, es1)
  }

  ghost predicate SameTests(s0: Store, s1: Store, ctes: Ctes, c0: Option<Expr>, c1: Option<Expr>) {
    forall e: Env, g: seq<Frame> :: Passes(s0, ctes, e, g, c0) == Passes(s1, ctes, e, g, c1)
  }

  lemma {:induction false} GroupTestsSame(s0: Store, s1: Store, ctes: Ctes, env: Env, blank: Frame, c0: Option<Expr>,
                                          c1: Option<Expr>)
    requires SameTests(s0, s1, ctes, c0, c1)
    ensures SameFunction(GroupTest(s0, ctes, env, blank, c0), GroupTest(s1, ctes, env, blank, c1))
  {
    forall g: seq<Frame>
      ensures GroupTest(s0, ctes, env, blank, c0)(g) == GroupTest(s1, ctes, env, blank, c1)(g)
    {
      var e := env + [Representative(g, blank)];
      assert Passes(s0, ctes, e, g, c0) == Passes(s1, ctes, e, g, c1);
    }
  }

  lemma {:induction false} GroupValuesSame(s0: Store, s1: Store, ctes: Ctes, env: Env, blank: Frame, es0: List<Expr>,
                                           es1: List<Expr>)
    requires SameValues(s0, s1, ctes, es0, es1)
    ensures SameFunction(GroupValues(s0, ctes, env, blank, es0), GroupValues(s1, ctes, env, blank, es1))
  {
    forall g: seq<Frame>
      ensures GroupValues(s0, ctes, env, blank, es0)(g) == GroupValues(s1, ctes, env, blank, es1)(g)
    {
      var e := env + [Representative(g, blank)];
      assert EvalExprs(s0, ctes, e, g, es0) == EvalExprs(s1, ctes, e, g, es1);
    }
  }

  lemma {:induction false} RowValuesSame(s0: Store, s1: Store, ctes: Ctes, env: Env, es0: List<Expr>, es1: List<Expr>)
    requires SameValues(s0, s1, ctes, es0, es1)
    ensures SameFunction(RowValues(s0, ctes, env, es0), RowValues(s1, ctes, env, es1))
  {
    forall f: Frame
      ensures RowValues(s0, ctes, env, es0)(f) == RowValues(s1, ctes, env, es1)(f)
    {
      assert EvalExprs(s0, ctes, env + [f], [f], es0) == EvalExprs(s1, ctes, env + [f], [f], es1);
    }
  }

  lemma {:induction false} RowTestsSame(s0: Store, s1: Store, ctes: Ctes, env: Env, c0: Option<Expr>, c1: Option<Expr>)
    requires SameTests(s0, s1, ctes, c0, c1)
    ensures forall f :: RowTest(s0, ctes, env, c0)(f) == RowTest(s1, ctes, env, c1)(f)
  {
    forall f: Frame
      ensures RowTest(s0, ctes, env, c0)(f) == RowTest(s1, ctes, env, c1)(f)
    {
      assert Passes(s0, ctes, env + [f], [f], c0) == Passes(s1, ctes, env + [f], [f], c1);
    }
  }

  lemma {:induction false} PairTestsSame(s0: Store, s1: Store, ctes: Ctes, env: Env, c0: Option<Expr>, c1: Option<Expr>)
    requires SameTests(s0, s1, ctes, c0, c1)
    ensures forall l, r :: PairTest(s0, ctes, env, c0)(l, r) == PairTest(s1, ctes, env, c1)(l, r)
  {
    forall l: Frame, r: Binding
      ensures PairTest(s0, ctes, env, c0)(l, r) == PairTest(s1, ctes, env, c1)(l, r)
    {
      assert Passes(s0, ctes, env + [l + [r]], [l + [r]], c0) == Passes(s1, ctes, env + [l + [r]], [l + [r]], c1);
    }
  }

  /** Two key lists refer to the same output columns. */
  ghost predicate SameKeys(keys0: List<Expr>, keys1: List<Expr>) {
    && keys0.Nil? == keys1.Nil?
    && forall header: seq<string>, inputs: Frame, row: seq<Value>, plain: seq<Value> ::
         OutputKeys(header, inputs, keys0, row, plain) == OutputKeys(header, inputs, keys1, row, plain)
  }

  lemma {:induction false} KeyedBySame<G(!new)>(header: seq<string>, inputs: Frame, keys0: List<Expr>,
                                                keys1: List<Expr>, project0: G -> seq<Value>,
                                                project1: G -> seq<Value>, plain0: G -> seq<Value>,
                                                plain1: G -> seq<Value>)
    requires SameKeys(keys0, keys1) && SameFunction(project0, project1) && SameFunction(plain0, plain1)
    ensures SameFunction(KeyedBy(header, inputs, keys0, project0, plain0),
                         KeyedBy(header, inputs, keys1, project1, plain1))
  {
    forall g: G
      ensures KeyedBy(header, inputs, keys0, project0, plain0)(g)
           == KeyedBy(header, inputs, keys1, project1, plain1)(g)
    {
      assert project0(g) == project1(g) && plain0(g) == plain1(g);
      assert OutputKeys(header, inputs, keys0, project0(g), plain0(g))
          == OutputKeys(header, inputs, keys1, project0(g), plain0(g));
    }
  }

  /** Two queries whose groupings agree. */
  ghost predicate SameGrouping(s0: Store, s1: Store, ctes: Ctes, q0: Query, q1: Query)
    requires q0.Select? && q1.Select?
  {
    && q0.grouping.Grouped? == q1.grouping.Grouped?
    && (q0.grouping.Grouped? ==>
          SameValues(s0, s1, ctes, q0.grouping.keys, q1.grouping.keys) && SameKeys(q0.grouping.keys, q1.grouping.keys))
  }

  lemma {:induction false} GroupKeySame(s0: Store, s1: Store, ctes: Ctes, env: Env, q0: Query, q1: Query)
    requires q0.Select? && q1.Select? && OutputNames(q0.items) == OutputNames(q1.items)
    requires NullFrame(s0.schema, ctes, q0.from) == NullFrame(s1.schema, ctes, q1.from)
    requires SameValues(s0, s1, ctes, q0.items, q1.items) && SameGrouping(s0, s1, ctes, q0, q1)
    ensures SameOption(GroupKey(s0, ctes, env, q0), GroupKey(s1, ctes, env, q1))
  {
    if q0.grouping.Grouped? {
      RowValuesSame(s0, s1, ctes, env, q0.items, q1.items);
      RowValuesSame(s0, s1, ctes, env, q0.grouping.keys, q1.grouping.keys);
      KeyedBySame(OutputNames(q0.items), NullFrame(s0.schema, ctes, q0.from), q0.grouping.keys, q1.grouping.keys,
                  RowValues(s0, ctes, env, q0.items), RowValues(s1, ctes, env, q1.items),
                  RowValues(s0, ctes, env, q0.grouping.keys), RowValues(s1, ctes, env, q1.grouping.keys));
    }
  }

  lemma {:induction false} SortKeySame(s0: Store, s1: Store, ctes: Ctes, env: Env, q0: Query, q1: Query)
    requires q0.Select? && q1.Select? && OutputNames(q0.items) == OutputNames(q1.items)
    requires NullFrame(s0.schema, ctes, q0.from) == NullFrame(s1.schema, ctes, q1.from)
    requires SameValues(s0, s1, ctes, q0.items, q1.items) && SameValues(s0, s1, ctes, q0.order, q1.order)
    requires SameKeys(q0.order, q1.order)
    ensures SameOption(SortKey(s0, ctes, env, q0), SortKey(s1, ctes, env, q1))
  {
    var blank := NullFrame(s0.schema, ctes, q0.from);
    GroupValuesSame(s0, s1, ctes, env, blank, q0.items, q1.items);
    GroupValuesSame(s0, s1, ctes, env, blank, q0.order, q1.order);
    KeyedBySame(OutputNames(q0.items), [], q0.order, q1.order,
                GroupValues(s0, ctes, env, blank, q0.items), GroupValues(s1, ctes, env, blank, q1.items),
                GroupValues(s0, ctes, env, blank, q0.order), GroupValues(s1, ctes, env, blank, q1.order));
  }

  /** A SELECT whose clauses agree yields the same rows from the same joined rows. */
  lemma {:induction false} ClausesSame(s0: Store, s1: Store, ctes: Ctes, env: Env, frames: seq<Frame>, q0: Query,
                                       q1: Query)
    requires q0.Select? && q1.Select? && s0.world == s1.world && OutputNames(q0.items) == OutputNames(q1.items)
    requires NullFrame(s0.schema, ctes, q0.from) == NullFrame(s1.schema, ctes, q1.from)
    requires SameTests(s0, s1, ctes, q0.having, q1.having)
    requires SameValues(s0, s1, ctes, q0.items, q1.items) && SameValues(s0, s1, ctes, q0.order, q1.order)
    requires SameGrouping(s0, s1, ctes, q0, q1) && SameKeys(q0.order, q1.order) && q0.distinct == q1.distinct
    ensures EvalClauses(s0, ctes, env, frames, q0) == EvalClauses(s1, ctes, env, frames, q1)
  {
    var blank := NullFrame(s0.schema, ctes, q0.from);
    GroupKeySame(s0, s1, ctes, env, q0, q1);
    SortKeySame(s0, s1, ctes, env, q0, q1);
    GroupTestsSame(s0, s1, ctes, env, blank, q0.having, q1.having);
    GroupValuesSame(s0, s1, ctes, env, blank, q0.items, q1.items);
    ShapeSame(s0.world, frames, GroupKey(s0, ctes, env, q0), GroupKey(s1, ctes, env, q1), q0.grouping == Grouped(Nil),
              GroupTest(s0, ctes, env, blank, q0.having), GroupTest(s1, ctes, env, blank, q1.having),
              GroupValues(s0, ctes, env, blank, q0.items), GroupValues(s1, ctes, env, blank, q1.items),
              SortKey(s0, ctes, env, q0), SortKey(s1, ctes, env, q1), q0.distinct);
  }

  /** Both transformations leave output names and the keys that refer to them alone. */
  lemma {:induction false} OutputKeysApply(m: Mode, t: Tenancy, header: seq<string>, inputs: Frame, keys: List<Expr>,
                                           row: seq<Value>, plain: seq<Value>)
    ensures OutputKeys(header, inputs, ApplyExprs(m, t, keys), row, plain)
         == OutputKeys(header, inputs, keys, row, plain)
  {
    if keys.Cons? && |plain| != 0 {
      OutputKeysApply(m, t, header, inputs, keys.tail, row, plain[1..]);
      assert ApplyExpr(m, t, keys.head).Column? <==> keys.head.Column?;
    }
  }

  lemma {:induction false} SameKeysApply(t: Tenancy, keys: List<Expr>)
    ensures SameKeys(ApplyExprs(FILTERS, t, keys), ApplyExprs(NARROWS, t, keys))
  {
    forall header: seq<string>, inputs: Frame, row: seq<Value>, plain: seq<Value>
      ensures OutputKeys(header, inputs, ApplyExprs(FILTERS, t, keys), row, plain)
           == OutputKeys(header, inputs, ApplyExprs(NARROWS, t, keys), row, plain)
    {
      OutputKeysApply(FILTERS, t, header, inputs, keys, row, plain);
      OutputKeysApply(NARROWS, t, header, inputs, keys, row, plain);
    }
  }

  /** A SELECT whose parts agree. */
  lemma {:induction false} SelectStep(s: Store, t: Tenancy, outer: Ctes, ctes: Ctes, env: Env, q: Query)
    requires s.schema == t.schema && q.Select? && GoodQuery(t.schema, q)
    requires ctes == EvalCtes(s, outer, env, ApplyCtes(FILTERS, t, q.ctes))
                  == EvalCtes(Own(s, t), outer, env, ApplyCtes(NARROWS, t, q.ctes))
    requires Filter(EvalFrom(s, ctes, env, ApplyFrom(FILTERS, t, q.from)), Mine(t, q.from))
          == EvalFrom(Own(s, t), ctes, env, ApplyFrom(NARROWS, t, q.from))
    requires SameTests(s, Own(s, t), ctes, ApplyCondition(FILTERS, t, q.where), ApplyCondition(NARROWS, t, q.where))
    requires SameTests(s, Own(s, t), ctes, ApplyCondition(FILTERS, t, q.having), ApplyCondition(NARROWS, t, q.having))
    requires SameValues(s, Own(s, t), ctes, ApplyExprs(FILTERS, t, q.items), ApplyExprs(NARROWS, t, q.items))
    requires SameValues(s, Own(s, t), ctes, ApplyExprs(FILTERS, t, q.order), ApplyExprs(NARROWS, t, q.order))
    requires q.grouping.Grouped? ==>
      SameValues(s, Own(s, t), ctes, ApplyExprs(FILTERS, t, q.grouping.keys), ApplyExprs(NARROWS, t, q.grouping.keys))
    ensures EvalQuery(s, outer, env, Rewrite(t, q)) == EvalQuery(Own(s, t), outer, env, Narrow(t, q))
  {
    var q0, q1 := Rewrite(t, q), Narrow(t, q);
    assert q0.where == Conjoin(ApplyCondition(FILTERS, t, q.where), Predicates(t, q.from));
    assert q1.where == ApplyCondition(NARROWS, t, q.where);
    assert q0.items == ApplyExprs(FILTERS, t, q.items) && q1.items == ApplyExprs(NARROWS, t, q.items);
    assert q0.grouping == ApplyGrouping(FILTERS, t, q.grouping) && q1.grouping == ApplyGrouping(NARROWS, t, q.grouping);
    ApplyKeepsNames(FILTERS, t, q.items);
    ApplyKeepsNames(NARROWS, t, q.items);
    SameKeysApply(t, q.order);
    if q.grouping.Grouped? {
      SameKeysApply(t, q.grouping.keys);
    }
    assert q0.order == ApplyExprs(FILTERS, t, q.order) && q1.order == ApplyExprs(NARROWS, t, q.order);
    assert q0.having == ApplyCondition(FILTERS, t, q.having) && q1.having == ApplyCondition(NARROWS, t, q.having);
    RowTestsSame(s, Own(s, t), ctes, env, ApplyCondition(FILTERS, t, q.where), ApplyCondition(NARROWS, t, q.where));
    GoodLabelled(t.schema, q.from);
    WhereStep(s, t, ctes, env, q.from, q.where);
    NullFrameSame(FILTERS, t, s.schema, ctes, q.from);
    NullFrameSame(NARROWS, t, s.schema, ctes, q.from);
    var frames := Filter(EvalFrom(s, ctes, env, q0.from), RowTest(s, ctes, env, q0.where));
    assert frames == Filter(EvalFrom(Own(s, t), ctes, env, q1.from), RowTest(Own(s, t), ctes, env, q1.where));
    ClausesSame(s, Own(s, t), ctes, env, frames, q0, q1);
    SelectReads(s, outer, ctes, env, q0);
    SelectReads(Own(s, t), outer, ctes, env, q1);
  }

  lemma {:induction false} SelectReads(s: Store, outer: Ctes, ctes: Ctes, env: Env, q: Query)
    requires q.Select? && ctes == EvalCtes(s, outer, env, q.ctes)
    ensures EvalQuery(s, outer, env, q)
         == Limited(s.world, q.limit,
                    EvalClauses(s, ctes, env,
                                Filter(EvalFrom(s, ctes, env, q.from), RowTest(s, ctes, env, q.where)), q))
  {
  }

  // ----- the simulation, one lemma for each syntactic category -----

  lemma {:induction false} RewriteExpr(s: Store, t: Tenancy, ctes: Ctes, env: Env, group: seq<Frame>, e: Expr)
    requires s.schema == t.schema && FreshCtes(s.schema, ctes) && GoodExpr(t.schema, e)
    ensures EvalExpr(s, ctes, env, group, ApplyExpr(FILTERS, t, e))
         == EvalExpr(Own(s, t), ctes, env, group, ApplyExpr(NARROWS, t, e))
    decreases e, 1
  {
    match e
    case Column(_, _) =>
    case Literal(_) =>
    case Call(f, args) => RewriteExprs(s, t, ctes, env, group, args);
    case Equals(_, _) => RewriteBinary(s, t, ctes, env, group, e);
    case Both(_, _) => RewriteBinary(s, t, ctes, env, group, e);
    case Either(_, _) => RewriteBinary(s, t, ctes, env, group, e);
    case Negated(_) => RewriteUnary(s, t, ctes, env, group, e);
    case IsNull(_) => RewriteUnary(s, t, ctes, env, group, e);
    case Aggregate(_, _) => RewriteAggregate(s, t, ctes, env, group, e);
    case CountStar =>
    case Alias(_, _) => RewriteUnary(s, t, ctes, env, group, e);
    case Exists(q) => RewriteQuery(s, t, ctes, env, q);
    case In(x, q) => RewriteExpr(s, t, ctes, env, group, x); RewriteQuery(s, t, ctes, env, q);
    case Scalar(q) => RewriteQuery(s, t, ctes, env, q);
  }

  lemma {:induction false} RewriteBinary(s: Store, t: Tenancy, ctes: Ctes, env: Env, group: seq<Frame>, e: Expr)
    requires s.schema == t.schema && FreshCtes(s.schema, ctes) && GoodExpr(t.schema, e)
    requires e.Equals? || e.Both? || e.Either?
    ensures EvalExpr(s, ctes, env, group, ApplyExpr(FILTERS, t, e))
         == EvalExpr(Own(s, t), ctes, env, group, ApplyExpr(NARROWS, t, e))
    decreases e, 0
  {
    RewriteExpr(s, t, ctes, env, group, e.left);
    RewriteExpr(s, t, ctes, env, group, e.right);
  }

  lemma {:induction false} RewriteUnary(s: Store, t: Tenancy, ctes: Ctes, env: Env, group: seq<Frame>, e: Expr)
    requires s.schema == t.schema && FreshCtes(s.schema, ctes) && GoodExpr(t.schema, e)
    requires e.Negated? || e.IsNull? || e.Alias?
    ensures EvalExpr(s, ctes, env, group, ApplyExpr(FILTERS, t, e))
         == EvalExpr(Own(s, t), ctes, env, group, ApplyExpr(NARROWS, t, e))
    decreases e, 0
  {
    RewriteExpr(s, t, ctes, env, group, e.operand);
  }

  lemma {:induction false} RewriteAggregate(s: Store, t: Tenancy, ctes: Ctes, env: Env, group: seq<Frame>, e: Expr)
    requires s.schema == t.schema && FreshCtes(s.schema, ctes) && GoodExpr(t.schema, e)
    requires e.Aggregate?
    ensures EvalExpr(s, ctes, env, group, ApplyExpr(FILTERS, t, e))
         == EvalExpr(Own(s, t), ctes, env, group, ApplyExpr(NARROWS, t, e))
    decreases e, 0
  {
    if |env| > 0 {
      var outer := env[..|env| - 1];
      var p := Operand(s, ctes, outer, ApplyExpr(FILTERS, t, e.operand));
      var q := Operand(Own(s, t), ctes, outer, ApplyExpr(NARROWS, t, e.operand));
      forall f: Frame
        ensures p(f) == q(f)
      {
        RewriteExpr(s, t, ctes, outer + [f], [f], e.operand);
      }
      MapSame(group, p, q);
    }
  }

  lemma {:induction false} RewriteExprs(s: Store, t: Tenancy, ctes: Ctes, env: Env, group: seq<Frame>, es: List<Expr>)
    requires s.schema == t.schema && FreshCtes(s.schema, ctes) && GoodExprs(t.schema, es)
    ensures EvalExprs(s, ctes, env, group, ApplyExprs(FILTERS, t, es))
         == EvalExprs(Own(s, t), ctes, env, group, ApplyExprs(NARROWS, t, es))
    decreases es, 0
  {
    if es.Cons? {
      RewriteExpr(s, t, ctes, env, group, es.head);
      RewriteExprs(s, t, ctes, env, group, es.tail);
    }
  }

  lemma {:induction false} RewriteList(s: Store, t: Tenancy, ctes: Ctes, es: List<Expr>)
    requires s.schema == t.schema && FreshCtes(s.schema, ctes) && GoodExprs(t.schema, es)
    ensures SameValues(s, Own(s, t), ctes, ApplyExprs(FILTERS, t, es), ApplyExprs(NARROWS, t, es))
    decreases es, 1
  {
    forall e: Env, g: seq<Frame>
      ensures EvalExprs(s, ctes, e, g, ApplyExprs(FILTERS, t, es))
           == EvalExprs(Own(s, t), ctes, e, g, ApplyExprs(NARROWS, t, es))
    {
      RewriteExprs(s, t, ctes, e, g, es);
    }
  }

  lemma {:induction false} RewriteCondition(s: Store, t: Tenancy, ctes: Ctes, c: Option<Expr>)
    requires s.schema == t.schema && FreshCtes(s.schema, ctes) && GoodCondition(t.schema, c)
    ensures SameTests(s, Own(s, t), ctes, ApplyCondition(FILTERS, t, c), ApplyCondition(NARROWS, t, c))
    decreases c, 1
  {
    if c.Some? {
      forall e: Env, g: seq<Frame>
        ensures Passes(s, ctes, e, g, ApplyCondition(FILTERS, t, c))
             == Passes(Own(s, t), ctes, e, g, ApplyCondition(NARROWS, t, c))
      {
        RewriteExpr(s, t, ctes, e, g, c.value);
      }
    }
  }

  lemma {:induction false} RewriteSource(s: Store, t: Tenancy, ctes: Ctes, env: Env, source: Source)
    requires s.schema == t.schema && FreshCtes(s.schema, ctes) && GoodSource(t.schema, source)
    ensures Filter(EvalSource(s, ctes, env, ApplySource(FILTERS, t, source)), MineTest(t, source))
         == EvalSource(Own(s, t), ctes, env, ApplySource(NARROWS, t, source))
    decreases source, 0
  {
    match source
    case Table(_, _, _, _) =>
      TableRestricts(s, t, ctes, env, source);
    case Derived(q, alias) =>
      RewriteQuery(s, t, ctes, env, q);
      ApplyKeepsHeader(FILTERS, t, q);
      ApplyKeepsHeader(NARROWS, t, q);
      NullBindingSame(FILTERS, t, s.schema, ctes, source);
      NullBindingSame(NARROWS, t, s.schema, ctes, source);
      FilterAll(EvalSource(s, ctes, env, ApplySource(FILTERS, t, source)), MineTest(t, source));
  }

  lemma {:induction false} RewriteFrom(s: Store, t: Tenancy, ctes: Ctes, env: Env, from: From)
    requires s.schema == t.schema && FreshCtes(s.schema, ctes) && GoodFrom(t.schema, from)
    ensures Filter(EvalFrom(s, ctes, env, ApplyFrom(FILTERS, t, from)), Mine(t, from))
         == EvalFrom(Own(s, t), ctes, env, ApplyFrom(NARROWS, t, from))
    decreases from, 0
  {
    match from
    case Nowhere =>
    case Single(source) =>
      RewriteSource(s, t, ctes, env, source);
      SingleStep(s, t, ctes, env, source);
    case Joined(left, kind, right, on) =>
      RewriteFrom(s, t, ctes, env, left);
      RewriteSource(s, t, ctes, env, right);
      RewriteCondition(s, t, ctes, on);
      PairTestsSame(s, Own(s, t), ctes, env, ApplyCondition(FILTERS, t, on), ApplyCondition(NARROWS, t, on));
      JoinStep(s, t, ctes, env, left, kind, right, on);
  }

  lemma {:induction false} RewriteCtes(s: Store, t: Tenancy, ctes: Ctes, env: Env, list: List<Cte>)
    requires s.schema == t.schema && FreshCtes(s.schema, ctes) && GoodCtes(t.schema, list)
    ensures EvalCtes(s, ctes, env, ApplyCtes(FILTERS, t, list))
         == EvalCtes(Own(s, t), ctes, env, ApplyCtes(NARROWS, t, list))
    ensures FreshCtes(s.schema, EvalCtes(s, ctes, env, ApplyCtes(FILTERS, t, list)))
    decreases list, 0
  {
    match list
    case Nil =>
    case Cons(cte, rest) =>
      RewriteQuery(s, t, ctes, env, cte.query);
      ApplyKeepsHeader(FILTERS, t, cte.query);
      ApplyKeepsHeader(NARROWS, t, cte.query);
      var relation := Relation(Header(cte.query), EvalQuery(s, ctes, env, ApplyQuery(FILTERS, t, cte.query)));
      RewriteCtes(s, t, ctes[cte.name := relation], env, rest);
  }

  /** The main theorem. On every database and for every query the database accepts (any mix of
      joins, correlated subqueries, CTEs, aggregation and set operations), the rewritten query
      reads as the narrowed query on the tenant's own rows. */
  lemma {:induction false} RewriteQuery(s: Store, t: Tenancy, outer: Ctes, env: Env, q: Query)
    requires s.schema == t.schema && FreshCtes(s.schema, outer) && GoodQuery(t.schema, q)
    ensures EvalQuery(s, outer, env, Rewrite(t, q)) == EvalQuery(Own(s, t), outer, env, Narrow(t, q))
    decreases q, 0
  {
    match q
    case Select(list, _, items, from, where, grouping, having, order, _) =>
      RewriteCtes(s, t, outer, env, list);
      var ctes := EvalCtes(s, outer, env, ApplyCtes(FILTERS, t, list));
      RewriteFrom(s, t, ctes, env, from);
      RewriteCondition(s, t, ctes, where);
      RewriteCondition(s, t, ctes, having);
      RewriteList(s, t, ctes, items);
      RewriteList(s, t, ctes, order);
      if grouping.Grouped? {
        RewriteList(s, t, ctes, grouping.keys);
      }
      SelectStep(s, t, outer, ctes, env, q);
    case SetOperation(list, _, left, right, _) =>
      RewriteCtes(s, t, outer, env, list);
      var ctes := EvalCtes(s, outer, env, ApplyCtes(FILTERS, t, list));
      RewriteQuery(s, t, ctes, env, left);
      RewriteQuery(s, t, ctes, env, right);
  }
}
