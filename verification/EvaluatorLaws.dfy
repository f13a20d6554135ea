/** What the evaluator's clauses mean, row by row (sections 7.5 to 7.10 of ISO/IEC 9075:1992). */
module EvaluatorLaws {
  import opened Collections
  import opened Values
  import opened Syntax
  import opened Evaluator
  import opened JoinFilter
  import opened TenantTheorem

  lemma {:induction false} MapMember<A, B>(xs: seq<A>, f: A -> B, y: B)
    ensures y in Map(xs, f) <==> exists x :: x in xs && f(x) == y
  {
    if y in Map(xs, f) {
      var i :| 0 <= i < |xs| && Map(xs, f)[i] == y;
      assert xs[i] in xs && f(xs[i]) == y;
    }
    if x :| x in xs && f(x) == y {
      var i :| 0 <= i < |xs| && xs[i] == x;
      assert Map(xs, f)[i] == y;
    }
  }

  // ----- joins -----

  ghost predicate Joins(ls: seq<Frame>, rs: seq<Binding>, on: (Frame, Binding) -> bool, f: Frame) {
    exists l, r :: l in ls && r in rs && on(l, r) && f == l + [r]
  }

  ghost predicate DanglesLeft(ls: seq<Frame>, rs: seq<Binding>, on: (Frame, Binding) -> bool, nullRight: Binding,
                              f: Frame) {
    exists l :: l in ls && (forall r :: r in rs ==> !on(l, r)) && f == l + [nullRight]
  }

  ghost predicate DanglesRight(ls: seq<Frame>, rs: seq<Binding>, on: (Frame, Binding) -> bool, nullLeft: Frame,
                               f: Frame) {
    exists r :: r in rs && (forall l :: l in ls ==> !on(l, r)) && f == nullLeft + [r]
  }

  lemma {:induction false} MatchesAre(l: Frame, rs: seq<Binding>, on: (Frame, Binding) -> bool, f: Frame)
    ensures f in Matches(l, rs, on) <==> exists r :: r in rs && on(l, r) && f == l + [r]
  {
    if |rs| != 0 {
      MatchesAre(l, rs[1..], on, f);
      assert rs == [rs[0]] + rs[1..];
    }
  }

  lemma {:induction false} LeftPartAre(ls: seq<Frame>, rs: seq<Binding>, keep: bool, on: (Frame, Binding) -> bool,
                                       nullRight: Binding, f: Frame)
    ensures f in LeftPart(ls, rs, keep, on, nullRight) <==>
      Joins(ls, rs, on, f) || (keep && DanglesLeft(ls, rs, on, nullRight, f))
  {
    if |ls| != 0 {
      var l, rest := ls[0], ls[1..];
      assert ls == [l] + rest;
      LeftPartAre(rest, rs, keep, on, nullRight, f);
      MatchesAre(l, rs, on, f);
      MatchesEmpty(l, rs, on);
      assert Joins(ls, rs, on, f) <==> f in Matches(l, rs, on) || Joins(rest, rs, on, f);
      assert DanglesLeft(ls, rs, on, nullRight, f) <==>
             (|Matches(l, rs, on)| == 0 && f == l + [nullRight]) || DanglesLeft(rest, rs, on, nullRight, f);
    }
  }

  lemma {:induction false} RightPartAre(ls: seq<Frame>, rs: seq<Binding>, on: (Frame, Binding) -> bool,
                                        nullLeft: Frame, f: Frame)
    ensures f in RightPart(ls, rs, on, nullLeft) <==> DanglesRight(ls, rs, on, nullLeft, f)
  {
    if |rs| != 0 {
      var r, rest := rs[0], rs[1..];
      assert rs == [r] + rest;
      RightPartAre(ls, rest, on, nullLeft, f);
      assert Matched(ls, r, on) <==> exists l :: l in ls && on(l, r);
    }
  }

  /** A joined row is a matching pair, or a left row without a match where the join keeps those, or such a right
      row. */
  lemma {:induction false} JoinExactly(ls: seq<Frame>, rs: seq<Binding>, kind: JoinKind,
                                       on: (Frame, Binding) -> bool, nullLeft: Frame, nullRight: Binding, f: Frame)
    ensures f in JoinRows(ls, rs, kind, on, nullLeft, nullRight) <==>
      || Joins(ls, rs, on, f)
      || ((kind == LeftOuter || kind == FullOuter) && DanglesLeft(ls, rs, on, nullRight, f))
      || ((kind == RightOuter || kind == FullOuter) && DanglesRight(ls, rs, on, nullLeft, f))
  {
    LeftPartAre(ls, rs, KeepsLeft(kind), on, nullRight, f);
    RightPartAre(ls, rs, on, nullLeft, f);
  }

  // ----- SELECT -----

  /** A row of the FROM chain that passes WHERE and HAVING and yields the output row. */
  ghost predicate Yields(s: Store, ctes: Ctes, env: Env, q: Query, f: Frame, row: seq<Value>)
    requires q.Select?
  {
    && f in EvalFrom(s, ctes, env, q.from)
    && Passes(s, ctes, env + [f], [f], q.where) && Passes(s, ctes, env + [f], [f], q.having)
    && row == EvalExprs(s, ctes, env + [f], [f], q.items)
  }

  lemma {:induction false} SingletonGroups(frames: seq<Frame>, g: seq<Frame>)
    ensures g in Groups(frames, None, false) <==> exists f :: f in frames && g == [f]
  {
    MapMember(frames, Singleton, g);
    if f :| f in frames && g == [f] {
      assert Singleton(f) == g;
    }
  }

  lemma {:induction false} DistinctRows(rows: seq<seq<Value>>, row: seq<Value>)
    ensures row in Distinct(rows) <==> row in rows
    ensures Unique(Distinct(rows))
  {
    DistinctMember(rows, row);
    DistinctUnique(rows);
  }

  lemma PlainShape(world: World, frames: seq<Frame>, having: seq<Frame> -> bool, project: seq<Frame> -> seq<Value>,
                   distinct: bool)
    ensures var rows := Map(Filter(Groups(frames, None, false), having), project);
      Shape(world, frames, None, false, having, project, None, distinct) == if distinct then Distinct(rows) else rows
  {
  }

  lemma {:induction false} PlainRows(all: seq<Frame>, test: Frame -> bool, having: seq<Frame> -> bool,
                                     project: seq<Frame> -> seq<Value>, row: seq<Value>)
    ensures row in Map(Filter(Groups(Filter(all, test), None, false), having), project) <==>
      exists f :: f in all && test(f) && having([f]) && row == project([f])
  {
    var frames := Filter(all, test);
    var groups := Groups(frames, None, false);
    MapMember(Filter(groups, having), project, row);
    if g :| g in Filter(groups, having) && project(g) == row {
      FilterMember(groups, having, g);
      SingletonGroups(frames, g);
      var f :| f in frames && g == [f];
      FilterMember(all, test, f);
    }
    if f :| f in all && test(f) && having([f]) && row == project([f]) {
      FilterMember(all, test, f);
      SingletonGroups(frames, [f]);
      FilterMember(groups, having, [f]);
    }
  }

  lemma {:induction false} YieldsRow(s: Store, ctes: Ctes, env: Env, q: Query, blank: Frame, f: Frame, row: seq<Value>)
    requires q.Select?
    ensures Yields(s, ctes, env, q, f, row) <==>
      && f in EvalFrom(s, ctes, env, q.from) && RowTest(s, ctes, env, q.where)(f)
      && GroupTest(s, ctes, env, blank, q.having)([f]) && row == GroupValues(s, ctes, env, blank, q.items)([f])
  {
    assert Representative([f], blank) == f;
  }

  lemma {:induction false} PlainClauses(s: Store, ctes: Ctes, env: Env, frames: seq<Frame>, q: Query)
    requires q.Select? && q.grouping.PerRow? && q.order.Nil?
    ensures var blank := NullFrame(s.schema, ctes, q.from);
      var rows := Map(Filter(Groups(frames, None, false), GroupTest(s, ctes, env, blank, q.having)),
                      GroupValues(s, ctes, env, blank, q.items));
      EvalClauses(s, ctes, env, frames, q) == if q.distinct then Distinct(rows) else rows
  {
    var blank := NullFrame(s.schema, ctes, q.from);
    assert GroupKey(s, ctes, env, q) == None && SortKey(s, ctes, env, q) == None;
    PlainShape(s.world, frames, GroupTest(s, ctes, env, blank, q.having), GroupValues(s, ctes, env, blank, q.items),
               q.distinct);
  }

  lemma {:induction false} PlainQuery(s: Store, outer: Ctes, ctes: Ctes, env: Env, q: Query)
    requires q.Select? && q.grouping.PerRow? && q.order.Nil? && q.limit.NoLimit?
    requires ctes == EvalCtes(s, outer, env, q.ctes)
    ensures var blank := NullFrame(s.schema, ctes, q.from);
      var frames := Filter(EvalFrom(s, ctes, env, q.from), RowTest(s, ctes, env, q.where));
      var rows := Map(Filter(Groups(frames, None, false), GroupTest(s, ctes, env, blank, q.having)),
                      GroupValues(s, ctes, env, blank, q.items));
      EvalQuery(s, outer, env, q) == if q.distinct then Distinct(rows) else rows
  {
    PlainClauses(s, ctes, env, Filter(EvalFrom(s, ctes, env, q.from), RowTest(s, ctes, env, q.where)), q);
    SelectReads(s, outer, ctes, env, q);
  }

  /** Without grouping and order the rows of a SELECT are what the kept rows of its FROM chain yield; DISTINCT
      leaves each once. */
  lemma {:induction false} SelectExactly(s: Store, outer: Ctes, env: Env, q: Query, row: seq<Value>)
    requires q.Select? && q.grouping.PerRow? && q.order.Nil? && q.limit.NoLimit?
    ensures row in EvalQuery(s, outer, env, q) <==>
      exists f :: Yields(s, EvalCtes(s, outer, env, q.ctes), env, q, f, row)
    ensures q.distinct ==> Unique(EvalQuery(s, outer, env, q))
  {
    var ctes := EvalCtes(s, outer, env, q.ctes);
    var all, test := EvalFrom(s, ctes, env, q.from), RowTest(s, ctes, env, q.where);
    var blank := NullFrame(s.schema, ctes, q.from);
    var having, project := GroupTest(s, ctes, env, blank, q.having), GroupValues(s, ctes, env, blank, q.items);
    var rows := Map(Filter(Groups(Filter(all, test), None, false), having), project);
    PlainQuery(s, outer, ctes, env, q);
    DistinctRows(rows, row);
    PlainRows(all, test, having, project, row);
    forall f
      ensures Yields(s, ctes, env, q, f, row) <==> f in all && test(f) && having([f]) && row == project([f])
    {
      YieldsRow(s, ctes, env, q, blank, f, row);
    }
  }

  /** Each group holds the rows with one key value, and each row is in one. */
  lemma {:induction false} GroupsExactly(frames: seq<Frame>, key: Frame -> seq<Value>, g: seq<Frame>)
    ensures g in GroupBy(frames, key) <==> exists f :: f in frames && g == Filter(frames, HasKey(key, key(f)))
  {
    var ks := Distinct(Map(frames, key));
    MapMember(ks, GroupOf(frames, key), g);
    if k :| k in ks && GroupOf(frames, key)(k) == g {
      DistinctRows(Map(frames, key), k);
      MapMember(frames, key, k);
    }
    if f :| f in frames && g == Filter(frames, HasKey(key, key(f))) {
      MapMember(frames, key, key(f));
      DistinctRows(Map(frames, key), key(f));
      assert GroupOf(frames, key)(key(f)) == g;
    }
  }

  // ----- set operations -----

  lemma {:induction false} SetOperationExactly(s: Store, outer: Ctes, env: Env, q: Query, row: seq<Value>)
    requires q.SetOperation? && q.limit.NoLimit?
    ensures var ctes := EvalCtes(s, outer, env, q.ctes);
      var inLeft := row in EvalQuery(s, ctes, env, q.left);
      var inRight := row in EvalQuery(s, ctes, env, q.right);
      row in EvalQuery(s, outer, env, q) <==>
        match q.operator
        case Union => inLeft || inRight
        case UnionAll => inLeft || inRight
        case Intersect => inLeft && inRight
        case Except => inLeft && !inRight
    ensures !q.operator.UnionAll? ==> Unique(EvalQuery(s, outer, env, q))
  {
    var ctes := EvalCtes(s, outer, env, q.ctes);
    var l, r := EvalQuery(s, ctes, env, q.left), EvalQuery(s, ctes, env, q.right);
    assert EvalQuery(s, outer, env, q) == Combine(q.operator, l, r);
    CombineExactly(q.operator, l, r, row);
  }

  lemma {:induction false} CombineExactly(operator: SetOperator, l: seq<seq<Value>>, r: seq<seq<Value>>,
                                          row: seq<Value>)
    ensures row in Combine(operator, l, r) <==>
      match operator
      case Union => row in l || row in r
      case UnionAll => row in l || row in r
      case Intersect => row in l && row in r
      case Except => row in l && row !in r
    ensures !operator.UnionAll? ==> Unique(Combine(operator, l, r))
  {
    match operator
    case Union => DistinctRows(l + r, row);
    case UnionAll =>
    case Intersect =>
      DistinctRows(Filter(l, row => row in r), row);
      FilterMember(l, row => row in r, row);
    case Except =>
      DistinctRows(Filter(l, row => row !in r), row);
      FilterMember(l, row => row !in r, row);
  }
}
