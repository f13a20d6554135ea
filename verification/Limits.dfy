/** Bounding the result set of a statement (sql/normalizer.py) and fetching it (execution/executor.py). */
module Limits {
  import opened Collections
  import opened Values
  import opened Syntax
  import opened Evaluator
  import opened StatementTree
  import opened Encoding

  /** What a limit that is no literal counts as. */
  const UNKNOWN_LIMIT: nat := 1_000_000_000_000

  /** `applied`: a limit was added where none existed; `capped`: one above the maximum was lowered. */
  datatype LimitOutcome = LimitOutcome(expression: Statement, applied: bool, capped: bool, effectiveLimit: nat)

  function LimitValue(limit: Limit): Option<nat> {
    match limit
    case NoLimit => None
    case LiteralLimit(n) => Some(n)
    case DynamicLimit(_) => Some(UNKNOWN_LIMIT)
  }

  /** The LIMIT of a query node, if it is one. */
  function LimitOf(tag: Tag): Option<Limit> {
    match tag
    case SelectTag(_, _, limit) => Some(limit)
    case SetOperationTag(_, limit) => Some(limit)
    case SubqueryTag(_, limit) => Some(limit)
    case _ => None
  }

  function WithLimit(tag: Tag, limit: Limit): Tag {
    match tag
    case SelectTag(width, distinct, _) => SelectTag(width, distinct, limit)
    case SetOperationTag(operator, _) => SetOperationTag(operator, limit)
    case SubqueryTag(alias, _) => SubqueryTag(alias, limit)
    case _ => tag
  }

  function EnforceLimit(t: Statement, maxRows: nat): LimitOutcome {
    match LimitOf(t.tag)
    case None => LimitOutcome(t, false, false, maxRows)
    case Some(existing) =>
      var limited := t.(tag := WithLimit(t.tag, LiteralLimit(maxRows)));
      match LimitValue(existing)
      case None => LimitOutcome(limited, true, false, maxRows)
      case Some(current) =>
        if current > maxRows then LimitOutcome(limited, false, true, maxRows)
        else LimitOutcome(t, false, false, current)
  }

  /** A literal bound no greater than the maximum. */
  predicate Bounded(t: Statement, maxRows: nat) {
    match LimitOf(t.tag)
    case Some(LiteralLimit(n)) => n <= maxRows
    case _ => false
  }

  /** The outcome has a literal limit within the maximum, unless a dynamic limit met a maximum of
      10^12 or more; then it is left as it was. The outcome reports the limit it carries. */
  lemma BoundedExactly(t: Statement, maxRows: nat)
    requires LimitOf(t.tag).Some?
    ensures Bounded(EnforceLimit(t, maxRows).expression, maxRows)
       <==> !(LimitOf(t.tag).value.DynamicLimit? && maxRows >= UNKNOWN_LIMIT)
    ensures Bounded(EnforceLimit(t, maxRows).expression, maxRows) ==>
      LimitOf(EnforceLimit(t, maxRows).expression.tag) == Some(LiteralLimit(EnforceLimit(t, maxRows).effectiveLimit))
  {
  }

  /** The limit the outcome carries: the smaller of a literal limit and the maximum, the maximum where there was
      no limit or a dynamic one, which is kept under a maximum of 10^12 or more. */
  predicate CarriesLimit(before: Limit, maxRows: nat, after: Limit) {
    match before
    case NoLimit => after == LiteralLimit(maxRows)
    case LiteralLimit(n) => after == LiteralLimit(if n < maxRows then n else maxRows)
    case DynamicLimit(_) => after == if maxRows < 1_000_000_000_000 then LiteralLimit(maxRows) else before
  }

  /** Query nodes get that limit and stay as they are otherwise; other nodes are left alone. */
  lemma LimitExactly(t: Statement, maxRows: nat)
    ensures var outcome := EnforceLimit(t, maxRows);
      && outcome.expression.kids == t.kids && outcome.expression.commented == t.commented
      && match t.tag
         case SelectTag(width, distinct, limit) =>
           && outcome.expression.tag.SelectTag? && outcome.expression.tag.width == width
           && outcome.expression.tag.distinct == distinct
           && CarriesLimit(limit, maxRows, outcome.expression.tag.limit)
         case SetOperationTag(operator, limit) =>
           && outcome.expression.tag.SetOperationTag? && outcome.expression.tag.operator == operator
           && CarriesLimit(limit, maxRows, outcome.expression.tag.limit)
         case SubqueryTag(alias, limit) =>
           && outcome.expression.tag.SubqueryTag? && outcome.expression.tag.alias == alias
           && CarriesLimit(limit, maxRows, outcome.expression.tag.limit)
         case _ => outcome == LimitOutcome(t, false, false, maxRows)
  {
  }

  /** The flags tell whether and why the statement was changed. */
  lemma FlagsTell(t: Statement, maxRows: nat)
    requires LimitOf(t.tag).Some?
    ensures var outcome := EnforceLimit(t, maxRows);
      && (outcome.applied || outcome.capped <==> outcome.expression != t)
      && (outcome.applied <==> LimitOf(t.tag) == Some(NoLimit)) && !(outcome.applied && outcome.capped)
  {
    match t.tag
    case SelectTag(_, _, _) =>
    case SetOperationTag(_, _) =>
    case SubqueryTag(_, _) =>
    case _ =>
  }

  /** Enforcing again changes nothing, and enforcing two maxima is enforcing the smaller one. */
  lemma EnforceTwice(t: Statement, a: nat, b: nat)
    requires a < UNKNOWN_LIMIT
    ensures EnforceLimit(EnforceLimit(t, a).expression, b).expression
         == EnforceLimit(t, if a <= b then a else b).expression
  {
    match t.tag
    case SelectTag(_, _, _) =>
    case SetOperationTag(_, _) =>
    case SubqueryTag(_, _) =>
    case _ =>
  }

  /** The bound of one request: what it asks for, but never more than is configured. */
  function RowBound(requested: Option<nat>, configured: nat): (bound: nat)
    ensures bound <= configured
    ensures requested.Some? && requested.value != 0 ==> bound <= requested.value
    ensures bound == configured || requested == Some(bound)
    ensures requested == Some(0) ==> bound == configured
  {
    var wanted := if requested.Some? && requested.value != 0 then requested.value else configured;
    if wanted < configured then wanted else configured
  }

  // ----- on queries -----

  function LimitQuery(q: Query, maxRows: nat): Query {
    match LimitValue(q.limit)
    case None => q.(limit := LiteralLimit(maxRows))
    case Some(current) => if current > maxRows then q.(limit := LiteralLimit(maxRows)) else q
  }

  lemma {:induction false} EncodedLimitQuery(q: Query, maxRows: nat)
    ensures EncodeQuery(LimitQuery(q, maxRows)) == EnforceLimit(EncodeQuery(q), maxRows).expression
  {
  }

  /** A query's rows are the rows it has without its limit, cut off. */
  lemma LimitCuts(s: Store, outer: Ctes, env: Env, q: Query)
    ensures EvalQuery(s, outer, env, q) == Limited(s.world, q.limit, EvalQuery(s, outer, env, q.(limit := NoLimit)))
  {
    var free := q.(limit := NoLimit);
    assert free.ctes == q.ctes;
    if q.Select? {
      var ctes := EvalCtes(s, outer, env, q.ctes);
      assert free.from == q.from && free.where == q.where;
      var frames := Filter(EvalFrom(s, ctes, env, q.from), RowTest(s, ctes, env, q.where));
      assert EvalClauses(s, ctes, env, frames, free) == EvalClauses(s, ctes, env, frames, q);
    } else {
      assert free.left == q.left && free.right == q.right && free.operator == q.operator;
    }
  }

  lemma TakeTake<A>(xs: seq<A>, a: nat, b: nat)
    ensures Take(Take(xs, a), b) == Take(xs, if a <= b then a else b)
  {
  }

  /** The limited query yields the first rows of the original one. For a dynamic limit below a
      usable maximum this is so exactly when that limit was not the smaller bound. */
  lemma LimitTakes(s: Store, outer: Ctes, env: Env, q: Query, maxRows: nat)
    ensures var rows := EvalQuery(s, outer, env, q);
      var free := EvalQuery(s, outer, env, q.(limit := NoLimit));
      EvalQuery(s, outer, env, LimitQuery(q, maxRows)) == Take(rows, maxRows)
      <==> (q.limit.DynamicLimit? ==>
              if maxRows >= UNKNOWN_LIMIT then |rows| <= maxRows
              else s.world.dynamic(q.limit.text) >= maxRows || |free| <= s.world.dynamic(q.limit.text))
  {
    var free := EvalQuery(s, outer, env, q.(limit := NoLimit));
    LimitCuts(s, outer, env, q);
    LimitCuts(s, outer, env, LimitQuery(q, maxRows));
    assert LimitQuery(q, maxRows).(limit := NoLimit) == q.(limit := NoLimit);
    match q.limit
    case NoLimit =>
    case LiteralLimit(n) => TakeTake(free, n, maxRows);
    case DynamicLimit(text) =>
      var d := s.world.dynamic(text);
      TakeTake(free, d, maxRows);
  }

  /** SELECT 1 */
  const ONE_ROW: Query := Select(Nil, false, Cons(Literal(Number(1)), Nil), Nowhere, None, PerRow, None, Nil, NoLimit)

  /** SELECT 1 UNION ALL SELECT 1 LIMIT :n */
  const TWO_ROWS: Query := SetOperation(Nil, UnionAll, ONE_ROW, ONE_ROW, DynamicLimit(":n"))

  lemma {:induction false} OneRowCount(s: Store)
    ensures |EvalQuery(s, map[], [], ONE_ROW)| == 1
  {
    var q := ONE_ROW;
    var frames := EvalFrom(s, map[], [], q.from);
    var test := RowTest(s, map[], [], q.where);
    assert frames == [[]] && test([]);
    assert Filter(frames, test) == frames;
    assert Groups(frames, None, false) == [[[]]];
    var having := GroupTest(s, map[], [], NullFrame(s.schema, map[], q.from), q.having);
    assert having([[]]);
    assert Filter([[[]]], having) == [[[]]];
    assert |EvalClauses(s, map[], [], frames, q)| == 1;
  }

  function Unlimited(q: Query): Query {
    q.(limit := NoLimit)
  }

  lemma {:induction false} DynamicRaised(s: Store, q: Query)
    requires q.limit == DynamicLimit(":n") && s.world.dynamic(":n") == 1
    requires |EvalQuery(s, map[], [], Unlimited(q))| == 2
    ensures |EvalQuery(s, map[], [], q)| == 1 && |EvalQuery(s, map[], [], LimitQuery(q, 2))| == 2
  {
    LimitCuts(s, map[], [], q);
    LimitCuts(s, map[], [], LimitQuery(q, 2));
    assert LimitQuery(q, 2).(limit := NoLimit) == Unlimited(q);
  }

  /** The failing case: a dynamic limit of one row under a maximum of two, where there are two rows. The
      original yields one row, the limited query both. */
  lemma {:induction false} DynamicLimitRaised(s: Store)
    requires s.world.dynamic(":n") == 1
    ensures |EvalQuery(s, map[], [], TWO_ROWS)| == 1
    ensures |EvalQuery(s, map[], [], LimitQuery(TWO_ROWS, 2))| == 2
  {
    OneRowCount(s);
    assert Unlimited(TWO_ROWS) == SetOperation(Nil, UnionAll, ONE_ROW, ONE_ROW, NoLimit);
    DynamicRaised(s, TWO_ROWS);
  }

  /** At most the maximum number of rows, whatever the limit was. */
  lemma {:induction false} LimitBounds(s: Store, outer: Ctes, env: Env, q: Query, maxRows: nat)
    requires maxRows < UNKNOWN_LIMIT
    ensures |EvalQuery(s, outer, env, LimitQuery(q, maxRows))| <= maxRows
    ensures EvalQuery(s, outer, env, LimitQuery(q, maxRows)) <= EvalQuery(s, outer, env, q.(limit := NoLimit))
  {
    LimitCuts(s, outer, env, LimitQuery(q, maxRows));
    assert LimitQuery(q, maxRows).(limit := NoLimit) == q.(limit := NoLimit);
  }

  // ----- the executor's cap -----

  /** `fetchmany(max_rows + 1)`, one row more than allowed, to tell whether rows were cut. */
  method Execute(cursor: seq<seq<Value>>, maxRows: nat) returns (rows: seq<seq<Value>>, truncated: bool)
    ensures rows == Take(cursor, maxRows)
    ensures truncated <==> rows != cursor
  {
    var fetched := Take(cursor, maxRows + 1);
    truncated := |fetched| > maxRows;
    rows := Take(fetched, maxRows);
    TakeTake(cursor, maxRows + 1, maxRows);
  }
}
