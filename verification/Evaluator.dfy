/** A denotational reading of queries: sequences of rows under three-valued logic. */
module Evaluator {
  import opened Collections
  import opened Values
  import opened Schemas
  import opened Syntax

  /** What the model leaves uninterpreted: scalar and aggregate functions, the order
      ORDER BY puts rows in, and the value of a dynamic limit. */
  datatype World = World(
    scalar: (string, seq<Value>) -> Value,
    aggregate: (string, seq<Value>) -> Value,
    arrange: seq<(seq<Value>, seq<Value>)> -> seq<seq<Value>>,
    dynamic: string -> nat)

  type Database = map<TableInfo, seq<Row>>

  datatype Store = Store(world: World, schema: Schema, db: Database)

  /** One row of one source of a FROM chain; `origin` is the base table it was read from. */
  datatype Binding = Binding(name: string, origin: Option<TableInfo>, columns: set<string>, row: Row)

  type Frame = seq<Binding>

  /** The scopes a column may refer to, innermost last. */
  type Env = seq<Frame>

  datatype Relation = Relation(header: seq<string>, rows: seq<seq<Value>>)

  type Ctes = map<string, Relation>

  // ----- name resolution -----

  function Field(b: Binding, column: string): Value {
    if column in b.columns && column in b.row then b.row[column] else Null
  }

  function FindLabel(frame: Frame, name: string): Option<Binding> {
    if |frame| == 0 then None
    else if frame[0].name == name then Some(frame[0])
    else FindLabel(frame[1..], name)
  }

  function FindOwner(frame: Frame, column: string): Option<Binding> {
    if |frame| == 0 then None
    else if column in frame[0].columns then Some(frame[0])
    else FindOwner(frame[1..], column)
  }

  /** Lexical scoping: the innermost scope that knows the name decides. */
  function Resolve(env: Env, qualifier: string, column: string): Option<Binding> {
    if |env| == 0 then None
    else
      var frame := env[|env| - 1];
      var hit := if qualifier != "" then FindLabel(frame, qualifier) else FindOwner(frame, column);
      if hit.Some? then hit else Resolve(env[..|env| - 1], qualifier, column)
  }

  function ColumnValue(env: Env, qualifier: string, column: string): Value {
    match Resolve(env, qualifier, column)
    case Some(b) => Field(b, column)
    case None => Null
  }

  // ----- joins (section 7.5) -----

  predicate KeepsLeft(kind: JoinKind) {
    kind == LeftOuter || kind == FullOuter
  }

  predicate KeepsRight(kind: JoinKind) {
    kind == RightOuter || kind == FullOuter
  }

  function Matches(l: Frame, rs: seq<Binding>, on: (Frame, Binding) -> bool): seq<Frame> {
    if |rs| == 0 then []
    else (if on(l, rs[0]) then [l + [rs[0]]] else []) + Matches(l, rs[1..], on)
  }

  /** Each left row with its matches, or null-extended when it has none. */
  function LeftPart(ls: seq<Frame>, rs: seq<Binding>, keep: bool, on: (Frame, Binding) -> bool,
                    nullRight: Binding): seq<Frame> {
    if |ls| == 0 then []
    else
      var found := Matches(ls[0], rs, on);
      (if |found| == 0 && keep then [ls[0] + [nullRight]] else found)
      + LeftPart(ls[1..], rs, keep, on, nullRight)
  }

  predicate Matched(ls: seq<Frame>, r: Binding, on: (Frame, Binding) -> bool) {
    exists i :: 0 <= i < |ls| && on(ls[i], r)
  }

  /** The right rows no left row matches, null-extended on the left. */
  function RightPart(ls: seq<Frame>, rs: seq<Binding>, on: (Frame, Binding) -> bool,
                     nullLeft: Frame): seq<Frame> {
    if |rs| == 0 then []
    else (if Matched(ls, rs[0], on) then [] else [nullLeft + [rs[0]]]) + RightPart(ls, rs[1..], on, nullLeft)
  }

  function JoinRows(ls: seq<Frame>, rs: seq<Binding>, kind: JoinKind, on: (Frame, Binding) -> bool,
                    nullLeft: Frame, nullRight: Binding): seq<Frame> {
    LeftPart(ls, rs, KeepsLeft(kind), on, nullRight)
    + (if KeepsRight(kind) then RightPart(ls, rs, on, nullLeft) else [])
  }

  // ----- the pipeline after WHERE -----

  function HasKey(key: Frame -> seq<Value>, k: seq<Value>): Frame -> bool {
    (f: Frame) => key(f) == k
  }

  function GroupOf(frames: seq<Frame>, key: Frame -> seq<Value>): seq<Value> -> seq<Frame> {
    (k: seq<Value>) => Filter(frames, HasKey(key, k))
  }

  function GroupBy(frames: seq<Frame>, key: Frame -> seq<Value>): seq<seq<Frame>> {
    Map(Distinct(Map(frames, key)), GroupOf(frames, key))
  }

  function Limited(world: World, limit: Limit, rows: seq<seq<Value>>): seq<seq<Value>> {
    match limit
    case NoLimit => rows
    case LiteralLimit(n) => Take(rows, n)
    case DynamicLimit(text) => Take(rows, world.dynamic(text))
  }

  function Singleton(f: Frame): seq<Frame> {
    [f]
  }

  function Keyed(sortKey: seq<Frame> -> seq<Value>, project: seq<Frame> -> seq<Value>):
    seq<Frame> -> (seq<Value>, seq<Value>)
  {
    (g: seq<Frame>) => (sortKey(g), project(g))
  }

  /** A group is the sequence of rows it holds. */
  function Groups(frames: seq<Frame>, key: Option<Frame -> seq<Value>>, whole: bool): seq<seq<Frame>> {
    if key.None? then Map(frames, Singleton)
    else if whole then [frames]
    else GroupBy(frames, key.value)
  }

  /** GROUP BY, HAVING, projection, DISTINCT, ORDER BY. */
  function Shape(world: World, frames: seq<Frame>, key: Option<Frame -> seq<Value>>, whole: bool,
                 having: seq<Frame> -> bool, project: seq<Frame> -> seq<Value>,
                 sortKey: Option<seq<Frame> -> seq<Value>>, distinct: bool): seq<seq<Value>> {
    var kept := Filter(Groups(frames, key, whole), having);
    var rows :=
      if sortKey.None? then Map(kept, project)
      else world.arrange(Map(kept, Keyed(sortKey.value, project)));
    if distinct then Distinct(rows) else rows
  }

  function Combine(operator: SetOperator, l: seq<seq<Value>>, r: seq<seq<Value>>): seq<seq<Value>> {
    match operator
    case Union => Distinct(l + r)
    case UnionAll => l + r
    case Intersect => Distinct(Filter(l, row => row in r))
    case Except => Distinct(Filter(l, row => row !in r))
  }

  // ----- sources -----

  function IndexOfName(names: seq<string>, name: string): (k: nat)
    requires name in names
    ensures k < |names| && names[k] == name
  {
    if names[0] == name then 0 else 1 + IndexOfName(names[1..], name)
  }

  /** A short row reads as NULL. */
  function ValueOf(header: seq<string>, values: seq<Value>, name: string): Value
    requires name in header
  {
    var k := IndexOfName(header, name);
    if k < |values| then values[k] else Null
  }

  /** A derived row as a row with named columns. */
  function NamedRow(header: seq<string>, values: seq<Value>): Row {
    map c | c in header :: ValueOf(header, values, c)
  }

  // ----- keys that name output columns -----

  /** A bare name in ORDER BY or GROUP BY stands for the output column of that name, unless one of
      `inputs` has such a column. */
  predicate NamesOutput(header: seq<string>, inputs: Frame, key: Expr) {
    && key.Column? && key.qualifier == "" && key.name != "" && key.name in header
    && FindOwner(inputs, key.name).None?
  }

  /** The key values: `row` holds the output columns, `plain` the keys read as expressions. */
  function OutputKeys(header: seq<string>, inputs: Frame, keys: List<Expr>, row: seq<Value>, plain: seq<Value>):
    seq<Value>
  {
    if keys.Nil? || |plain| == 0 then plain
    else
      [if NamesOutput(header, inputs, keys.head) then ValueOf(header, row, keys.head.name) else plain[0]]
      + OutputKeys(header, inputs, keys.tail, row, plain[1..])
  }

  function KeyedBy<G>(header: seq<string>, inputs: Frame, keys: List<Expr>, project: G -> seq<Value>,
                      plain: G -> seq<Value>): G -> seq<Value> {
    (g: G) => OutputKeys(header, inputs, keys, project(g), plain(g))
  }

  function HeaderSet(header: seq<string>): set<string> {
    set c | c in header
  }

  function BaseRows(s: Store, name: string): seq<Row> {
    match s.schema.Table(name)
    case Some(info) => if info in s.db then s.db[info] else []
    case None => []
  }

  /** A source's columns without a row: the null-extended binding. */
  function NullBinding(schema: Schema, ctes: Ctes, source: Source): Binding {
    match source
    case Table(_, _, name, _) =>
      if name in ctes then Binding(source.Label(), None, HeaderSet(ctes[name].header), map[])
      else (match schema.Table(name)
            case Some(info) => Binding(source.Label(), Some(info), info.ColumnNames(), map[])
            case None => Binding(source.Label(), None, {}, map[]))
    case Derived(query, _) => Binding(source.Label(), None, HeaderSet(Header(query)), map[])
  }

  function NullFrame(schema: Schema, ctes: Ctes, from: From): Frame {
    match from
    case Nowhere => []
    case Single(source) => [NullBinding(schema, ctes, source)]
    case Joined(left, _, right, _) => NullFrame(schema, ctes, left) + [NullBinding(schema, ctes, right)]
  }

  function Representative(group: seq<Frame>, nullFrame: Frame): Frame {
    if |group| == 0 then nullFrame else group[0]
  }

  function ScalarResult(rows: seq<seq<Value>>): Value {
    if |rows| == 0 || |rows[0]| == 0 then Null else rows[0][0]
  }

  function FirstColumn(rows: seq<seq<Value>>): seq<Value> {
    Map(rows, (row: seq<Value>) => if |row| == 0 then Null else row[0])
  }

  function Bind(blank: Binding): Row -> Binding {
    (r: Row) => blank.(row := r)
  }

  function BindNamed(blank: Binding, header: seq<string>): seq<Value> -> Binding {
    (r: seq<Value>) => blank.(row := NamedRow(header, r))
  }

  function Alone(b: Binding): Frame {
    [b]
  }

  // ----- the evaluator -----

  /** `group` is the group the expression is evaluated for; its representative row is the last frame of `env`. */
  ghost function EvalExpr(s: Store, ctes: Ctes, env: Env, group: seq<Frame>, e: Expr): Value
    decreases e, 0
  {
    match e
    case Column(qualifier, name) => ColumnValue(env, qualifier, name)
    case Literal(value) => value
    case Call(f, args) => s.world.scalar(f, EvalExprs(s, ctes, env, group, args))
    case Equals(l, r) => Equal(EvalExpr(s, ctes, env, group, l), EvalExpr(s, ctes, env, group, r))
    case Both(l, r) => And(EvalExpr(s, ctes, env, group, l), EvalExpr(s, ctes, env, group, r))
    case Either(l, r) => Or(EvalExpr(s, ctes, env, group, l), EvalExpr(s, ctes, env, group, r))
    case Negated(x) => Not(EvalExpr(s, ctes, env, group, x))
    case IsNull(x) => Truth(EvalExpr(s, ctes, env, group, x) == Null)
    case Aggregate(f, x) =>
      if |env| == 0 then Null
      else s.world.aggregate(f, Map(group, Operand(s, ctes, env[..|env| - 1], x)))
    case CountStar => Number(|group|)
    case Alias(x, _) => EvalExpr(s, ctes, env, group, x)
    case Exists(q) => Truth(|EvalQuery(s, ctes, env, q)| != 0)
    case In(x, q) => Among(EvalExpr(s, ctes, env, group, x), FirstColumn(EvalQuery(s, ctes, env, q)))
    case Scalar(q) => ScalarResult(EvalQuery(s, ctes, env, q))
  }

  ghost function EvalExprs(s: Store, ctes: Ctes, env: Env, group: seq<Frame>, es: List<Expr>): seq<Value>
    decreases es, 0
  {
    match es
    case Nil => []
    case Cons(e, rest) => [EvalExpr(s, ctes, env, group, e)] + EvalExprs(s, ctes, env, group, rest)
  }

  /** An absent condition holds. */
  ghost predicate Passes(s: Store, ctes: Ctes, env: Env, group: seq<Frame>, condition: Option<Expr>)
    decreases condition, 1
  {
    condition.Some? ==> Holds(EvalExpr(s, ctes, env, group, condition.value))
  }

  /** Conditions and expression lists as functions of a row, of a pair of join sides, of a group. */
  ghost function Operand(s: Store, ctes: Ctes, outer: Env, x: Expr): Frame -> Value
    decreases x, 1
  {
    (f: Frame) => EvalExpr(s, ctes, outer + [f], [f], x)
  }

  ghost function RowTest(s: Store, ctes: Ctes, env: Env, c: Option<Expr>): Frame -> bool
    decreases c, 2
  {
    (f: Frame) => Passes(s, ctes, env + [f], [f], c)
  }

  ghost function PairTest(s: Store, ctes: Ctes, env: Env, c: Option<Expr>): (Frame, Binding) -> bool
    decreases c, 2
  {
    (l: Frame, r: Binding) => Passes(s, ctes, env + [l + [r]], [l + [r]], c)
  }

  ghost function RowValues(s: Store, ctes: Ctes, env: Env, es: List<Expr>): Frame -> seq<Value>
    decreases es, 1
  {
    (f: Frame) => EvalExprs(s, ctes, env + [f], [f], es)
  }

  ghost function GroupTest(s: Store, ctes: Ctes, env: Env, blank: Frame, c: Option<Expr>): seq<Frame> -> bool
    decreases c, 2
  {
    (g: seq<Frame>) => Passes(s, ctes, env + [Representative(g, blank)], g, c)
  }

  ghost function GroupValues(s: Store, ctes: Ctes, env: Env, blank: Frame, es: List<Expr>): seq<Frame> -> seq<Value>
    decreases es, 1
  {
    (g: seq<Frame>) => EvalExprs(s, ctes, env + [Representative(g, blank)], g, es)
  }

  ghost function EvalSource(s: Store, ctes: Ctes, env: Env, source: Source): seq<Binding>
    decreases source, 0
  {
    var blank := NullBinding(s.schema, ctes, source);
    match source
    case Table(_, _, name, _) =>
      if name in ctes then Map(ctes[name].rows, BindNamed(blank, ctes[name].header))
      else Map(BaseRows(s, name), Bind(blank))
    case Derived(query, _) =>
      Map(EvalQuery(s, ctes, env, query), BindNamed(blank, Header(query)))
  }

  ghost function EvalFrom(s: Store, ctes: Ctes, env: Env, from: From): seq<Frame>
    decreases from, 0
  {
    match from
    case Nowhere => [[]]
    case Single(source) => Map(EvalSource(s, ctes, env, source), Alone)
    case Joined(left, kind, right, on) =>
      JoinRows(EvalFrom(s, ctes, env, left), EvalSource(s, ctes, env, right), kind,
               PairTest(s, ctes, env, on),
               NullFrame(s.schema, ctes, left), NullBinding(s.schema, ctes, right))
  }

  ghost function EvalCtes(s: Store, ctes: Ctes, env: Env, list: List<Cte>): Ctes
    decreases list, 0
  {
    match list
    case Nil => ctes
    case Cons(cte, rest) =>
      var relation := Relation(Header(cte.query), EvalQuery(s, ctes, env, cte.query));
      EvalCtes(s, ctes[cte.name := relation], env, rest)
  }

  /** The grouping key: an input column comes before an output column of the same name. */
  ghost function GroupKey(s: Store, ctes: Ctes, env: Env, q: Query): Option<Frame -> seq<Value>>
    requires q.Select?
    decreases q, 0
  {
    if q.grouping.PerRow? then None
    else Some(KeyedBy(OutputNames(q.items), NullFrame(s.schema, ctes, q.from), q.grouping.keys,
                      RowValues(s, ctes, env, q.items), RowValues(s, ctes, env, q.grouping.keys)))
  }

  /** The sort key: an output column comes before an input column of the same name. */
  ghost function SortKey(s: Store, ctes: Ctes, env: Env, q: Query): Option<seq<Frame> -> seq<Value>>
    requires q.Select?
    decreases q, 0
  {
    var blank := NullFrame(s.schema, ctes, q.from);
    if q.order.Nil? then None
    else Some(KeyedBy(OutputNames(q.items), [], q.order,
                      GroupValues(s, ctes, env, blank, q.items), GroupValues(s, ctes, env, blank, q.order)))
  }

  /** The rows of a SELECT, given the joined rows its WHERE keeps. */
  ghost function EvalClauses(s: Store, ctes: Ctes, env: Env, frames: seq<Frame>, q: Query): seq<seq<Value>>
    requires q.Select?
    decreases q, 1
  {
    var blank := NullFrame(s.schema, ctes, q.from);
    Shape(s.world, frames, GroupKey(s, ctes, env, q), q.grouping == Grouped(Nil),
          GroupTest(s, ctes, env, blank, q.having), GroupValues(s, ctes, env, blank, q.items),
          SortKey(s, ctes, env, q), q.distinct)
  }

  ghost function EvalQuery(s: Store, outer: Ctes, env: Env, q: Query): seq<seq<Value>>
    decreases q, 2
  {
    var ctes := EvalCtes(s, outer, env, q.ctes);
    match q
    case Select(_, _, _, from, where, _, _, _, limit) =>
      var frames := Filter(EvalFrom(s, ctes, env, from), RowTest(s, ctes, env, where));
      Limited(s.world, limit, EvalClauses(s, ctes, env, frames, q))
    case SetOperation(_, operator, left, right, limit) =>
      Limited(s.world, limit,
              Combine(operator, EvalQuery(s, ctes, env, left), EvalQuery(s, ctes, env, right)))
  }
}
