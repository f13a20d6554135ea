/** The query language the engine accepts: what sqlglot parses a read-only statement into. */
module Syntax {
  import opened Collections
  import opened Values
  import opened Schemas

  datatype JoinKind = Inner | LeftOuter | RightOuter | FullOuter | Cross

  datatype SetOperator = Union | UnionAll | Intersect | Except

  /** A dynamic limit (parameter or expression) is an opaque leaf. */
  datatype Limit = NoLimit | LiteralLimit(count: nat) | DynamicLimit(text: string)

  datatype Expr =
    | Column(qualifier: string, name: string)       // qualifier "" when unqualified
    | Literal(value: Value)
    | Call(func: string, args: List<Expr>)     // scalar functions and comparisons other than "="
    | Equals(left: Expr, right: Expr)
    | Both(left: Expr, right: Expr)
    | Either(left: Expr, right: Expr)
    | Negated(operand: Expr)
    | IsNull(operand: Expr)
    | Aggregate(func: string, operand: Expr)
    | CountStar
    | Alias(operand: Expr, name: string)
    | Exists(query: Query)
    | In(operand: Expr, query: Query)
    | Scalar(query: Query)

  /** `Grouped(Nil)` is aggregation of the whole input without a GROUP BY clause. */
  datatype Grouping = PerRow | Grouped(keys: List<Expr>)

  datatype Source =
    | Table(catalog: string, db: string, name: string, alias: string)   // each "" when absent
    | Derived(query: Query, alias: string)
  {
    /** The name column references use: `table.alias or table.name`. */
    function Label(): string {
      match this
      case Table(_, _, name, alias) => if alias != "" then alias else name
      case Derived(_, alias) => alias
    }
  }

  datatype From =
    | Nowhere
    | Single(source: Source)
    | Joined(left: From, kind: JoinKind, right: Source, on: Option<Expr>)

  datatype Cte = Cte(name: string, query: Query)

  datatype Query =
    | Select(ctes: List<Cte>, distinct: bool, items: List<Expr>, from: From, where: Option<Expr>,
             grouping: Grouping, having: Option<Expr>, order: List<Expr>, limit: Limit)
    | SetOperation(ctes: List<Cte>, operator: SetOperator, left: Query, right: Query, limit: Limit)

  /** The labels a FROM chain binds, left to right. */
  function Labels(from: From): seq<string> {
    match from
    case Nowhere => []
    case Single(source) => [source.Label()]
    case Joined(left, _, right, _) => Labels(left) + [right.Label()]
  }

  /** The column name an output expression has for an enclosing query. */
  function OutputName(e: Expr): string {
    match e
    case Alias(_, name) => name
    case Column(_, name) => name
    case _ => ""
  }

  function OutputNames(items: List<Expr>): seq<string> {
    match items
    case Nil => []
    case Cons(e, rest) => [OutputName(e)] + OutputNames(rest)
  }

  function Header(q: Query): seq<string> {
    match q
    case Select(_, _, items, _, _, _, _, _, _) => OutputNames(items)
    case SetOperation(_, _, left, _, _) => Header(left)
  }
}
