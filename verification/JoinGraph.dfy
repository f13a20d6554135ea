/** The undirected graph of foreign keys, and the tables within some number of joins (domain/schema_models.py). */
module JoinGraph {
  import opened Collections
  import opened Schemas

  /** Adjacency; a table without joins may be absent. */
  type Graph = map<string, set<string>>

  function Adjacent(g: Graph, u: string): set<string> {
    if u in g then g[u] else {}
  }

  // ----- edges -----

  /** What the foreign keys of one table refer to, by key. */
  function ForeignEdges(schema: Schema, table: TableInfo, referred: seq<string>): set<(string, string)> {
    if |referred| == 0 then {}
    else
      var n := |referred| - 1;
      ForeignEdges(schema, table, referred[..n])
      + match schema.Table(referred[n])
        case Some(target) => {(table.Key(), target.Key())}
        case None => {}
  }

  function Edges(schema: Schema, tables: seq<TableInfo>): set<(string, string)> {
    if |tables| == 0 then {}
    else
      var n := |tables| - 1;
      Edges(schema, tables[..n]) + ForeignEdges(schema, tables[n], tables[n].foreignKeys)
  }

  /** The graph holds each edge in both directions and nothing else. */
  ghost predicate Holds(g: Graph, edges: set<(string, string)>) {
    forall u, v :: v in Adjacent(g, u) <==> (u, v) in edges || (v, u) in edges
  }

  ghost predicate IsJoinGraph(schema: Schema, g: Graph) {
    Holds(g, Edges(schema, schema.tables))
  }

  function Connect(g: Graph, u: string, v: string): Graph {
    var once := g[u := Adjacent(g, u) + {v}];
    once[v := Adjacent(once, v) + {u}]
  }

  lemma ConnectHolds(g: Graph, edges: set<(string, string)>, u: string, v: string)
    requires Holds(g, edges)
    ensures Holds(Connect(g, u, v), edges + {(u, v)})
  {
  }

  /** The foreign keys of one table; unknown referred tables are skipped. */
  method LinkTable(schema: Schema, table: TableInfo, graph: Graph, ghost edges: set<(string, string)>)
    returns (linked: Graph)
    requires Holds(graph, edges)
    ensures Holds(linked, edges + ForeignEdges(schema, table, table.foreignKeys))
  {
    linked := graph;
    var names := table.foreignKeys;
    assert edges + ForeignEdges(schema, table, names[..0]) == edges;
    for j := 0 to |names|
      invariant Holds(linked, edges + ForeignEdges(schema, table, names[..j]))
    {
      assert names[..j + 1][..j] == names[..j];
      var referred := schema.Table(names[j]);
      if referred.None? {
        continue;
      }
      ghost var before := edges + ForeignEdges(schema, table, names[..j]);
      ConnectHolds(linked, before, table.Key(), referred.value.Key());
      linked := Connect(linked, table.Key(), referred.value.Key());
      assert edges + ForeignEdges(schema, table, names[..j + 1]) == before + {(table.Key(), referred.value.Key())};
    }
    assert names[..|names|] == names;
  }

  method BuildJoinGraph(schema: Schema) returns (graph: Graph)
    ensures IsJoinGraph(schema, graph)
  {
    graph := map[];
    var tables := schema.tables;
    for i := 0 to |tables|
      invariant Holds(graph, Edges(schema, tables[..i]))
    {
      assert tables[..i + 1][..i] == tables[..i];
      graph := LinkTable(schema, tables[i], graph, Edges(schema, tables[..i]));
    }
    assert tables[..|tables|] == tables;
  }

  ghost predicate Symmetric(g: Graph) {
    forall u, v :: v in Adjacent(g, u) ==> u in Adjacent(g, v)
  }

  lemma JoinGraphSymmetric(schema: Schema, g: Graph)
    requires IsJoinGraph(schema, g)
    ensures Symmetric(g)
  {
  }

  /** The foreign key `name` of `table` leads from key `u` to key `v`. */
  ghost predicate Leads(schema: Schema, table: TableInfo, name: string, u: string, v: string) {
    && table in schema.tables && name in table.foreignKeys && table.Key() == u
    && schema.Table(name).Some? && schema.Table(name).value.Key() == v
  }

  /** Some foreign key of a table with key `u` refers to a table with key `v`. */
  ghost predicate RefersTo(schema: Schema, u: string, v: string) {
    exists table, name :: Leads(schema, table, name, u, v)
  }

  lemma {:induction false} ForeignEdge(schema: Schema, table: TableInfo, referred: seq<string>, u: string, v: string)
    ensures (u, v) in ForeignEdges(schema, table, referred) <==>
      table.Key() == u &&
      exists name :: name in referred && schema.Table(name).Some? && schema.Table(name).value.Key() == v
  {
    if |referred| != 0 {
      var n := |referred| - 1;
      ForeignEdge(schema, table, referred[..n], u, v);
      assert referred == referred[..n] + [referred[n]];
    }
  }

  lemma {:induction false} EdgeIn(schema: Schema, tables: seq<TableInfo>, u: string, v: string)
    ensures (u, v) in Edges(schema, tables) <==>
      exists table, name :: table in tables && name in table.foreignKeys && table.Key() == u &&
        schema.Table(name).Some? && schema.Table(name).value.Key() == v
  {
    if |tables| != 0 {
      var n := |tables| - 1;
      EdgeIn(schema, tables[..n], u, v);
      ForeignEdge(schema, tables[n], tables[n].foreignKeys, u, v);
      assert tables == tables[..n] + [tables[n]];
    }
  }

  /** Two tables are adjacent exactly when a foreign key of one refers to the other. */
  lemma AdjacentExactly(schema: Schema, g: Graph, u: string, v: string)
    requires IsJoinGraph(schema, g)
    ensures v in Adjacent(g, u) <==> RefersTo(schema, u, v) || RefersTo(schema, v, u)
  {
    RefersExactly(schema, u, v);
    RefersExactly(schema, v, u);
  }

  lemma {:induction false} RefersExactly(schema: Schema, u: string, v: string)
    ensures (u, v) in Edges(schema, schema.tables) <==> RefersTo(schema, u, v)
  {
    EdgeIn(schema, schema.tables, u, v);
    if table, name :| Leads(schema, table, name, u, v) {
      assert (u, v) in Edges(schema, schema.tables);
    }
    if (u, v) in Edges(schema, schema.tables) {
      var table, name :| table in schema.tables && name in table.foreignKeys && table.Key() == u &&
        schema.Table(name).Some? && schema.Table(name).value.Key() == v;
      assert Leads(schema, table, name, u, v);
    }
  }

  // ----- paths and balls -----

  ghost predicate IsPath(g: Graph, path: seq<string>, u: string, v: string) {
    && |path| != 0 && path[0] == u && path[|path| - 1] == v
    && forall i :: 0 <= i < |path| - 1 ==> path[i + 1] in Adjacent(g, path[i])
  }

  function Beyond(g: Graph, nodes: set<string>): set<string> {
    set u, v | u in nodes && v in Adjacent(g, u) :: v
  }

  /** The tables within `n` joins of `u`. */
  function Ball(g: Graph, u: string, n: nat): set<string> {
    if n == 0 then {u} else Ball(g, u, n - 1) + Beyond(g, Ball(g, u, n - 1))
  }

  lemma {:induction false} PathInBall(g: Graph, path: seq<string>, u: string, v: string, n: nat)
    requires IsPath(g, path, u, v) && |path| <= n + 1
    ensures v in Ball(g, u, n)
  {
    if |path| > 1 {
      var before := path[..|path| - 1];
      assert IsPath(g, before, u, before[|before| - 1]);
      PathInBall(g, before, u, before[|before| - 1], n - 1);
      assert v in Adjacent(g, before[|before| - 1]);
    } else if n > 0 {
      PathInBall(g, path, u, v, n - 1);
    }
  }

  lemma PathSnoc(g: Graph, path: seq<string>, u: string, w: string, v: string)
    requires IsPath(g, path, u, w) && v in Adjacent(g, w)
    ensures IsPath(g, path + [v], u, v)
  {
    var longer := path + [v];
    forall i | 0 <= i < |longer| - 1
      ensures longer[i + 1] in Adjacent(g, longer[i])
    {
      if i < |path| - 1 {
        assert path[i + 1] in Adjacent(g, path[i]);
      }
    }
  }

  lemma {:induction false} BallHasPath(g: Graph, u: string, v: string, n: nat) returns (path: seq<string>)
    requires v in Ball(g, u, n)
    ensures IsPath(g, path, u, v) && |path| <= n + 1
    decreases n
  {
    if n == 0 {
      path := [u];
    } else if v in Ball(g, u, n - 1) {
      path := BallHasPath(g, u, v, n - 1);
    } else {
      var w :| w in Ball(g, u, n - 1) && v in Adjacent(g, w);
      path := BallHasPath(g, u, w, n - 1);
      PathSnoc(g, path, u, w, v);
      path := path + [v];
    }
  }

  // ----- neighbours -----

  lemma {:induction false} BallStops(g: Graph, u: string, n: nat, m: nat)
    requires n <= m && Beyond(g, Ball(g, u, n)) <= Ball(g, u, n)
    ensures Ball(g, u, m) == Ball(g, u, n)
  {
    if n < m {
      BallStops(g, u, n, m - 1);
    }
  }

  lemma BeyondUnion(g: Graph, a: set<string>, b: set<string>)
    ensures Beyond(g, a + b) == Beyond(g, a) + Beyond(g, b)
  {
  }

  lemma BeyondOne(g: Graph, node: string)
    ensures Beyond(g, {node}) == Adjacent(g, node)
  {
  }

  lemma ExpandStep(g: Graph, frontier: set<string>, left: set<string>, node: string)
    requires left <= frontier && node in left
    ensures Beyond(g, frontier - (left - {node})) == Beyond(g, frontier - left) + Adjacent(g, node)
  {
    assert frontier - (left - {node}) == (frontier - left) + {node};
    BeyondUnion(g, frontier - left, {node});
    BeyondOne(g, node);
  }

  /** One union over the frontier, in any order. */
  method ExpandAll(g: Graph, frontier: set<string>) returns (found: set<string>)
    ensures found == Beyond(g, frontier)
  {
    found := {};
    var left := frontier;
    assert frontier - left == {};
    while left != {}
      invariant left <= frontier && found == Beyond(g, frontier - left)
      decreases |left|
    {
      var node :| node in left;
      ExpandStep(g, frontier, left, node);
      found := found + Adjacent(g, node);
      left := left - {node};
    }
    assert frontier - left == frontier;
  }

  /** The tables met last still have unexplored joins, the others have none. */
  ghost predicate Explored(g: Graph, seen: set<string>, frontier: set<string>) {
    frontier <= seen && Beyond(g, seen - frontier) <= seen
  }

  lemma NextBall(g: Graph, u: string, n: nat, frontier: set<string>)
    requires Explored(g, Ball(g, u, n), frontier)
    ensures var next := Beyond(g, frontier) - Ball(g, u, n);
      && Ball(g, u, n + 1) == Ball(g, u, n) + next
      && Explored(g, Ball(g, u, n + 1), next)
      && (next == {} ==> Beyond(g, Ball(g, u, n + 1)) <= Ball(g, u, n + 1))
  {
    var seen := Ball(g, u, n);
    BeyondUnion(g, seen - frontier, frontier);
    assert (seen - frontier) + frontier == seen;
    var next := Beyond(g, frontier) - seen;
    assert (seen + next) - next == seen;
  }

  method Neighbors(g: Graph, tableKey: string, hops: int) returns (near: set<string>)
    ensures near == Ball(g, tableKey, if hops < 0 then 0 else hops) - {tableKey}
  {
    var frontier := {tableKey};
    var seen := frontier;
    var turns: nat := if hops < 0 then 0 else hops;
    for i := 0 to turns
      invariant seen == Ball(g, tableKey, i) && Explored(g, seen, frontier)
    {
      NextBall(g, tableKey, i, frontier);
      var next := ExpandAll(g, frontier);
      next := next - seen;
      seen := seen + next;
      frontier := next;
      if frontier == {} {
        BallStops(g, tableKey, i + 1, turns);
        break;
      }
    }
    near := seen - {tableKey};
  }
}
