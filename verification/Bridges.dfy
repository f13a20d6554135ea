/** Bridging: the retrieved part of the catalog keeps the join distances between seeds (retrieval/retriever.py). */
module Bridges {
  import opened Collections
  import opened Schemas
  import opened Coverage
  import opened JoinGraph
  import opened ShortestPath

  // ----- collecting bridge tables -----

  /** Some shortest path between the two stays within `nodes`, if they are connected at all. */
  ghost predicate CarriesPath(g: Graph, u: string, v: string, nodes: set<string>) {
    exists path :: IsShortest(g, u, v, path) && Elements(path) <= nodes
  }

  /** The node lies on a shortest path between two seeds. */
  ghost predicate OnPath(g: Graph, seeds: seq<string>, x: string) {
    exists i, j, path :: 0 <= i < j < |seeds| && IsShortest(g, seeds[i], seeds[j], path) && x in path
  }

  lemma CarriesMore(g: Graph, u: string, v: string, nodes: set<string>, more: set<string>)
    requires CarriesPath(g, u, v, nodes) && nodes <= more
    ensures CarriesPath(g, u, v, more)
  {
    var path :| IsShortest(g, u, v, path) && Elements(path) <= nodes;
    assert Elements(path) <= more;
  }

  ghost predicate CarriesFrom(g: Graph, seeds: seq<string>, i: nat, upTo: nat, nodes: set<string>)
    requires i < |seeds| && upTo <= |seeds|
  {
    forall j :: i < j < upTo ==> CarriesPath(g, seeds[i], seeds[j], nodes)
  }

  ghost predicate CarriesAll(g: Graph, seeds: seq<string>, upTo: nat, nodes: set<string>)
    requires upTo <= |seeds|
  {
    forall i :: 0 <= i < upTo ==> CarriesFrom(g, seeds, i, |seeds|, nodes)
  }

  ghost predicate Justified(g: Graph, seeds: seq<string>, nodes: set<string>) {
    forall x :: x in nodes ==> x in seeds || OnPath(g, seeds, x)
  }

  lemma CarriesAllMore(g: Graph, seeds: seq<string>, upTo: nat, nodes: set<string>, more: set<string>)
    requires upTo <= |seeds| && CarriesAll(g, seeds, upTo, nodes) && nodes <= more
    ensures CarriesAll(g, seeds, upTo, more)
  {
    forall i, j | 0 <= i < upTo && i < j < |seeds|
      ensures CarriesPath(g, seeds[i], seeds[j], more)
    {
      assert CarriesFrom(g, seeds, i, |seeds|, nodes);
      CarriesMore(g, seeds[i], seeds[j], nodes, more);
    }
  }

  /** Add the nodes of one shortest path. */
  lemma AddPath(g: Graph, seeds: seq<string>, i: nat, j: nat, nodes: set<string>, path: seq<string>)
    requires i < j < |seeds| && CarriesFrom(g, seeds, i, j, nodes) && Justified(g, seeds, nodes)
    requires IsShortest(g, seeds[i], seeds[j], path)
    ensures CarriesFrom(g, seeds, i, j + 1, nodes + Elements(path)) && Justified(g, seeds, nodes + Elements(path))
  {
    var more := nodes + Elements(path);
    forall k | i < k < j + 1
      ensures CarriesPath(g, seeds[i], seeds[k], more)
    {
      if k < j {
        CarriesMore(g, seeds[i], seeds[k], nodes, more);
      } else {
        assert Elements(path) <= more;
      }
    }
    forall x | x in more
      ensures x in seeds || OnPath(g, seeds, x)
    {
      if x in path {
        assert OnPath(g, seeds, x);
      }
    }
  }

  /** The paths from one seed to the seeds after it. */
  method BridgeFrom(g: Graph, seeds: seq<string>, i: nat, known: set<string>) returns (nodes: set<string>)
    requires i < |seeds| && Justified(g, seeds, known)
    ensures known <= nodes && CarriesFrom(g, seeds, i, |seeds|, nodes) && Justified(g, seeds, nodes)
  {
    nodes := known;
    for j := i + 1 to |seeds|
      invariant known <= nodes && CarriesFrom(g, seeds, i, j, nodes) && Justified(g, seeds, nodes)
    {
      var path := FindShortestPath(g, seeds[i], seeds[j]);
      AddPath(g, seeds, i, j, nodes, path);
      nodes := nodes + Elements(path);
    }
  }

  /** Every node on one shortest path for each pair of seeds, the seeds themselves left out. */
  method AddBridges(g: Graph, seeds: seq<string>) returns (bridges: set<string>)
    ensures CarriesAll(g, seeds, |seeds|, Elements(seeds) + bridges)
    ensures forall x :: x in bridges ==> x !in seeds && OnPath(g, seeds, x)
  {
    var nodes := Elements(seeds);
    for i := 0 to |seeds|
      invariant Elements(seeds) <= nodes && CarriesAll(g, seeds, i, nodes) && Justified(g, seeds, nodes)
    {
      var more := BridgeFrom(g, seeds, i, nodes);
      CarriesAllMore(g, seeds, i, nodes, more);
      nodes := more;
    }
    bridges := nodes - Elements(seeds);
    assert Elements(seeds) + bridges == nodes;
  }

  // ----- the retrieved part of the catalog -----

  function Wanted(names: set<string>): TableInfo -> bool {
    (t: TableInfo) => t.Key() in names || t.name in names
  }

  function Subset(schema: Schema, names: set<string>): Schema {
    Schema(Filter(schema.tables, Wanted(names)))
  }

  /** No name of one table, qualified or bare, is a name of another. */
  ghost predicate Separated(schema: Schema) {
    forall a, b :: a in schema.tables && b in schema.tables && a != b ==>
      a.Key() != b.Key() && a.Key() != b.name && a.name != b.name
  }

  lemma LastPart(a: TableInfo, b: TableInfo)
    requires '.' !in a.name && '.' !in b.name
    ensures a.Key() == b.Key() || a.Key() == b.name ==> a.name == b.name
  {
    BareNameOf(a);
    BareNameOf(b);
  }

  /** Bare names that identify tables also keep all their names apart. */
  lemma WellNamedSeparated(schema: Schema)
    requires WellNamed(schema)
    ensures Separated(schema)
  {
    forall a, b | a in schema.tables && b in schema.tables && a != b
      ensures a.Key() != b.Key() && a.Key() != b.name && a.name != b.name
    {
      assert schema.Table(a.name) == Some(a) && schema.Table(b.name) == Some(b);
      LastPart(a, b);
    }
  }

  lemma {:induction false} SeparatedIndex(tables: seq<TableInfo>, name: string)
    requires Separated(Schema(tables))
    ensures name in IndexOf(tables) <==> exists t :: t in tables && (t.Key() == name || t.name == name)
    ensures name in IndexOf(tables) ==>
      var t := IndexOf(tables)[name];
      t in tables && (t.Key() == name || t.name == name)
  {
    if |tables| != 0 {
      var before, last := tables[..|tables| - 1], tables[|tables| - 1];
      assert tables == before + [last];
      SeparatedIndex(before, name);
      SeparatedIndex(before, last.name);
      IndexSnoc(tables, name);
    }
  }

  /** What the last table adds to the index. */
  lemma {:induction false} IndexSnoc(tables: seq<TableInfo>, name: string)
    requires |tables| != 0
    ensures var before, last := IndexOf(tables[..|tables| - 1]), tables[|tables| - 1];
      && (name in IndexOf(tables) <==> name in before || name == last.Key() || name == last.name)
      && (name == last.Key() ==> IndexOf(tables)[name] == last)
      && (name != last.Key() && name in before ==> IndexOf(tables)[name] == before[name])
      && (name != last.Key() && name !in before && name == last.name ==> IndexOf(tables)[name] == last)
  {
  }

  /** In a part of the catalog every kept table is found as before. */
  lemma SubsetLookup(schema: Schema, names: set<string>, name: string)
    requires Separated(schema)
    ensures var found := schema.Table(name);
      Subset(schema, names).Table(name) ==
        if found.Some? && (found.value.Key() in names || found.value.name in names) then found else None
  {
    var kept := Subset(schema, names).tables;
    forall t
      ensures t in kept <==> t in schema.tables && Wanted(names)(t)
    {
      FilterMember(schema.tables, Wanted(names), t);
    }
    SeparatedIndex(schema.tables, name);
    SeparatedIndex(kept, name);
  }

  lemma SubsetRefers(schema: Schema, names: set<string>, u: string, v: string)
    requires Separated(schema)
    ensures RefersTo(Subset(schema, names), u, v) ==> RefersTo(schema, u, v)
    ensures RefersTo(schema, u, v) && u in names && v in names ==> RefersTo(Subset(schema, names), u, v)
  {
    var sub := Subset(schema, names);
    if table, name :| Leads(sub, table, name, u, v) {
      FilterMember(schema.tables, Wanted(names), table);
      SubsetLookup(schema, names, name);
      assert Leads(schema, table, name, u, v);
    }
    if table, name :| Leads(schema, table, name, u, v) && u in names && v in names {
      FilterMember(schema.tables, Wanted(names), table);
      SubsetLookup(schema, names, name);
      assert Leads(sub, table, name, u, v);
    }
  }

  lemma SubsetPath(schema: Schema, names: set<string>, g: Graph, gs: Graph, path: seq<string>, u: string, v: string)
    requires Separated(schema) && IsJoinGraph(schema, g) && IsJoinGraph(Subset(schema, names), gs)
    ensures IsPath(gs, path, u, v) ==> IsPath(g, path, u, v)
    ensures IsPath(g, path, u, v) && Elements(path) <= names ==> IsPath(gs, path, u, v)
  {
    forall i | 0 <= i < |path| - 1
      ensures path[i + 1] in Adjacent(gs, path[i]) ==> path[i + 1] in Adjacent(g, path[i])
      ensures path[i + 1] in Adjacent(g, path[i]) && Elements(path) <= names ==> path[i + 1] in Adjacent(gs, path[i])
    {
      var x, y := path[i], path[i + 1];
      assert x in Elements(path) && y in Elements(path);
      AdjacentExactly(schema, g, x, y);
      AdjacentExactly(Subset(schema, names), gs, x, y);
      SubsetRefers(schema, names, x, y);
      SubsetRefers(schema, names, y, x);
    }
  }

  /** Where a shortest path is kept, the distance is: shortest paths in the part and in the whole have
      the same length, or neither exists. */
  lemma DistancePreserved(schema: Schema, names: set<string>, g: Graph, gs: Graph, u: string, v: string,
                          full: seq<string>, part: seq<string>)
    requires Separated(schema) && IsJoinGraph(schema, g) && IsJoinGraph(Subset(schema, names), gs)
    requires CarriesPath(g, u, v, names)
    requires IsShortest(g, u, v, full) && IsShortest(gs, u, v, part)
    ensures |part| == |full|
  {
    var kept :| IsShortest(g, u, v, kept) && Elements(kept) <= names;
    SubsetPath(schema, names, g, gs, kept, u, v);
    SubsetPath(schema, names, g, gs, part, u, v);
    if full == [] {
      assert part == [];
    } else {
      assert kept != [] && |kept| == |full|;
      assert IsPath(gs, kept, u, v);
    }
  }

  // ----- retrieval after ranking -----

  /** The qualified name of a selected table. */
  function Qualified(schema: Schema, key: string): string {
    match schema.Table(key)
    case Some(table) => table.QualifiedName()
    case None => key
  }

  ghost predicate IsKey(schema: Schema, key: string) {
    exists t :: t in schema.tables && t.Key() == key
  }

  lemma QualifiedKey(schema: Schema, key: string)
    requires Separated(schema) && IsKey(schema, key)
    ensures Qualified(schema, key) == key
  {
    SeparatedIndex(schema.tables, key);
  }

  lemma PathOfKeys(schema: Schema, g: Graph, path: seq<string>, u: string, v: string)
    requires IsJoinGraph(schema, g) && IsPath(g, path, u, v) && IsKey(schema, u)
    ensures forall x :: x in path ==> IsKey(schema, x)
  {
    forall i | 0 <= i < |path|
      ensures IsKey(schema, path[i])
    {
      if i > 0 {
        AdjacentExactly(schema, g, path[i - 1], path[i]);
        ReferredIsKey(schema, path[i - 1], path[i]);
      }
    }
  }

  lemma ReferredIsKey(schema: Schema, u: string, v: string)
    requires RefersTo(schema, u, v) || RefersTo(schema, v, u)
    ensures IsKey(schema, v)
  {
    if RefersTo(schema, u, v) {
      var table, name :| Leads(schema, table, name, u, v);
      TableMember(schema, name);
    }
  }

  function QualifiedNames(schema: Schema, keys: set<string>): set<string> {
    set key | key in keys :: Qualified(schema, key)
  }

  /** In a catalog whose tables share no names, turning keys into qualified names selects the same tables. */
  lemma QualifiedSelects(schema: Schema, keys: set<string>, t: TableInfo)
    requires Separated(schema) && t in schema.tables
    ensures t.Key() in QualifiedNames(schema, keys) || t.name in QualifiedNames(schema, keys)
       <==> t.Key() in keys || t.name in keys
  {
    SeparatedIndex(schema.tables, t.Key());
    SeparatedIndex(schema.tables, t.name);
    assert t.Key() in keys ==> Qualified(schema, t.Key()) in QualifiedNames(schema, keys);
    assert t.name in keys ==> Qualified(schema, t.name) in QualifiedNames(schema, keys);
    forall key | key in keys && (Qualified(schema, key) == t.Key() || Qualified(schema, key) == t.name)
      ensures key == t.Key() || key == t.name
    {
      SeparatedIndex(schema.tables, key);
    }
  }

  /** The tables of the catalog that have one of the names, in catalog order, each as often as there. */
  ghost predicate KeepsTables(schema: Schema, names: set<string>, sub: Schema) {
    exists picks :: InOrder(schema.tables, sub.tables, picks) &&
      forall i :: 0 <= i < |schema.tables| ==>
        (i in picks <==> schema.tables[i].Key() in names || schema.tables[i].name in names)
  }

  lemma RetrievedTables(schema: Schema, keys: set<string>)
    requires Separated(schema)
    ensures KeepsTables(schema, keys, Subset(schema, QualifiedNames(schema, keys)))
  {
    var names := QualifiedNames(schema, keys);
    var picks := FilterPicks(schema.tables, Wanted(names));
    forall i | 0 <= i < |schema.tables|
      ensures i in picks <==> schema.tables[i].Key() in keys || schema.tables[i].name in keys
    {
      assert i in picks <==> Wanted(names)(schema.tables[i]);
      QualifiedSelects(schema, keys, schema.tables[i]);
    }
  }

  /** Where the names are keys, the kept tables are those whose key is among them. */
  lemma KeptByKey(schema: Schema, keys: set<string>, sub: Schema, t: TableInfo)
    requires Separated(schema) && KeepsTables(schema, keys, sub) && forall key :: key in keys ==> IsKey(schema, key)
    ensures t in sub.tables <==> t in schema.tables && t.Key() in keys
  {
    var picks :| InOrder(schema.tables, sub.tables, picks) &&
      forall i :: 0 <= i < |schema.tables| ==>
        (i in picks <==> schema.tables[i].Key() in keys || schema.tables[i].name in keys);
    if t in sub.tables {
      var k :| 0 <= k < |sub.tables| && sub.tables[k] == t;
      assert picks[k] in picks;
      assert t.name in keys ==> IsKey(schema, t.name);
    }
    if t in schema.tables && t.Key() in keys {
      var i :| 0 <= i < |schema.tables| && schema.tables[i] == t;
      assert i in picks;
      var k :| 0 <= k < |picks| && picks[k] == i;
      assert sub.tables[k] == t;
    }
  }

  /** Bridges lie on paths of keys. */
  lemma BridgesAreKeys(schema: Schema, g: Graph, seeds: seq<string>, x: string)
    requires IsJoinGraph(schema, g) && (forall k :: k in seeds ==> IsKey(schema, k)) && OnPath(g, seeds, x)
    ensures IsKey(schema, x)
  {
    var i, j, path :| 0 <= i < j < |seeds| && IsShortest(g, seeds[i], seeds[j], path) && x in path;
    assert seeds[i] in seeds;
    PathOfKeys(schema, g, path, seeds[i], seeds[j]);
  }

  /** The part of the catalog the model sees: the seeds and the bridges between them. */
  method Retrieve(schema: Schema, seeds: seq<string>) returns (sub: Schema, bridges: set<string>, ghost g: Graph)
    ensures IsJoinGraph(schema, g) && CarriesAll(g, seeds, |seeds|, Elements(seeds) + bridges)
    ensures forall x :: x in bridges ==> x !in seeds && OnPath(g, seeds, x)
    ensures sub == Subset(schema, QualifiedNames(schema, Elements(seeds) + bridges))
    ensures WellNamed(schema) ==> KeepsTables(schema, Elements(seeds) + bridges, sub)
    ensures WellNamed(schema) && (forall k :: k in seeds ==> IsKey(schema, k)) ==>
      forall t :: t in sub.tables <==> t in schema.tables && (t.Key() in seeds || t.Key() in bridges)
  {
    var graph := BuildJoinGraph(schema);
    g := graph;
    bridges := AddBridges(graph, seeds);
    sub := Subset(schema, QualifiedNames(schema, Elements(seeds) + bridges));
    if WellNamed(schema) {
      WellNamedSeparated(schema);
      RetrievedTables(schema, Elements(seeds) + bridges);
      if forall k :: k in seeds ==> IsKey(schema, k) {
        AllKeys(schema, g, seeds, bridges);
        forall t
          ensures t in sub.tables <==> t in schema.tables && (t.Key() in seeds || t.Key() in bridges)
        {
          KeptByKey(schema, Elements(seeds) + bridges, sub, t);
        }
      }
    }
  }

  lemma AllKeys(schema: Schema, g: Graph, seeds: seq<string>, bridges: set<string>)
    requires IsJoinGraph(schema, g) && (forall k :: k in seeds ==> IsKey(schema, k))
    requires forall x :: x in bridges ==> OnPath(g, seeds, x)
    ensures forall key :: key in Elements(seeds) + bridges ==> IsKey(schema, key)
  {
    forall x | x in bridges
      ensures IsKey(schema, x)
    {
      BridgesAreKeys(schema, g, seeds, x);
    }
  }

  lemma KeysKept(schema: Schema, g: Graph, keys: set<string>, u: string, v: string)
    requires Separated(schema) && IsJoinGraph(schema, g) && IsKey(schema, u)
    requires CarriesPath(g, u, v, keys)
    ensures CarriesPath(g, u, v, QualifiedNames(schema, keys))
  {
    var path :| IsShortest(g, u, v, path) && Elements(path) <= keys;
    forall x | x in path
      ensures x in QualifiedNames(schema, keys)
    {
      PathOfKeys(schema, g, path, u, v);
      QualifiedKey(schema, x);
      assert x in keys;
    }
    assert Elements(path) <= QualifiedNames(schema, keys);
  }

  /** The retrieved part joins any two seeds at exactly the distance the whole catalog does. */
  lemma RetrievalKeepsDistances(schema: Schema, seeds: seq<string>, nodes: set<string>, g: Graph, gs: Graph,
                                i: nat, j: nat, full: seq<string>, part: seq<string>)
    requires WellNamed(schema) && IsJoinGraph(schema, g) && i < j < |seeds| && IsKey(schema, seeds[i])
    requires CarriesAll(g, seeds, |seeds|, nodes)
    requires IsJoinGraph(Subset(schema, QualifiedNames(schema, nodes)), gs)
    requires IsShortest(g, seeds[i], seeds[j], full) && IsShortest(gs, seeds[i], seeds[j], part)
    ensures |part| == |full|
  {
    WellNamedSeparated(schema);
    assert CarriesFrom(g, seeds, i, |seeds|, nodes);
    KeysKept(schema, g, nodes, seeds[i], seeds[j]);
    DistancePreserved(schema, QualifiedNames(schema, nodes), g, gs, seeds[i], seeds[j], full, part);
  }
}
