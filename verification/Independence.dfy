/** A query whose column references all denote readable columns cannot observe the others. */
module Independence {
  import opened Collections
  import opened Values
  import opened Schemas
  import opened Syntax
  import opened Evaluator
  import opened StatementTree
  import opened ValidatorSpec

  /** What the statement-wide checks know, which column nodes the statement has, and which base
      columns may be read. */
  datatype Knowledge = Knowledge(
    schema: Schema, names: Names, mentioned: set<Tag>, readable: (TableInfo, string) -> bool)

  // ----- names, statement-wide -----

  ghost predicate Denotes(k: Knowledge, name: string, info: TableInfo) {
    name in k.names.aliases && info in Known(k.schema, k.names.aliases[name])
  }

  /** A CTE or derived table bears a name of the table, so occurrences of that name are not considered. */
  ghost predicate Shadowed(k: Knowledge, info: TableInfo) {
    exists name :: name in k.names.virtuals && k.schema.Table(name) == Some(info)
  }

  ghost predicate Accounted(k: Knowledge, name: string, info: TableInfo) {
    Shadowed(k, info) || (Denotes(k, name, info) && info in k.names.infos)
  }

  ghost predicate TableOk(k: Knowledge, source: Source)
    requires source.Table?
  {
    match k.schema.Table(source.name)
    case None => true
    case Some(info) => Accounted(k, source.Label(), info)
  }

  /** Every base column the reference may denote anywhere in the statement is readable. */
  ghost predicate ColumnOk(k: Knowledge, qualifier: string, name: string) {
    forall info: TableInfo :: info.HasColumn(name) &&
      (Shadowed(k, info) || if qualifier != "" then Denotes(k, qualifier, info) else info in k.names.infos)
      ==> k.readable(info, name)
  }

  ghost predicate TagOk(k: Knowledge, tag: Tag) {
    match tag
    case TableTag(catalog, db, name, alias) => TableOk(k, Table(catalog, db, name, alias))
    case ColumnTag(qualifier, name) => tag in k.mentioned && ColumnOk(k, qualifier, name)
    case _ => true
  }

  ghost predicate AllOk(k: Knowledge, t: Statement) {
    TagOk(k, t.tag) && forall i :: 0 <= i < |t.kids| ==> AllOk(k, t.kids[i])
  }

  // ----- alike data -----

  ghost predicate AlikeBinding(k: Knowledge, a: Binding, b: Binding) {
    && a.name == b.name && a.origin == b.origin && a.columns == b.columns
    && match a.origin
       case None => a.row == b.row
       case Some(info) =>
         && Accounted(k, a.name, info) && a.columns == info.ColumnNames()
         && forall c :: k.readable(info, c) ==> Field(a, c) == Field(b, c)
  }

  ghost predicate AlikeFrame(k: Knowledge, f: Frame, g: Frame) {
    |f| == |g| && forall i :: 0 <= i < |f| ==> AlikeBinding(k, f[i], g[i])
  }

  ghost predicate AlikeFrames(k: Knowledge, fs: seq<Frame>, gs: seq<Frame>) {
    |fs| == |gs| && forall i :: 0 <= i < |fs| ==> AlikeFrame(k, fs[i], gs[i])
  }

  ghost predicate AlikeBindings(k: Knowledge, bs: seq<Binding>, cs: seq<Binding>) {
    |bs| == |cs| && forall i :: 0 <= i < |bs| ==> AlikeBinding(k, bs[i], cs[i])
  }

  function Cell(info: TableInfo, row: Row, column: string): Value {
    Field(Binding("", Some(info), info.ColumnNames(), row), column)
  }

  ghost predicate AlikeRows(k: Knowledge, info: TableInfo, xs: seq<Row>, ys: seq<Row>) {
    && |xs| == |ys|
    && forall i, c :: 0 <= i < |xs| && k.readable(info, c) ==> Cell(info, xs[i], c) == Cell(info, ys[i], c)
  }

  /** Databases with the same tables and row counts that agree on every readable column. */
  ghost predicate AlikeDatabase(k: Knowledge, a: Database, b: Database) {
    a.Keys == b.Keys && forall info :: info in a ==> AlikeRows(k, info, a[info], b[info])
  }

  ghost predicate AlikeStores(k: Knowledge, s: Store, r: Store) {
    && s.world == r.world && s.schema == r.schema == k.schema
    && AlikeDatabase(k, s.db, r.db)
  }

  // ----- columns -----

  lemma {:induction false} FindAlike(k: Knowledge, f: Frame, g: Frame, name: string, column: string)
    requires AlikeFrame(k, f, g)
    ensures FindLabel(f, name).Some? == FindLabel(g, name).Some?
    ensures FindLabel(f, name).Some? ==>
      AlikeBinding(k, FindLabel(f, name).value, FindLabel(g, name).value) && FindLabel(f, name).value.name == name
    ensures FindOwner(f, column).Some? == FindOwner(g, column).Some?
    ensures FindOwner(f, column).Some? ==> AlikeBinding(k, FindOwner(f, column).value, FindOwner(g, column).value)
  {
    if |f| != 0 {
      assert AlikeBinding(k, f[0], g[0]);
      FindAlike(k, f[1..], g[1..], name, column);
    }
  }

  /** The reference really denotes a binding; the statement-wide alias map knows its table. */
  lemma {:induction false} ResolveAlike(k: Knowledge, env: Env, fnv: Env, qualifier: string, column: string)
    requires AlikeFrames(k, env, fnv) && ColumnOk(k, qualifier, column)
    ensures ColumnValue(env, qualifier, column) == ColumnValue(fnv, qualifier, column)
  {
    if |env| != 0 {
      var f, g := env[|env| - 1], fnv[|fnv| - 1];
      FindAlike(k, f, g, qualifier, column);
      var hit := if qualifier != "" then FindLabel(f, qualifier) else FindOwner(f, column);
      if hit.Some? {
        var b := hit.value;
        if b.origin.Some? && b.origin.value.HasColumn(column) {
          assert k.readable(b.origin.value, column);
        }
      } else {
        ResolveAlike(k, env[..|env| - 1], fnv[..|fnv| - 1], qualifier, column);
      }
    }
  }

  // ----- the combinators on alike data -----

  /** Functions with the same value on alike arguments. */
  ghost predicate AlikeOnFrames<B>(k: Knowledge, p: Frame -> B, q: Frame -> B) {
    forall f, g :: AlikeFrame(k, f, g) ==> p(f) == q(g)
  }

  ghost predicate AlikeOnPairs(k: Knowledge, on: (Frame, Binding) -> bool, om: (Frame, Binding) -> bool) {
    forall f, g, b, c :: AlikeFrame(k, f, g) && AlikeBinding(k, b, c) ==> on(f, b) == om(g, c)
  }

  ghost predicate AlikeOnGroups<B>(k: Knowledge, p: seq<Frame> -> B, q: seq<Frame> -> B) {
    forall g, h :: AlikeFrames(k, g, h) ==> p(g) == q(h)
  }

  ghost predicate AlikeKeys(k: Knowledge, p: Option<Frame -> seq<Value>>, q: Option<Frame -> seq<Value>>) {
    p.Some? == q.Some? && (p.Some? ==> AlikeOnFrames(k, p.value, q.value))
  }

  ghost predicate AlikeSortKeys(k: Knowledge, p: Option<seq<Frame> -> seq<Value>>,
                                q: Option<seq<Frame> -> seq<Value>>) {
    p.Some? == q.Some? && (p.Some? ==> AlikeOnGroups(k, p.value, q.value))
  }

  lemma {:induction false} FilterAlike(k: Knowledge, fs: seq<Frame>, gs: seq<Frame>, p: Frame -> bool, q: Frame -> bool)
    requires AlikeFrames(k, fs, gs) && AlikeOnFrames(k, p, q)
    ensures AlikeFrames(k, Filter(fs, p), Filter(gs, q))
  {
    if |fs| != 0 {
      assert AlikeFrame(k, fs[0], gs[0]);
      FilterAlike(k, fs[1..], gs[1..], p, q);
    }
  }

  lemma {:induction false} MapAlike<B>(k: Knowledge, fs: seq<Frame>, gs: seq<Frame>, p: Frame -> B, q: Frame -> B)
    requires AlikeFrames(k, fs, gs) && AlikeOnFrames(k, p, q)
    ensures Map(fs, p) == Map(gs, q)
  {
    if |fs| != 0 {
      assert AlikeFrame(k, fs[0], gs[0]);
      MapAlike(k, fs[1..], gs[1..], p, q);
    }
  }

  lemma AlikeSnoc(k: Knowledge, f: Frame, g: Frame, b: Binding, c: Binding)
    requires AlikeFrame(k, f, g) && AlikeBinding(k, b, c)
    ensures AlikeFrame(k, f + [b], g + [c])
  {
  }

  lemma {:induction false} MatchesAlike(k: Knowledge, l: Frame, m: Frame, rs: seq<Binding>, ss: seq<Binding>,
                                        on: (Frame, Binding) -> bool, om: (Frame, Binding) -> bool)
    requires AlikeFrame(k, l, m) && AlikeBindings(k, rs, ss)
    requires AlikeOnPairs(k, on, om)
    ensures AlikeFrames(k, Matches(l, rs, on), Matches(m, ss, om))
  {
    if |rs| != 0 {
      assert AlikeBinding(k, rs[0], ss[0]);
      AlikeSnoc(k, l, m, rs[0], ss[0]);
      MatchesAlike(k, l, m, rs[1..], ss[1..], on, om);
    }
  }

  lemma AlikeAppend(k: Knowledge, fs: seq<Frame>, gs: seq<Frame>, fs': seq<Frame>, gs': seq<Frame>)
    requires AlikeFrames(k, fs, gs) && AlikeFrames(k, fs', gs')
    ensures AlikeFrames(k, fs + fs', gs + gs')
  {
  }

  lemma {:induction false} LeftPartAlike(k: Knowledge, ls: seq<Frame>, ms: seq<Frame>, rs: seq<Binding>,
                                         ss: seq<Binding>, keep: bool, on: (Frame, Binding) -> bool,
                                         om: (Frame, Binding) -> bool, nullRight: Binding)
    requires AlikeFrames(k, ls, ms) && AlikeBindings(k, rs, ss) && AlikeBinding(k, nullRight, nullRight)
    requires AlikeOnPairs(k, on, om)
    ensures AlikeFrames(k, LeftPart(ls, rs, keep, on, nullRight), LeftPart(ms, ss, keep, om, nullRight))
  {
    if |ls| != 0 {
      assert AlikeFrame(k, ls[0], ms[0]);
      MatchesAlike(k, ls[0], ms[0], rs, ss, on, om);
      AlikeSnoc(k, ls[0], ms[0], nullRight, nullRight);
      LeftPartAlike(k, ls[1..], ms[1..], rs, ss, keep, on, om, nullRight);
      var found, found' := Matches(ls[0], rs, on), Matches(ms[0], ss, om);
      AlikeAppend(k, if |found| == 0 && keep then [ls[0] + [nullRight]] else found,
                     if |found'| == 0 && keep then [ms[0] + [nullRight]] else found',
                     LeftPart(ls[1..], rs, keep, on, nullRight), LeftPart(ms[1..], ss, keep, om, nullRight));
    }
  }

  lemma MatchedAlike(k: Knowledge, ls: seq<Frame>, ms: seq<Frame>, b: Binding, c: Binding,
                     on: (Frame, Binding) -> bool, om: (Frame, Binding) -> bool)
    requires AlikeFrames(k, ls, ms) && AlikeBinding(k, b, c)
    requires AlikeOnPairs(k, on, om)
    ensures Matched(ls, b, on) == Matched(ms, c, om)
  {
    forall i | 0 <= i < |ls|
      ensures on(ls[i], b) == om(ms[i], c)
    {
      assert AlikeFrame(k, ls[i], ms[i]);
    }
  }

  lemma {:induction false} RightPartAlike(k: Knowledge, ls: seq<Frame>, ms: seq<Frame>, rs: seq<Binding>,
                                          ss: seq<Binding>, on: (Frame, Binding) -> bool,
                                          om: (Frame, Binding) -> bool, nullLeft: Frame)
    requires AlikeFrames(k, ls, ms) && AlikeBindings(k, rs, ss) && AlikeFrame(k, nullLeft, nullLeft)
    requires AlikeOnPairs(k, on, om)
    ensures AlikeFrames(k, RightPart(ls, rs, on, nullLeft), RightPart(ms, ss, om, nullLeft))
  {
    if |rs| != 0 {
      assert AlikeBinding(k, rs[0], ss[0]);
      MatchedAlike(k, ls, ms, rs[0], ss[0], on, om);
      AlikeSnoc(k, nullLeft, nullLeft, rs[0], ss[0]);
      RightPartAlike(k, ls, ms, rs[1..], ss[1..], on, om, nullLeft);
    }
  }

  lemma JoinAlike(k: Knowledge, ls: seq<Frame>, ms: seq<Frame>, rs: seq<Binding>, ss: seq<Binding>, kind: JoinKind,
                  on: (Frame, Binding) -> bool, om: (Frame, Binding) -> bool, nullLeft: Frame, nullRight: Binding)
    requires AlikeFrames(k, ls, ms) && AlikeBindings(k, rs, ss)
    requires AlikeFrame(k, nullLeft, nullLeft) && AlikeBinding(k, nullRight, nullRight)
    requires AlikeOnPairs(k, on, om)
    ensures AlikeFrames(k, JoinRows(ls, rs, kind, on, nullLeft, nullRight),
                        JoinRows(ms, ss, kind, om, nullLeft, nullRight))
  {
    LeftPartAlike(k, ls, ms, rs, ss, KeepsLeft(kind), on, om, nullRight);
    RightPartAlike(k, ls, ms, rs, ss, on, om, nullLeft);
  }

  // ----- groups -----

  ghost predicate AlikeGroups(k: Knowledge, gs: seq<seq<Frame>>, hs: seq<seq<Frame>>) {
    |gs| == |hs| && forall i :: 0 <= i < |gs| ==> AlikeFrames(k, gs[i], hs[i])
  }

  lemma {:induction false} SingletonsAlike(k: Knowledge, fs: seq<Frame>, gs: seq<Frame>)
    requires AlikeFrames(k, fs, gs)
    ensures AlikeGroups(k, Map(fs, Singleton), Map(gs, Singleton))
  {
    forall i | 0 <= i < |fs|
      ensures AlikeFrames(k, Map(fs, Singleton)[i], Map(gs, Singleton)[i])
    {
      assert AlikeFrame(k, fs[i], gs[i]);
    }
  }

  lemma GroupByAlike(k: Knowledge, fs: seq<Frame>, gs: seq<Frame>, p: Frame -> seq<Value>, q: Frame -> seq<Value>)
    requires AlikeFrames(k, fs, gs) && AlikeOnFrames(k, p, q)
    ensures AlikeGroups(k, GroupBy(fs, p), GroupBy(gs, q))
  {
    MapAlike(k, fs, gs, p, q);
    var ks := Distinct(Map(fs, p));
    forall i | 0 <= i < |ks|
      ensures AlikeFrames(k, GroupBy(fs, p)[i], GroupBy(gs, q)[i])
    {
      FilterAlike(k, fs, gs, HasKey(p, ks[i]), HasKey(q, ks[i]));
    }
  }

  lemma {:induction false} FilterGroupsAlike(k: Knowledge, gs: seq<seq<Frame>>, hs: seq<seq<Frame>>,
                                             p: seq<Frame> -> bool, q: seq<Frame> -> bool)
    requires AlikeGroups(k, gs, hs)
    requires AlikeOnGroups(k, p, q)
    ensures AlikeGroups(k, Filter(gs, p), Filter(hs, q))
  {
    if |gs| != 0 {
      assert AlikeFrames(k, gs[0], hs[0]);
      FilterGroupsAlike(k, gs[1..], hs[1..], p, q);
    }
  }

  lemma {:induction false} MapGroupsAlike<B>(k: Knowledge, gs: seq<seq<Frame>>, hs: seq<seq<Frame>>,
                                             p: seq<Frame> -> B, q: seq<Frame> -> B)
    requires AlikeGroups(k, gs, hs)
    requires AlikeOnGroups(k, p, q)
    ensures Map(gs, p) == Map(hs, q)
  {
    if |gs| != 0 {
      assert AlikeFrames(k, gs[0], hs[0]);
      MapGroupsAlike(k, gs[1..], hs[1..], p, q);
    }
  }

  lemma ShapeAlike(k: Knowledge, world: World, fs: seq<Frame>, gs: seq<Frame>,
                   key: Option<Frame -> seq<Value>>, key': Option<Frame -> seq<Value>>, whole: bool,
                   having: seq<Frame> -> bool, having': seq<Frame> -> bool,
                   project: seq<Frame> -> seq<Value>, project': seq<Frame> -> seq<Value>,
                   sortKey: Option<seq<Frame> -> seq<Value>>, sortKey': Option<seq<Frame> -> seq<Value>>,
                   distinct: bool)
    requires AlikeFrames(k, fs, gs) && AlikeKeys(k, key, key') && AlikeSortKeys(k, sortKey, sortKey')
    requires AlikeOnGroups(k, having, having') && AlikeOnGroups(k, project, project')
    ensures Shape(world, fs, key, whole, having, project, sortKey, distinct)
         == Shape(world, gs, key', whole, having', project', sortKey', distinct)
  {
    GroupsAlike(k, fs, gs, key, key', whole);
    var groups, groups' := Groups(fs, key, whole), Groups(gs, key', whole);
    FilterGroupsAlike(k, groups, groups', having, having');
    if sortKey.None? {
      MapGroupsAlike(k, Filter(groups, having), Filter(groups', having'), project, project');
    } else {
      assert AlikeOnGroups(k, sortKey.value, sortKey'.value);
      MapGroupsAlike(k, Filter(groups, having), Filter(groups', having'),
                     Keyed(sortKey.value, project), Keyed(sortKey'.value, project'));
    }
  }

  lemma GroupsAlike(k: Knowledge, fs: seq<Frame>, gs: seq<Frame>, key: Option<Frame -> seq<Value>>,
                    key': Option<Frame -> seq<Value>>, whole: bool)
    requires AlikeFrames(k, fs, gs) && AlikeKeys(k, key, key')
    ensures AlikeGroups(k, Groups(fs, key, whole), Groups(gs, key', whole))
  {
    if key.None? {
      SingletonsAlike(k, fs, gs);
    } else if !whole {
      GroupByAlike(k, fs, gs, key.value, key'.value);
    }
  }
}
