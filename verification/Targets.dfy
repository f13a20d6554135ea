/** The rewriter's targets: which predicate goes to which SELECT, found by one walk of the tree. */
module Targets {
  import opened Collections
  import opened Syntax
  import opened StatementTree
  import opened TenantRewrite
  import opened TreeRewrite

  // ----- nodes with identities -----

  function MarkSet(t: Tree<nat>): set<nat> {
    {t.mark} + MarkSets(t.kids)
  }

  function MarkSets(ts: seq<Tree<nat>>): set<nat> {
    if |ts| == 0 then {} else MarkSet(ts[0]) + MarkSets(ts[1..])
  }

  lemma {:induction false} MarkSetsMember(ts: seq<Tree<nat>>, m: nat)
    ensures m in MarkSets(ts) <==> exists i :: 0 <= i < |ts| && m in MarkSet(ts[i])
  {
    if |ts| != 0 {
      MarkSetsMember(ts[1..], m);
      if m in MarkSets(ts[1..]) {
        var i :| 0 <= i < |ts[1..]| && m in MarkSet(ts[1..][i]);
        assert m in MarkSet(ts[i + 1]);
      }
      if i :| 0 <= i < |ts| && m in MarkSet(ts[i]) {
        if i > 0 {
          assert m in MarkSet(ts[1..][i - 1]);
        }
      }
    }
  }

  /** No identity occurs twice: the nodes form a tree, nothing is shared. */
  ghost predicate Separate(t: Tree<nat>) {
    && t.mark !in MarkSets(t.kids)
    && (forall i :: 0 <= i < |t.kids| ==> Separate(t.kids[i]))
    && (forall i, j :: 0 <= i < j < |t.kids| ==> MarkSet(t.kids[i]) !! MarkSet(t.kids[j]))
  }

  /** `find_ancestor(Select)`: the nearest enclosing SELECT. */
  function NearestSelect(above: seq<Step<nat>>): Option<nat> {
    if |above| == 0 then None
    else if above[|above| - 1].tag.SelectTag? then Some(above[|above| - 1].mark)
    else NearestSelect(above[..|above| - 1])
  }

  lemma NearestBelow(v: Visit<nat>, i: nat)
    requires i < |v.tree.kids|
    ensures NearestSelect(KidVisits(v)[i].above)
         == if v.tree.tag.SelectTag? then Some(v.tree.mark) else NearestSelect(v.above)
  {
    var above := KidVisits(v)[i].above;
    assert above[..|above| - 1] == v.above;
  }

  // ----- the tables of one SELECT, in walk order -----

  function Mine(v: Visit<nat>, scope: nat): seq<Tag> {
    if v.tree.tag.TableTag? && NearestSelect(v.above) == Some(scope) then [v.tree.tag] else []
  }

  function TablesOf(vs: seq<Visit<nat>>, scope: nat): seq<Tag> {
    if |vs| == 0 then [] else Mine(vs[0], scope) + TablesOf(vs[1..], scope)
  }

  /** A tree that can still contribute a table to `scope`. */
  function Relevant(scope: nat): Visit<nat> -> bool {
    (v: Visit<nat>) => scope in MarkSet(v.tree) || NearestSelect(v.above) == Some(scope)
  }

  lemma {:induction false} WeightFilter(vs: seq<Visit<nat>>, p: Visit<nat> -> bool)
    ensures Weight(Filter(vs, p)) <= Weight(vs)
  {
    if |vs| != 0 {
      WeightFilter(vs[1..], p);
      if p(vs[0]) {
        assert ([vs[0]] + Filter(vs[1..], p))[1..] == Filter(vs[1..], p);
      }
    }
  }

  lemma {:induction false} FilterNone<A>(xs: seq<A>, p: A -> bool)
    requires forall x :: x in xs ==> !p(x)
    ensures Filter(xs, p) == []
  {
    if |xs| != 0 {
      FilterNone(xs[1..], p);
    }
  }

  lemma {:induction false} FilterOne<A>(xs: seq<A>, p: A -> bool, k: nat)
    requires k < |xs| && forall i :: 0 <= i < |xs| ==> (p(xs[i]) <==> i == k)
    ensures Filter(xs, p) == [xs[k]]
  {
    if k == 0 {
      assert forall x :: x in xs[1..] ==> !p(x);
      FilterNone(xs[1..], p);
    } else {
      FilterOne(xs[1..], p, k - 1);
    }
  }

  lemma KidsIrrelevant(v: Visit<nat>, scope: nat)
    requires scope !in MarkSet(v.tree)
    requires v.tree.tag.SelectTag? || NearestSelect(v.above) != Some(scope)
    ensures Filter(KidVisits(v), Relevant(scope)) == []
  {
    forall u | u in KidVisits(v)
      ensures !Relevant(scope)(u)
    {
      var i :| 0 <= i < |KidVisits(v)| && KidVisits(v)[i] == u;
      NearestBelow(v, i);
      MarkSetsMember(v.tree.kids, scope);
    }
    FilterNone(KidVisits(v), Relevant(scope));
  }

  lemma {:induction false} WalkStep(head: Visit<nat>, rest: seq<Visit<nat>>, scope: nat)
    ensures TablesOf(Walk([head] + rest), scope) == Mine(head, scope) + TablesOf(Walk(rest + KidVisits(head)), scope)
    ensures Weight(rest + KidVisits(head)) < Weight([head] + rest)
  {
    var queue := [head] + rest;
    assert queue[0] == head && queue[1..] == rest;
    WeightDrops(queue);
    var later := Walk(rest + KidVisits(head));
    assert Walk(queue) == [head] + later;
    assert ([head] + later)[1..] == later;
  }

  /** Trees that cannot contribute may leave the queue. */
  lemma {:induction false} DropIrrelevant(queue: seq<Visit<nat>>, scope: nat)
    ensures TablesOf(Walk(queue), scope) == TablesOf(Walk(Filter(queue, Relevant(scope))), scope)
    decreases Weight(queue)
  {
    if |queue| != 0 {
      var head, rest := queue[0], queue[1..];
      var kids := KidVisits(head);
      var rel := Relevant(scope);
      var kept := Filter(rest, rel);
      assert queue == [head] + rest;
      WalkStep(head, rest, scope);
      DropIrrelevant(rest + kids, scope);
      FilterAppend(rest, kids, rel);
      if rel(head) {
        WalkStep(head, kept, scope);
        WeightFilter(rest, rel);
        WeightAppend(rest, kids);
        WeightAppend(kept, kids);
        DropIrrelevant(kept + kids, scope);
        FilterAppend(kept, kids, rel);
        FilterTwice(rest, rel, rel);
        FilterSame(rest, AndAlso(rel, rel), rel);
      } else {
        KidsIrrelevant(head, scope);
        assert kept + [] == kept;
      }
    }
  }

  function Trees(vs: seq<Visit<nat>>): (r: seq<Tree<nat>>)
    ensures |r| == |vs|
    ensures forall i :: 0 <= i < |vs| ==> r[i] == vs[i].tree
  {
    if |vs| == 0 then [] else [vs[0].tree] + Trees(vs[1..])
  }

  /** A node strictly inside the SELECT `scope` and outside nested ones. */
  ghost predicate InRegion(v: Visit<nat>, scope: nat) {
    NearestSelect(v.above) == Some(scope) && scope !in MarkSet(v.tree)
  }

  lemma KidInRegion(v: Visit<nat>, i: nat, scope: nat)
    requires i < |v.tree.kids| && scope !in MarkSets(v.tree.kids)
    requires if v.tree.tag.SelectTag? then v.tree.mark == scope else NearestSelect(v.above) == Some(scope)
    ensures InRegion(KidVisits(v)[i], scope)
  {
    NearestBelow(v, i);
    MarkSetsMember(v.tree.kids, scope);
  }

  /** A nested SELECT contributes nothing to the region. */
  lemma {:induction false} SkipSelect(head: Visit<nat>, rest: seq<Visit<nat>>, scope: nat)
    requires head.tree.tag.SelectTag? && InRegion(head, scope)
    requires forall v :: v in rest ==> InRegion(v, scope)
    ensures TablesOf(Walk([head] + rest), scope) == TablesOf(Walk(rest), scope)
  {
    WalkStep(head, rest, scope);
    DropIrrelevant(rest + KidVisits(head), scope);
    FilterAppend(rest, KidVisits(head), Relevant(scope));
    KidsIrrelevant(head, scope);
    FilterAll(rest, Relevant(scope));
    assert rest + [] == rest;
  }

  lemma {:induction false} TreesAppend(a: seq<Visit<nat>>, b: seq<Visit<nat>>)
    ensures Trees(a + b) == Trees(a) + Trees(b)
  {
  }

  /** Inside one SELECT the walk meets its tables in the order the search for them does. */
  lemma {:induction false} RegionScan(queue: seq<Visit<nat>>, scope: nat)
    requires forall v :: v in queue ==> InRegion(v, scope)
    ensures TablesOf(Walk(queue), scope) == Scan(Trees(queue))
    decreases Weight(queue)
  {
    if |queue| != 0 {
      var head, rest := queue[0], queue[1..];
      assert queue == [head] + rest && head in queue;
      WalkStep(head, rest, scope);
      TreesAppend([head], rest);
      if head.tree.tag.SelectTag? {
        SkipSelect(head, rest, scope);
        WeightAppend([head], rest);
        RegionScan(rest, scope);
      } else {
        forall v: Visit<nat> | v in rest + KidVisits(head)
          ensures InRegion(v, scope)
        {
          if v in KidVisits(head) {
            var i :| 0 <= i < |KidVisits(head)| && KidVisits(head)[i] == v;
            KidInRegion(head, i, scope);
          }
        }
        RegionScan(rest + KidVisits(head), scope);
        TreesAppend(rest, KidVisits(head));
        assert Trees(KidVisits(head)) == head.tree.kids;
      }
    }
  }

  lemma {:induction false} HasMark(t: Tree<nat>, n: Tree<nat>)
    requires Has(t, n)
    ensures n.mark in MarkSet(t)
  {
    if t != n {
      var i :| 0 <= i < |t.kids| && Has(t.kids[i], n);
      HasMark(t.kids[i], n);
      MarkSetsMember(t.kids, n.mark);
    }
  }

  /** From the root down to a SELECT, then inside it. */
  lemma {:induction false} TablesOfSelect(v: Visit<nat>, n: Tree<nat>)
    requires Separate(v.tree) && Has(v.tree, n) && n.tag.SelectTag?
    requires NearestSelect(v.above) != Some(n.mark)
    ensures TablesOf(Walk([v]), n.mark) == Scan(n.kids)
    decreases v.tree
  {
    var scope := n.mark;
    var kids := KidVisits(v);
    WalkStep(v, [], scope);
    assert [v] + [] == [v] && [] + kids == kids;
    if v.tree == n {
      forall u | u in kids
        ensures InRegion(u, scope)
      {
        var i :| 0 <= i < |kids| && kids[i] == u;
        KidInRegion(v, i, scope);
      }
      RegionScan(kids, scope);
      assert Trees(kids) == n.kids;
    } else {
      var k :| 0 <= k < |v.tree.kids| && Has(v.tree.kids[k], n);
      HasMark(v.tree.kids[k], n);
      MarkSetsMember(v.tree.kids, scope);
      assert v.tree.mark != scope;
      forall i | 0 <= i < |kids|
        ensures Relevant(scope)(kids[i]) <==> i == k
      {
        NearestBelow(v, i);
      }
      FilterOne(kids, Relevant(scope), k);
      DropIrrelevant(kids, scope);
      NearestBelow(v, k);
      TablesOfSelect(kids[k], n);
    }
  }

  // ----- targets -----

  datatype Target = Target(scope: nat, condition: Expr)

  function VisitTargets(t: Tenancy, v: Visit<nat>): seq<Target> {
    match NearestSelect(v.above)
    case None => []
    case Some(scope) =>
      var ps := TagPredicates(t, v.tree.tag);
      if |ps| == 0 then [] else [Target(scope, ps[0])]
  }

  /** One target for each tenant-table occurrence below a SELECT, in walk order. */
  function TargetsOf(t: Tenancy, vs: seq<Visit<nat>>): seq<Target> {
    if |vs| == 0 then [] else VisitTargets(t, vs[0]) + TargetsOf(t, vs[1..])
  }

  function ConditionsFor(targets: seq<Target>, scope: nat): seq<Expr> {
    if |targets| == 0 then []
    else (if targets[0].scope == scope then [targets[0].condition] else []) + ConditionsFor(targets[1..], scope)
  }

  lemma {:induction false} ConditionsForAppend(a: seq<Target>, b: seq<Target>, scope: nat)
    ensures ConditionsFor(a + b, scope) == ConditionsFor(a, scope) + ConditionsFor(b, scope)
  {
    if |a| == 0 {
      assert a + b == b;
    } else {
      assert (a + b)[1..] == a[1..] + b;
      ConditionsForAppend(a[1..], b, scope);
    }
  }

  lemma {:induction false} TargetsForScope(t: Tenancy, vs: seq<Visit<nat>>, scope: nat)
    ensures ConditionsFor(TargetsOf(t, vs), scope) == AllPredicates(t, TablesOf(vs, scope))
  {
    if |vs| != 0 {
      TargetsForScope(t, vs[1..], scope);
      ConditionsForAppend(VisitTargets(t, vs[0]), TargetsOf(t, vs[1..]), scope);
      AllPredicatesAppend(t, Mine(vs[0], scope), TablesOf(vs[1..], scope));
      var ps := TagPredicates(t, vs[0].tree.tag);
      if Mine(vs[0], scope) != [] {
        assert AllPredicates(t, Mine(vs[0], scope)) == ps + [];
        assert |ps| <= 1;
      }
    }
  }

  /** Each SELECT is the target of exactly the predicates of its own tables, in order. */
  lemma {:induction false} TargetsOfSelect(t: Tenancy, root: Tree<nat>, n: Tree<nat>)
    requires Separate(root) && Has(root, n) && n.tag.SelectTag?
    ensures ConditionsFor(TargetsOf(t, Nodes(root)), n.mark) == AllPredicates(t, Scan(n.kids))
  {
    TablesOfSelect(Visit(root, []), n);
    TargetsForScope(t, Nodes(root), n.mark);
  }
}
