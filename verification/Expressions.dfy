/** Statements in memory: an object whose nodes are updated in place. */
module Expressions {
  import opened Collections
  import opened Values
  import opened Schemas
  import opened Syntax
  import opened StatementTree
  import opened Encoding
  import opened TreeRewrite
  import opened Targets
  import opened Placement
  import opened Arena
  import opened Limits

  // ----- what an update keeps -----

  function NewMarks(a: Addition): set<nat> {
    MarkSet(a.condition) + {a.joint}
  }

  lemma {:induction false} AttachMarks(holder: Tree<nat>, condition: Tree<nat>, joint: nat)
    requires |holder.kids| <= 1
    ensures MarkSet(holder) <= MarkSet(Attach(holder, condition, joint))
    ensures MarkSet(Attach(holder, condition, joint)) <= MarkSet(holder) + MarkSet(condition) + {joint}
  {
    if |holder.kids| == 0 {
      assert MarkSets([condition]) == MarkSet(condition) + MarkSets([condition][1..]);
    } else {
      var both := Node(joint, AndTag, false, [holder.kids[0], condition]);
      assert MarkSets(holder.kids) == MarkSet(holder.kids[0]) + MarkSets(holder.kids[1..]);
      assert both.kids[1..] == [condition] && [condition][1..] == [];
      assert MarkSets(both.kids) == MarkSet(holder.kids[0]) + (MarkSet(condition) + {});
      assert MarkSets([both]) == MarkSet(both) + MarkSets([both][1..]);
    }
  }

  lemma {:induction false} AttachSeparate(holder: Tree<nat>, condition: Tree<nat>, joint: nat)
    requires |holder.kids| <= 1 && Separate(holder) && Separate(condition)
    requires joint !in MarkSet(condition) && (MarkSet(condition) + {joint}) !! MarkSet(holder)
    ensures Separate(Attach(holder, condition, joint))
  {
    var grown := Attach(holder, condition, joint);
    if |holder.kids| == 0 {
      assert MarkSets([condition]) == MarkSet(condition) + MarkSets([condition][1..]);
    } else {
      var first := holder.kids[0];
      var both := Node(joint, AndTag, false, [first, condition]);
      MarkSetsMember(holder.kids, joint);
      MarkSetsMember(holder.kids, holder.mark);
      assert MarkSet(first) <= MarkSet(holder) by {
        forall m | m in MarkSet(first)
          ensures m in MarkSet(holder)
        {
          MarkSetsMember(holder.kids, m);
        }
      }
      MarkSetsMember(both.kids, joint);
      assert Separate(both);
      MarkSetsMember(both.kids, holder.mark);
      MarkSetsMember([both], holder.mark);
    }
  }

  lemma {:induction false} PlaceMarks(t: Tree<nat>, a: Addition)
    requires Shaped(t)
    ensures MarkSet(t) <= MarkSet(Place(t, a)) <= MarkSet(t) + NewMarks(a)
  {
    var kids := PlaceIn(t.kids, a);
    forall i | 0 <= i < |t.kids|
      ensures MarkSet(t.kids[i]) <= MarkSet(kids[i]) <= MarkSet(t.kids[i]) + NewMarks(a)
    {
      PlaceMarks(t.kids[i], a);
    }
    var done := Place(t, a).kids;
    if t.mark == a.scope && t.tag.SelectTag? {
      PlaceKeepsCount(t.kids[0], a);
      AttachMarks(kids[0], a.condition, a.joint);
    }
    assert forall i :: 0 <= i < |done| ==>
      MarkSet(t.kids[i]) <= MarkSet(done[i]) <= MarkSet(t.kids[i]) + NewMarks(a);
    forall m
      ensures m in MarkSets(t.kids) ==> m in MarkSets(done)
      ensures m in MarkSets(done) ==> m in MarkSets(t.kids) || m in NewMarks(a)
    {
      MarkSetsMember(t.kids, m);
      MarkSetsMember(done, m);
    }
  }

  lemma {:induction false} PlaceKeepsCount(t: Tree<nat>, a: Addition)
    ensures |Place(t, a).kids| == |t.kids| && Place(t, a).tag == t.tag && Place(t, a).mark == t.mark
  {
  }

  lemma {:induction false} PlaceShaped(t: Tree<nat>, a: Addition)
    requires Shaped(t) && Shaped(a.condition) && !a.condition.tag.SelectTag?
    ensures Shaped(Place(t, a))
  {
    var kids := PlaceIn(t.kids, a);
    forall i | 0 <= i < |t.kids|
      ensures Shaped(kids[i]) && kids[i].tag == t.kids[i].tag && |kids[i].kids| == |t.kids[i].kids|
    {
      PlaceShaped(t.kids[i], a);
      PlaceKeepsCount(t.kids[i], a);
    }
    if t.mark == a.scope && t.tag.SelectTag? {
      var grown := Attach(kids[0], a.condition, a.joint);
      if |kids[0].kids| != 0 {
        assert Shaped(grown.kids[0]);
      }
      assert Shaped(grown);
    }
  }

  lemma {:induction false} PlaceSeparate(t: Tree<nat>, a: Addition)
    requires Separate(t) && Shaped(t) && Separate(a.condition)
    requires a.joint !in MarkSet(a.condition) && NewMarks(a) !! MarkSet(t)
    ensures Separate(Place(t, a))
  {
    var done := Place(t, a).kids;
    forall i | 0 <= i < |t.kids|
      ensures Separate(done[i]) && MarkSet(t.kids[i]) <= MarkSet(t)
      ensures MarkSet(done[i]) <= MarkSet(t.kids[i]) + NewMarks(a)
      ensures done[i] != t.kids[i] ==> a.scope in MarkSet(t.kids[i]) || (a.scope == t.mark && i == 0)
    {
      KidInside(t, i);
      PlaceSeparate(t.kids[i], a);
      PlacedKid(t, a, i);
    }
    MarkSetsMember(t.kids, t.mark);
    OneChanged(t, done, a);
    KidsSeparate(Place(t, a));
  }

  lemma {:induction false} PlacedKid(t: Tree<nat>, a: Addition, i: nat)
    requires Separate(t) && Shaped(t) && Separate(a.condition) && i < |t.kids|
    requires a.joint !in MarkSet(a.condition) && NewMarks(a) !! MarkSet(t)
    requires Separate(Place(t.kids[i], a)) && MarkSet(t.kids[i]) <= MarkSet(t)
    ensures var done := Place(t, a).kids;
      && Separate(done[i]) && MarkSet(done[i]) <= MarkSet(t.kids[i]) + NewMarks(a)
      && (done[i] != t.kids[i] ==> a.scope in MarkSet(t.kids[i]) || (a.scope == t.mark && i == 0))
  {
    PlaceMarks(t.kids[i], a);
    if a.scope !in MarkSet(t.kids[i]) {
      PlaceOutside(t.kids[i], a);
    }
    if t.mark == a.scope {
      PlaceOutsideKid(t, i, a);
      if t.tag.SelectTag? && i == 0 {
        AttachSeparate(t.kids[0], a.condition, a.joint);
        AttachMarks(t.kids[0], a.condition, a.joint);
      }
    }
  }

  lemma {:induction false} KidInside(t: Tree<nat>, i: nat)
    requires i < |t.kids|
    ensures MarkSet(t.kids[i]) <= MarkSet(t)
  {
    forall m | m in MarkSet(t.kids[i])
      ensures m in MarkSet(t)
    {
      MarkSetsMember(t.kids, m);
    }
  }

  lemma {:induction false} KidsSeparate(t: Tree<nat>)
    requires forall i :: 0 <= i < |t.kids| ==> Separate(t.kids[i]) && t.mark !in MarkSet(t.kids[i])
    requires forall i, j :: 0 <= i < j < |t.kids| ==> MarkSet(t.kids[i]) !! MarkSet(t.kids[j])
    ensures Separate(t)
  {
    MarkSetsMember(t.kids, t.mark);
  }

  lemma {:induction false} OneChanged(t: Tree<nat>, done: seq<Tree<nat>>, a: Addition)
    requires Separate(t) && NewMarks(a) !! MarkSet(t) && |done| == |t.kids|
    requires forall i :: 0 <= i < |done| ==> MarkSet(t.kids[i]) <= MarkSet(t)
    requires forall i :: 0 <= i < |done| ==> MarkSet(done[i]) <= MarkSet(t.kids[i]) + NewMarks(a)
    requires forall i :: 0 <= i < |done| && done[i] != t.kids[i] ==>
      a.scope in MarkSet(t.kids[i]) || (a.scope == t.mark && i == 0)
    ensures forall i, j :: 0 <= i < j < |done| ==> MarkSet(done[i]) !! MarkSet(done[j])
  {
    MarkSetsMember(t.kids, a.scope);
  }

  /** A SELECT of the tree is ready for an update. */
  lemma {:induction false} ReadyInTree(cells: seq<Cell>, t: Tree<nat>, parent: Option<nat>, scope: nat)
    requires Represents(cells, t, parent) && Separate(t) && Shaped(t)
    requires scope in MarkSet(t) && scope < |cells| && cells[scope].tag.SelectTag?
    ensures Ready(cells, scope)
  {
    if t.mark == scope {
      var holder := t.kids[0];
      assert cells[scope].kids[0] == holder.mark;
      assert holder.mark in MarkSet(holder);
      KidsApart(t, 0, holder.mark);
      forall k | k in cells[holder.mark].kids
        ensures k < |cells| && k != holder.mark && k != scope
      {
        var i :| 0 <= i < |holder.kids| && holder.kids[i].mark == k;
        assert k in MarkSet(holder.kids[i]);
        assert Represents(cells, holder, Some(scope)) && Represents(cells, holder.kids[i], Some(holder.mark));
        KidsApart(holder, i, k);
        KidsApart(t, 0, k);
      }
    } else {
      var k := KidWith(t, scope);
      ReadyInTree(cells, t.kids[k], Some(t.mark), scope);
    }
  }

  lemma {:induction false} PredicateTreeFacts(n: nat, qualifier: string, column: string, tenant: Value)
    ensures var p := PredicateTree(n, qualifier, column, tenant);
      && MarkSet(p) == {n, n + 1, n + 2} && Separate(p) && Shaped(p) && NoSelect(p)
      && Strip(p) == EncodeExpr(Equals(Column(qualifier, column), Literal(tenant)))
  {
    var p := PredicateTree(n, qualifier, column, tenant);
    var l, r := p.kids[0], p.kids[1];
    var none: seq<Tree<nat>> := [];
    assert p.kids[1..] == [r] && [r][1..] == none;
    assert MarkSets(none) == {};
    assert MarkSet(l) == {n + 1} + MarkSets(l.kids) && l.kids == none;
    assert MarkSet(r) == {n + 2} + MarkSets(r.kids) && r.kids == none;
    assert MarkSets(p.kids) == MarkSet(l) + MarkSets(p.kids[1..]);
    assert MarkSets([r]) == MarkSet(r) + MarkSets([r][1..]);
    assert MarkSet(p) == {n} + (MarkSet(l) + MarkSet(r));
    assert StripAll(p.kids) == [Strip(l), Strip(r)];
    assert Strip(l) == Leaf(ColumnTag(qualifier, column)) && Strip(r) == Leaf(LiteralTag(tenant));
  }

  /** No node disappears and none changes its class. */
  ghost predicate Extends(cells: seq<Cell>, t: Tree<nat>, cells': seq<Cell>, t': Tree<nat>) {
    && MarkSet(t) <= MarkSet(t') && |cells| <= |cells'|
    && forall m :: 0 <= m < |cells| ==> cells'[m].tag == cells[m].tag
  }

  /** The tree after an update: well formed, in place, and an extension of the one before. */
  ghost predicate Grown(cells: seq<Cell>, t: Tree<nat>, cells': seq<Cell>, t': Tree<nat>) {
    && Represents(cells', t', None) && Separate(t') && Shaped(t')
    && t'.mark == t.mark && Extends(cells, t, cells', t')
  }

  lemma {:induction false} WhereKeepsValid(cells: seq<Cell>, cells': seq<Cell>, t: Tree<nat>, scope: nat,
                                           qualifier: string, column: string, tenant: Value)
    requires Represents(cells, t, None) && Separate(t) && Shaped(t)
    requires scope in MarkSet(t) && Ready(cells, scope) && cells[scope].tag.SelectTag?
    requires Appended(cells, cells', cells[scope].kids[0], qualifier, column, tenant)
    ensures Grown(cells, t, cells', Place(t, Addition(scope, PredicateTree(|cells|, qualifier, column, tenant),
                                                      |cells| + 3)))
  {
    var a := Addition(scope, PredicateTree(|cells|, qualifier, column, tenant), |cells| + 3);
    AppendedIsPlaced(cells, cells', t, None, scope, qualifier, column, tenant);
    NewMarksApart(cells, t, a, qualifier, column, tenant);
    PlacedWell(t, a, |cells|, qualifier, column, tenant);
  }

  /** The tree side of an update. */
  lemma {:induction false} PlacedWell(t: Tree<nat>, a: Addition, n: nat, qualifier: string, column: string,
                                      tenant: Value)
    requires Separate(t) && Shaped(t) && NewMarks(a) !! MarkSet(t)
    requires a.condition == PredicateTree(n, qualifier, column, tenant) && a.joint == n + 3
    ensures Separate(Place(t, a)) && Shaped(Place(t, a)) && Place(t, a).mark == t.mark
    ensures MarkSet(t) <= MarkSet(Place(t, a))
  {
    PredicateTreeFacts(n, qualifier, column, tenant);
    PlaceMarks(t, a);
    PlaceShaped(t, a);
    PlaceSeparate(t, a);
    PlaceKeepsCount(t, a);
  }

  lemma {:induction false} NewMarksApart(cells: seq<Cell>, t: Tree<nat>, a: Addition, qualifier: string,
                                         column: string, tenant: Value)
    requires Represents(cells, t, None)
    requires a.condition == PredicateTree(|cells|, qualifier, column, tenant) && a.joint == |cells| + 3
    ensures NewMarks(a) !! MarkSet(t)
  {
    PredicateTreeFacts(|cells|, qualifier, column, tenant);
    forall m | m in MarkSet(t)
      ensures m < |cells|
    {
      MarksAllocated(cells, t, None, m);
    }
  }

  /** One turn of the walk's loop. */
  lemma {:induction false} WalkTurn(done: seq<Visit<nat>>, pending: seq<Visit<nat>>)
    requires |pending| != 0
    ensures Weight(pending[1..] + KidVisits(pending[0])) < Weight(pending)
    ensures done + Walk(pending) == (done + [pending[0]]) + Walk(pending[1..] + KidVisits(pending[0]))
  {
    WeightDrops(pending);
  }

  lemma QueueTurn(cells: seq<Cell>, done: seq<Visit<nat>>, pending: seq<Visit<nat>>)
    requires |pending| != 0 && Placed(cells, pending[0])
    ensures pending[0].tree.mark < |cells|
    ensures VisitMarks(pending[1..] + KidVisits(pending[0]))
         == VisitMarks(pending)[1..] + cells[pending[0].tree.mark].kids
    ensures VisitMarks(done + [pending[0]]) == VisitMarks(done) + [pending[0].tree.mark]
  {
    assert cells[pending[0].tree.mark].kids == VisitMarks(KidVisits(pending[0]));
  }

  lemma PlacedTurn(cells: seq<Cell>, pending: seq<Visit<nat>>)
    requires |pending| != 0 && forall v :: v in pending ==> Placed(cells, v)
    ensures forall u :: u in pending[1..] + KidVisits(pending[0]) ==> Placed(cells, u)
  {
    assert pending[0] in pending;
    KidsPlaced(cells, pending[0]);
  }

  lemma {:induction false} AncestorsInTree(marks: set<nat>, queue: seq<Visit<nat>>)
    requires forall v :: v in queue ==> MarkSet(v.tree) <= marks && forall s :: s in v.above ==> s.mark in marks
    ensures forall v :: v in Walk(queue) ==> forall s :: s in v.above ==> s.mark in marks
    decreases Weight(queue)
  {
    if |queue| != 0 {
      var head := queue[0];
      assert head in queue;
      forall u: Visit<nat> | u in queue[1..] + KidVisits(head)
        ensures MarkSet(u.tree) <= marks && forall s :: s in u.above ==> s.mark in marks
      {
        if u in KidVisits(head) {
          var i :| 0 <= i < |KidVisits(head)| && KidVisits(head)[i] == u;
          forall m | m in MarkSet(u.tree)
            ensures m in marks
          {
            MarkSetsMember(head.tree.kids, m);
          }
        }
      }
      WeightDrops(queue);
      AncestorsInTree(marks, queue[1..] + KidVisits(head));
    }
  }

  lemma {:induction false} NearestIsAncestor(above: seq<Step<nat>>)
    requires NearestSelect(above).Some?
    ensures exists s :: s in above && s.mark == NearestSelect(above).value
  {
    var last := above[|above| - 1];
    if last.tag.SelectTag? {
      assert last in above;
    } else {
      NearestIsAncestor(above[..|above| - 1]);
    }
  }

  /** What the cells say about a visited node and its nearest SELECT. */
  lemma {:induction false} VisitInCells(cells: seq<Cell>, t: Tree<nat>, v: Visit<nat>)
    requires Represents(cells, t, None) && v in Nodes(t)
    ensures v.tree.mark < |cells| && cells[v.tree.mark].tag == v.tree.tag
    ensures NearestSelect(v.above).Some? ==> NearestSelect(v.above).value in MarkSet(t)
  {
    WalkPlaced(cells, [Visit(t, [])]);
    AncestorsInTree(MarkSet(t), [Visit(t, [])]);
    assert Placed(cells, v);
    if NearestSelect(v.above).Some? {
      NearestIsAncestor(v.above);
    }
  }

  /** A new limit at the root leaves everything below in place. */
  lemma RootLimited(cells: seq<Cell>, t: Tree<nat>, limit: Limit)
    requires Represents(cells, t, None) && Separate(t) && Shaped(t) && LimitOf(t.tag).Some?
    ensures var t' := t.(tag := WithLimit(t.tag, limit));
      && Represents(cells[t.mark := cells[t.mark].(tag := t'.tag)], t', None) && Separate(t') && Shaped(t')
  {
    var t' := t.(tag := WithLimit(t.tag, limit));
    var cells' := cells[t.mark := cells[t.mark].(tag := t'.tag)];
    forall i | 0 <= i < |t.kids|
      ensures Represents(cells', t.kids[i], Some(t.mark))
    {
      forall m | m in MarkSet(t.kids[i]) && m < |cells|
        ensures cells'[m] == cells[m]
      {
        KidsApart(t, i, m);
      }
      Unaffected(cells, cells', t.kids[i], Some(t.mark));
    }
  }

  // ----- the expression object -----

  /** A statement in memory: nodes by identity, with links both ways. */
  class Expression {
    var cells: seq<Cell>
    var root: nat
    ghost var tree: Tree<nat>

    ghost predicate Valid()
      reads this
    {
      && tree.mark == root && Represents(cells, tree, None)
      && Separate(tree) && Shaped(tree)
    }

    /** A deep copy. */
    constructor Copy(other: Expression)
      requires other.Valid()
      ensures Valid() && tree == other.tree && cells == other.cells
    {
      cells := other.cells;
      root := other.root;
      tree := other.tree;
    }

    /** All nodes, breadth first (`find_all`). */
    method Walk() returns (order: seq<nat>)
      requires Valid()
      ensures order == VisitMarks(Nodes(tree))
    {
      order := [];
      var queue := [root];
      ghost var pending := [Visit(tree, [])];
      ghost var done: seq<Visit<nat>> := [];
      while |queue| != 0
        invariant queue == VisitMarks(pending) && order == VisitMarks(done)
        invariant forall v :: v in pending ==> Placed(cells, v)
        invariant Nodes(tree) == done + StatementTree.Walk(pending)
        decreases Weight(pending)
      {
        var node := queue[0];
        ghost var v := pending[0];
        assert v in pending;
        WalkTurn(done, pending);
        QueueTurn(cells, done, pending);
        PlacedTurn(cells, pending);
        order := order + [node];
        queue := queue[1..] + cells[node].kids;
        done := done + [v];
        pending := pending[1..] + KidVisits(v);
      }
    }

    /** Climb the parent links to the nearest enclosing SELECT. */
    method FindSelect(node: nat, ghost v: Visit<nat>) returns (scope: Option<nat>)
      requires Valid() && v in Nodes(tree) && node == v.tree.mark
      ensures scope == NearestSelect(v.above)
      ensures scope.Some? ==> scope.value < |cells| && cells[scope.value].tag.SelectTag?
    {
      WalkPlaced(cells, [Visit(tree, [])]);
      assert Placed(cells, v);
      ghost var k := |v.above|;
      assert v.above[..k] == v.above;
      scope := cells[node].parent;
      while scope.Some? && !cells[scope.value].tag.SelectTag?
        invariant 0 <= k <= |v.above| && scope == Above(v.above[..k]) && (k > 0 ==> LinkAt(cells, v.above, k - 1))
        invariant NearestSelect(v.above) == NearestSelect(v.above[..k])
        decreases k
      {
        assert v.above[..k][..k - 1] == v.above[..k - 1];
        scope := cells[scope.value].parent;
        k := k - 1;
      }
    }

    /** `scope.where(predicate, append=True, copy=False)`. */
    method Where(scope: nat, qualifier: string, column: string, tenant: Value)
      requires Valid() && scope in MarkSet(tree) && scope < |cells| && cells[scope].tag.SelectTag?
      modifies this
      ensures Valid() && root == old(root)
      ensures tree == Place(old(tree), Addition(scope, PredicateTree(old(|cells|), qualifier, column, tenant),
                                                old(|cells|) + 3))
      ensures Extends(old(cells), old(tree), cells, tree)
    {
      var next := Grow(scope, qualifier, column, tenant);
      tree := Place(tree, Addition(scope, PredicateTree(|cells|, qualifier, column, tenant), |cells| + 3));
      cells := next;
    }

    /** The cells with one more condition required by a SELECT. */
    method Grow(scope: nat, qualifier: string, column: string, tenant: Value) returns (next: seq<Cell>)
      requires Valid() && scope in MarkSet(tree) && scope < |cells| && cells[scope].tag.SelectTag?
      ensures Grown(cells, tree, next, Place(tree, Addition(scope, PredicateTree(|cells|, qualifier, column, tenant),
                                                            |cells| + 3)))
    {
      ReadyInTree(cells, tree, None, scope);
      next := Append(cells[scope].kids[0], qualifier, column, tenant);
      WhereKeepsValid(cells, next, tree, scope, qualifier, column, tenant);
    }

    /** The cells with one more condition under a WHERE holder. */
    method Append(holder: nat, qualifier: string, column: string, tenant: Value) returns (next: seq<Cell>)
      requires holder < |cells| && forall k :: k in cells[holder].kids ==> k < |cells| && k != holder
      ensures Appended(cells, next, holder, qualifier, column, tenant)
    {
      var n := |cells|;
      next := cells;
      if |cells[holder].kids| == 0 {
        next := next[holder := next[holder].(kids := [n])] + PredicateCells(n, qualifier, column, tenant, holder);
        FilledAppended(cells, next, holder, qualifier, column, tenant);
      } else {
        var first := next[holder].kids[0];
        assert first in next[holder].kids;
        next := next[holder := next[holder].(kids := [n + 3])][first := next[first].(parent := Some(n + 3))]
                + PredicateCells(n, qualifier, column, tenant, n + 3)
                + [Cell(AndTag, false, [first, n], Some(holder))];
        ConjoinedAppended(cells, next, holder, first, qualifier, column, tenant);
      }
    }

    /** `expr.limit(n, copy=False)`: the root query gets a literal limit. */
    method SetLimit(n: nat)
      requires Valid() && LimitOf(tree.tag).Some?
      modifies this
      ensures Valid() && tree == old(tree).(tag := WithLimit(old(tree).tag, LiteralLimit(n)))
    {
      RootLimited(cells, tree, LiteralLimit(n));
      cells := cells[root := cells[root].(tag := WithLimit(cells[root].tag, LiteralLimit(n)))];
      tree := tree.(tag := WithLimit(tree.tag, LiteralLimit(n)));
    }

    /** The statement a node stands for, read out of memory. */
    method Read(node: nat, ghost t: Tree<nat>, ghost parent: Option<nat>) returns (s: Statement)
      requires Represents(cells, t, parent) && t.mark == node
      ensures s == Strip(t)
      decreases t
    {
      var kids: seq<Statement> := [];
      for i := 0 to |cells[node].kids|
        invariant |kids| == i && forall k :: 0 <= k < i ==> kids[k] == Strip(t.kids[k])
      {
        var kid := Read(cells[node].kids[i], t.kids[i], Some(t.mark));
        kids := kids + [kid];
      }
      s := Node((), cells[node].tag, cells[node].commented, kids);
      assert kids == StripAll(t.kids);
    }

    method ReadAll() returns (s: Statement)
      requires Valid()
      ensures s == Strip(tree)
    {
      s := Read(root, tree, None);
    }
  }
}
