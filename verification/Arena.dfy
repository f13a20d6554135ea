/** Statement trees in memory, with parent links, and the rewriter that works on them in place. */
module Arena {
  import opened Collections
  import opened Values
  import opened StatementTree
  import opened TreeRewrite
  import opened Targets
  import opened Placement

  /** One node: its children by identity, and the link to its parent. */
  datatype Cell = Cell(tag: Tag, commented: bool, kids: seq<nat>, parent: Option<nat>)

  function Roots(ts: seq<Tree<nat>>): (r: seq<nat>)
    ensures |r| == |ts|
    ensures forall i :: 0 <= i < |ts| ==> r[i] == ts[i].mark
  {
    seq(|ts|, i requires 0 <= i < |ts| => ts[i].mark)
  }

  /** The cells hold `t`, child links and parent links alike. */
  ghost predicate Represents(cells: seq<Cell>, t: Tree<nat>, parent: Option<nat>) {
    && t.mark < |cells|
    && cells[t.mark] == Cell(t.tag, t.commented, Roots(t.kids), parent)
    && forall i :: 0 <= i < |t.kids| ==> Represents(cells, t.kids[i], Some(t.mark))
  }

  lemma {:induction false} MarksAllocated(cells: seq<Cell>, t: Tree<nat>, parent: Option<nat>, m: nat)
    requires Represents(cells, t, parent) && m in MarkSet(t)
    ensures m < |cells| && forall k :: k in cells[m].kids ==> k in MarkSet(t)
  {
    MarkSetsMember(t.kids, m);
    if m == t.mark {
      forall k | k in cells[m].kids
        ensures k in MarkSet(t)
      {
        var i :| 0 <= i < |t.kids| && t.kids[i].mark == k;
        MarkSetsMember(t.kids, k);
        assert k in MarkSet(t.kids[i]);
      }
    } else {
      var i :| 0 <= i < |t.kids| && m in MarkSet(t.kids[i]);
      MarksAllocated(cells, t.kids[i], Some(t.mark), m);
      forall k | k in cells[m].kids
        ensures k in MarkSet(t)
      {
        MarkSetsMember(t.kids, k);
      }
    }
  }

  /** Cells outside the tree's identities do not matter to it. */
  lemma {:induction false} Unaffected(cells: seq<Cell>, cells': seq<Cell>, t: Tree<nat>, parent: Option<nat>)
    requires Represents(cells, t, parent) && |cells| <= |cells'|
    requires forall m :: m in MarkSet(t) && m < |cells| ==> cells'[m] == cells[m]
    ensures Represents(cells', t, parent)
  {
    forall i | 0 <= i < |t.kids|
      ensures Represents(cells', t.kids[i], Some(t.mark))
    {
      forall m | m in MarkSet(t.kids[i])
        ensures m in MarkSet(t)
      {
        MarkSetsMember(t.kids, m);
      }
      Unaffected(cells, cells', t.kids[i], Some(t.mark));
    }
  }

  // ----- visits, in memory -----

  /** Where the walk is: the node, and the chain of its ancestors up to the root. */
  ghost predicate Placed(cells: seq<Cell>, v: Visit<nat>) {
    Represents(cells, v.tree, Above(v.above)) && Linked(cells, v.above)
  }

  ghost predicate Linked(cells: seq<Cell>, above: seq<Step<nat>>) {
    forall i :: 0 <= i < |above| ==> LinkAt(cells, above, i)
  }

  ghost predicate LinkAt(cells: seq<Cell>, above: seq<Step<nat>>, i: nat)
    requires i < |above|
  {
    && above[i].mark < |cells|
    && cells[above[i].mark].tag == above[i].tag
    && cells[above[i].mark].parent == Above(above[..i])
  }

  function Above(above: seq<Step<nat>>): Option<nat> {
    if |above| == 0 then None else Some(above[|above| - 1].mark)
  }

  lemma LinkedSnoc(cells: seq<Cell>, above: seq<Step<nat>>, step: Step<nat>)
    requires Linked(cells, above) && step.mark < |cells|
    requires cells[step.mark].tag == step.tag && cells[step.mark].parent == Above(above)
    ensures Linked(cells, above + [step])
  {
    var longer := above + [step];
    forall i | 0 <= i < |longer|
      ensures LinkAt(cells, longer, i)
    {
      assert longer[..i] == above[..i];
      if i < |above| {
        assert LinkAt(cells, above, i);
      } else {
        assert above[..i] == above;
      }
    }
  }

  lemma {:induction false} KidPlaced(cells: seq<Cell>, v: Visit<nat>, k: nat)
    requires Placed(cells, v) && k < |v.tree.kids|
    ensures Placed(cells, KidVisits(v)[k])
  {
    LinkedSnoc(cells, v.above, Step(v.tree.mark, v.tree.tag));
  }

  lemma KidsPlaced(cells: seq<Cell>, v: Visit<nat>)
    requires Placed(cells, v)
    ensures forall u :: u in KidVisits(v) ==> Placed(cells, u)
  {
    forall u | u in KidVisits(v)
      ensures Placed(cells, u)
    {
      var k :| 0 <= k < |KidVisits(v)| && KidVisits(v)[k] == u;
      KidPlaced(cells, v, k);
    }
  }

  lemma {:induction false} WalkPlaced(cells: seq<Cell>, queue: seq<Visit<nat>>)
    requires forall v :: v in queue ==> Placed(cells, v)
    ensures forall v :: v in Walk(queue) ==> Placed(cells, v)
    decreases Weight(queue)
  {
    if |queue| != 0 {
      assert queue[0] in queue;
      KidsPlaced(cells, queue[0]);
      WeightDrops(queue);
      WalkPlaced(cells, queue[1..] + KidVisits(queue[0]));
    }
  }

  function VisitMarks(vs: seq<Visit<nat>>): (r: seq<nat>)
    ensures |r| == |vs|
    ensures forall i :: 0 <= i < |vs| ==> r[i] == vs[i].tree.mark
  {
    seq(|vs|, i requires 0 <= i < |vs| => vs[i].tree.mark)
  }

  // ----- one update -----

  function PredicateCells(n: nat, qualifier: string, column: string, tenant: Value, parent: nat): seq<Cell> {
    [Cell(EqualsTag, false, [n + 1, n + 2], Some(parent)),
     Cell(ColumnTag(qualifier, column), false, [], Some(n)),
     Cell(LiteralTag(tenant), false, [], Some(n))]
  }

  function PredicateTree(n: nat, qualifier: string, column: string, tenant: Value): Tree<nat> {
    Node(n, EqualsTag, false,
         [Node(n + 1, ColumnTag(qualifier, column), false, []), Node(n + 2, LiteralTag(tenant), false, [])])
  }

  /** Besides a holder and its children all cells are as they were. */
  ghost predicate Framed(cells: seq<Cell>, cells': seq<Cell>, holder: nat)
    requires holder < |cells|
  {
    && |cells| <= |cells'|
    && forall m :: 0 <= m < |cells| && m != holder && m !in cells[holder].kids ==> cells'[m] == cells[m]
  }

  ghost predicate SameTags(cells: seq<Cell>, cells': seq<Cell>) {
    |cells| <= |cells'| && forall m :: 0 <= m < |cells| ==> cells'[m].tag == cells[m].tag
  }

  /** One more condition was put into an empty holder. */
  ghost predicate Filled(cells: seq<Cell>, cells': seq<Cell>, holder: nat, qualifier: string, column: string,
                         tenant: Value)
    requires holder < |cells|
  {
    var n := |cells|;
    && |cells'| == n + 3 && cells'[holder] == cells[holder].(kids := [n])
    && cells'[n..n + 3] == PredicateCells(n, qualifier, column, tenant, holder)
  }

  /** The condition of a holder became the first half of a conjunction. */
  ghost predicate Conjoined(cells: seq<Cell>, cells': seq<Cell>, holder: nat, first: nat, qualifier: string,
                            column: string, tenant: Value)
    requires holder < |cells| && first < |cells|
  {
    var n := |cells|;
    && |cells'| == n + 4 && cells'[holder] == cells[holder].(kids := [n + 3])
    && cells'[first] == cells[first].(parent := Some(n + 3))
    && cells'[n..n + 3] == PredicateCells(n, qualifier, column, tenant, n + 3)
    && cells'[n + 3] == Cell(AndTag, false, [first, n], Some(holder))
  }

  /** What the cells are after a condition was appended to a SELECT's WHERE holder. */
  ghost predicate Appended(cells: seq<Cell>, cells': seq<Cell>, holder: nat, qualifier: string, column: string,
                           tenant: Value)
    requires holder < |cells| && forall k :: k in cells[holder].kids ==> k < |cells| && k != holder
  {
    && Framed(cells, cells', holder) && SameTags(cells, cells')
    && if |cells[holder].kids| == 0 then Filled(cells, cells', holder, qualifier, column, tenant)
       else
         assert cells[holder].kids[0] in cells[holder].kids;
         Conjoined(cells, cells', holder, cells[holder].kids[0], qualifier, column, tenant)
  }

  /** The two ways an append writes the cells. */
  lemma FilledAppended(cells: seq<Cell>, cells': seq<Cell>, holder: nat, qualifier: string, column: string,
                       tenant: Value)
    requires holder < |cells| && cells[holder].kids == []
    requires cells' == cells[holder := cells[holder].(kids := [|cells|])]
                       + PredicateCells(|cells|, qualifier, column, tenant, holder)
    ensures Appended(cells, cells', holder, qualifier, column, tenant)
  {
    assert cells'[|cells|..|cells| + 3] == PredicateCells(|cells|, qualifier, column, tenant, holder);
  }

  lemma ConjoinedAppended(cells: seq<Cell>, cells': seq<Cell>, holder: nat, first: nat, qualifier: string,
                          column: string, tenant: Value)
    requires holder < |cells| && forall k :: k in cells[holder].kids ==> k < |cells| && k != holder
    requires |cells[holder].kids| != 0 && first == cells[holder].kids[0] && first in cells[holder].kids
    requires var n := |cells|;
      cells' == cells[holder := cells[holder].(kids := [n + 3])][first := cells[first].(parent := Some(n + 3))]
                + PredicateCells(n, qualifier, column, tenant, n + 3) + [Cell(AndTag, false, [first, n], Some(holder))]
    ensures Appended(cells, cells', holder, qualifier, column, tenant)
  {
    assert cells'[|cells|..|cells| + 3] == PredicateCells(|cells|, qualifier, column, tenant, |cells| + 3);
  }

  lemma {:induction false} PredicateRepresented(cells: seq<Cell>, n: nat, qualifier: string, column: string,
                                                tenant: Value, parent: nat)
    requires n + 3 <= |cells| && cells[n..n + 3] == PredicateCells(n, qualifier, column, tenant, parent)
    ensures Represents(cells, PredicateTree(n, qualifier, column, tenant), Some(parent))
  {
    var added := cells[n..n + 3];
    assert cells[n] == added[0] && cells[n + 1] == added[1] && cells[n + 2] == added[2];
    var t := PredicateTree(n, qualifier, column, tenant);
    assert Roots(t.kids) == [n + 1, n + 2];
    assert Represents(cells, t.kids[0], Some(n)) && Represents(cells, t.kids[1], Some(n));
  }

  /** A node whose cell lists its children, all of them in place. */
  lemma {:induction false} Assembled(cells: seq<Cell>, t: Tree<nat>, parent: Option<nat>)
    requires t.mark < |cells| && cells[t.mark] == Cell(t.tag, t.commented, Roots(t.kids), parent)
    requires forall i :: 0 <= i < |t.kids| ==> Represents(cells, t.kids[i], Some(t.mark))
    ensures Represents(cells, t, parent)
  {
  }

  /** The WHERE holder of the SELECT itself, when it was empty and when it held a condition. */
  lemma {:induction false} HolderFilled(cells: seq<Cell>, cells': seq<Cell>, holder: Tree<nat>, scope: nat,
                                        qualifier: string, column: string, tenant: Value)
    requires Represents(cells, holder, Some(scope)) && |holder.kids| == 0
    requires Filled(cells, cells', holder.mark, qualifier, column, tenant)
    ensures Represents(cells', holder.(kids := [PredicateTree(|cells|, qualifier, column, tenant)]), Some(scope))
  {
    var p := PredicateTree(|cells|, qualifier, column, tenant);
    PredicateRepresented(cells', |cells|, qualifier, column, tenant, holder.mark);
    assert Roots([p]) == [|cells|];
    Assembled(cells', holder.(kids := [p]), Some(scope));
  }

  lemma {:induction false} HolderConjoined(cells: seq<Cell>, cells': seq<Cell>, holder: Tree<nat>, scope: nat,
                                           qualifier: string, column: string, tenant: Value)
    requires Represents(cells, holder, Some(scope)) && Separate(holder) && |holder.kids| == 1
    requires Framed(cells, cells', holder.mark) && holder.kids[0].mark < |cells|
    requires Conjoined(cells, cells', holder.mark, holder.kids[0].mark, qualifier, column, tenant)
    ensures var n := |cells|;
      var p := PredicateTree(n, qualifier, column, tenant);
      Represents(cells', holder.(kids := [Node(n + 3, AndTag, false, [holder.kids[0], p])]), Some(scope))
  {
    var n := |cells|;
    var first, p := holder.kids[0], PredicateTree(n, qualifier, column, tenant);
    var both := Node(n + 3, AndTag, false, [first, p]);
    assert cells[holder.mark].kids == [first.mark];
    PredicateRepresented(cells', n, qualifier, column, tenant, n + 3);
    FirstReparented(cells, cells', holder, n + 3);
    assert Roots(both.kids) == [first.mark, n] && Roots([both]) == [n + 3];
    Assembled(cells', both, Some(holder.mark));
    Assembled(cells', holder.(kids := [both]), Some(scope));
  }

  lemma {:induction false} HolderAppended(cells: seq<Cell>, cells': seq<Cell>, holder: Tree<nat>, scope: nat,
                                          qualifier: string, column: string, tenant: Value)
    requires Represents(cells, holder, Some(scope)) && Separate(holder) && |holder.kids| <= 1
    requires forall k :: k in cells[holder.mark].kids ==> k < |cells| && k != holder.mark
    requires Appended(cells, cells', holder.mark, qualifier, column, tenant)
    ensures Represents(cells', Attach(holder, PredicateTree(|cells|, qualifier, column, tenant), |cells| + 3),
                       Some(scope))
  {
    if |holder.kids| == 0 {
      HolderFilled(cells, cells', holder, scope, qualifier, column, tenant);
    } else {
      HolderConjoined(cells, cells', holder, scope, qualifier, column, tenant);
    }
  }

  /** The old condition only gets a new parent. */
  lemma {:induction false} FirstReparented(cells: seq<Cell>, cells': seq<Cell>, holder: Tree<nat>, joint: nat)
    requires |holder.kids| == 1 && Separate(holder) && Represents(cells, holder.kids[0], Some(holder.mark))
    requires |cells| <= |cells'|
    requires forall m :: 0 <= m < |cells| && m != holder.mark && m != holder.kids[0].mark ==> cells'[m] == cells[m]
    requires cells'[holder.kids[0].mark] == cells[holder.kids[0].mark].(parent := Some(joint))
    ensures Represents(cells', holder.kids[0], Some(joint))
  {
    var first := holder.kids[0];
    forall i | 0 <= i < |first.kids|
      ensures Represents(cells', first.kids[i], Some(first.mark))
    {
      forall m | m in MarkSet(first.kids[i]) && m < |cells|
        ensures cells'[m] == cells[m]
      {
        MarkSetsMember(first.kids, m);
        MarkSetsMember(holder.kids, m);
      }
      Unaffected(cells, cells', first.kids[i], Some(first.mark));
    }
  }

  lemma {:induction false} KidsApart(t: Tree<nat>, k: nat, m: nat)
    requires Separate(t) && k < |t.kids| && m in MarkSet(t.kids[k])
    ensures m != t.mark && m in MarkSet(t)
    ensures forall i :: 0 <= i < |t.kids| && i != k ==> m !in MarkSet(t.kids[i])
  {
    MarkSetsMember(t.kids, m);
  }

  /** What one update needs to know about the SELECT it changes. */
  ghost predicate Ready(cells: seq<Cell>, scope: nat) {
    && scope < |cells| && |cells[scope].kids| != 0 && cells[scope].kids[0] < |cells|
    && cells[scope].kids[0] != scope
    && (forall k :: k in cells[cells[scope].kids[0]].kids ==> k < |cells| && k != cells[scope].kids[0] && k != scope)
  }

  /** A tree the update does not touch. */
  lemma {:induction false} OutsideFramed(cells: seq<Cell>, cells': seq<Cell>, t: Tree<nat>, parent: Option<nat>,
                                         holder: nat)
    requires holder < |cells| && Framed(cells, cells', holder) && Represents(cells, t, parent)
    requires holder !in MarkSet(t) && forall k :: k in cells[holder].kids ==> k !in MarkSet(t)
    ensures Represents(cells', t, parent)
  {
    Unaffected(cells, cells', t, parent);
  }

  /** The WHERE holder of a SELECT below `t`. */
  ghost function HolderOf(t: Tree<nat>, scope: nat): Tree<nat>
    requires scope in MarkSet(t)
    decreases t
  {
    if t.mark == scope then if |t.kids| == 0 then t else t.kids[0]
    else HolderOf(t.kids[KidWith(t, scope)], scope)
  }

  lemma {:induction false} HolderRepresented(cells: seq<Cell>, t: Tree<nat>, parent: Option<nat>, scope: nat)
    requires Represents(cells, t, parent) && Separate(t) && Shaped(t)
    requires scope in MarkSet(t) && scope < |cells| && cells[scope].tag.SelectTag? && |cells[scope].kids| != 0
    ensures var h := HolderOf(t, scope);
      && Represents(cells, h, Some(scope)) && Separate(h) && |h.kids| <= 1 && h.mark == cells[scope].kids[0]
    decreases t
  {
    if t.mark == scope {
      assert Roots(t.kids)[0] == cells[scope].kids[0];
    } else {
      var k := KidWith(t, scope);
      HolderRepresented(cells, t.kids[k], Some(t.mark), scope);
    }
  }

  /** An update of one holder, seen from the whole tree. */
  lemma {:induction false} UpdateIsPlaced(cells: seq<Cell>, cells': seq<Cell>, t: Tree<nat>, parent: Option<nat>,
                                          scope: nat, condition: Tree<nat>, joint: nat)
    requires Represents(cells, t, parent) && Separate(t) && Shaped(t)
    requires Ready(cells, scope) && scope in MarkSet(t) && cells[scope].tag.SelectTag?
    requires Framed(cells, cells', cells[scope].kids[0])
    requires Represents(cells', Attach(HolderOf(t, scope), condition, joint), Some(scope))
    ensures Represents(cells', Place(t, Addition(scope, condition, joint)), parent)
    decreases t
  {
    var a := Addition(scope, condition, joint);
    if t.mark == scope {
      assert Roots(t.kids)[0] == cells[scope].kids[0];
      PlaceOutsideKid(t, 0, a);
      AppendedAbove(cells, cells', t, parent, scope, 0, a);
    } else {
      var k := KidWith(t, scope);
      MarksAllocated(cells, t.kids[k], Some(t.mark), scope);
      assert cells[scope].kids[0] in cells[scope].kids;
      UpdateIsPlaced(cells, cells', t.kids[k], Some(t.mark), scope, condition, joint);
      AppendedAbove(cells, cells', t, parent, scope, k, a);
    }
  }

  /** The in-place update is `Place`. */
  lemma {:induction false} AppendedIsPlaced(cells: seq<Cell>, cells': seq<Cell>, t: Tree<nat>, parent: Option<nat>,
                                            scope: nat, qualifier: string, column: string, tenant: Value)
    requires Represents(cells, t, parent) && Separate(t) && Shaped(t)
    requires Ready(cells, scope) && scope in MarkSet(t) && cells[scope].tag.SelectTag?
    requires Appended(cells, cells', cells[scope].kids[0], qualifier, column, tenant)
    ensures var n := |cells|;
      Represents(cells', Place(t, Addition(scope, PredicateTree(n, qualifier, column, tenant), n + 3)), parent)
  {
    HolderRepresented(cells, t, parent, scope);
    HolderAppended(cells, cells', HolderOf(t, scope), scope, qualifier, column, tenant);
    UpdateIsPlaced(cells, cells', t, parent, scope, PredicateTree(|cells|, qualifier, column, tenant), |cells| + 3);
  }

  function ChangedKid(t: Tree<nat>, k: nat, a: Addition): Tree<nat>
    requires k < |t.kids|
  {
    if a.scope == t.mark then Attach(Place(t.kids[k], a), a.condition, a.joint) else Place(t.kids[k], a)
  }

  lemma {:induction false} PlaceKeepsMark(t: Tree<nat>, a: Addition)
    ensures Place(t, a).mark == t.mark
  {
  }

  /** The step from the changed child to its parent node. */
  lemma {:induction false} AppendedAbove(cells: seq<Cell>, cells': seq<Cell>, t: Tree<nat>, parent: Option<nat>,
                                         scope: nat, k: nat, a: Addition)
    requires Represents(cells, t, parent) && Separate(t) && Ready(cells, scope) && cells[scope].tag.SelectTag?
    requires a.scope == scope && Framed(cells, cells', cells[scope].kids[0])
    requires k < |t.kids| && cells[scope].kids[0] in MarkSet(t.kids[k])
    requires if scope == t.mark then k == 0 else scope in MarkSet(t.kids[k])
    requires Represents(cells', ChangedKid(t, k, a), Some(t.mark))
    ensures Represents(cells', Place(t, a), parent)
  {
    var holder := cells[scope].kids[0];
    var kids' := PlaceIn(t.kids, a)[k := ChangedKid(t, k, a)];
    PlaceKeepsMark(t.kids[k], a);
    CellKept(cells, cells', t, parent, holder, k);
    MarksAllocated(cells, t.kids[k], Some(t.mark), holder);
    forall i | 0 <= i < |kids'|
      ensures kids'[i].mark == t.kids[i].mark && Represents(cells', kids'[i], Some(t.mark))
    {
      if i != k {
        UntouchedKid(cells, cells', t, parent, holder, k, i, a);
      }
    }
    Reassemble(cells', t, kids', parent);
    PlaceAbove(t, a, k);
  }

  /** The node above: one child changed, the others are as they were. */
  lemma {:induction false} PlaceAbove(t: Tree<nat>, a: Addition, k: nat)
    requires k < |t.kids| && if a.scope == t.mark then k == 0 && t.tag.SelectTag? else true
    ensures Place(t, a) == t.(kids := PlaceIn(t.kids, a)[k := ChangedKid(t, k, a)])
  {
  }

  lemma {:induction false} CellKept(cells: seq<Cell>, cells': seq<Cell>, t: Tree<nat>, parent: Option<nat>,
                                    holder: nat, k: nat)
    requires Represents(cells, t, parent) && Separate(t) && holder < |cells| && Framed(cells, cells', holder)
    requires k < |t.kids| && holder in MarkSet(t.kids[k])
    ensures cells'[t.mark] == cells[t.mark]
  {
    MarksAllocated(cells, t.kids[k], Some(t.mark), holder);
    KidsApart(t, k, holder);
    if t.mark in cells[holder].kids {
      KidsApart(t, k, t.mark);
    }
  }

  lemma {:induction false} Reassemble(cells: seq<Cell>, t: Tree<nat>, kids: seq<Tree<nat>>, parent: Option<nat>)
    requires t.mark < |cells| && cells[t.mark] == Cell(t.tag, t.commented, Roots(t.kids), parent)
    requires |kids| == |t.kids| && forall i :: 0 <= i < |kids| ==> kids[i].mark == t.kids[i].mark
    requires forall i :: 0 <= i < |kids| ==> Represents(cells, kids[i], Some(t.mark))
    ensures Represents(cells, t.(kids := kids), parent)
  {
    assert Roots(kids) == Roots(t.kids);
  }

  lemma {:induction false} PlaceOutsideKid(t: Tree<nat>, k: nat, a: Addition)
    requires Separate(t) && k < |t.kids| && a.scope == t.mark
    ensures Place(t.kids[k], a) == t.kids[k]
  {
    MarkSetsMember(t.kids, a.scope);
    PlaceOutside(t.kids[k], a);
  }

  ghost function KidWith(t: Tree<nat>, m: nat): (k: nat)
    requires m in MarkSet(t) && m != t.mark
    ensures k < |t.kids| && m in MarkSet(t.kids[k])
  {
    MarkSetsMember(t.kids, m);
    var k :| 0 <= k < |t.kids| && m in MarkSet(t.kids[k]);
    k
  }

  lemma {:induction false} PlaceOutside(t: Tree<nat>, a: Addition)
    requires a.scope !in MarkSet(t)
    ensures Place(t, a) == t
  {
    forall i | 0 <= i < |t.kids|
      ensures Place(t.kids[i], a) == t.kids[i]
    {
      MarkSetsMember(t.kids, a.scope);
      PlaceOutside(t.kids[i], a);
    }
    assert PlaceIn(t.kids, a) == t.kids;
  }

  lemma {:induction false} UntouchedKid(cells: seq<Cell>, cells': seq<Cell>, t: Tree<nat>, parent: Option<nat>,
                                        holder: nat, k: nat, i: nat, a: Addition)
    requires Represents(cells, t, parent) && Separate(t) && holder < |cells| && Framed(cells, cells', holder)
    requires k < |t.kids| && holder in MarkSet(t.kids[k])
    requires a.scope == t.mark || a.scope in MarkSet(t.kids[k])
    requires forall m :: m in cells[holder].kids ==> m in MarkSet(t.kids[k])
    requires i < |t.kids| && i != k
    ensures Place(t.kids[i], a) == t.kids[i]
    ensures Represents(cells', t.kids[i], Some(t.mark))
  {
    MarkSetsMember(t.kids, a.scope);
    assert MarkSet(t.kids[i]) !! MarkSet(t.kids[k]);
    PlaceOutside(t.kids[i], a);
    OutsideFramed(cells, cells', t.kids[i], Some(t.mark), holder);
  }
}
