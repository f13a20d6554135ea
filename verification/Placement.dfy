/** Adding conditions one at a time, wherever their SELECT is, amounts to the structural rewrite. */
module Placement {
  import opened Syntax
  import opened StatementTree
  import opened Encoding
  import opened TenantRewrite
  import opened TreeRewrite
  import opened Targets

  /** A condition to be added to the SELECT `scope`, with the identity its AND node would take. */
  datatype Addition = Addition(scope: nat, condition: Tree<nat>, joint: nat)

  /** One in-place update: the SELECT with identity `a.scope` gets one more condition. */
  function Place(t: Tree<nat>, a: Addition): Tree<nat> {
    var kids := PlaceIn(t.kids, a);
    if t.mark == a.scope && t.tag.SelectTag? && |kids| != 0
    then t.(kids := kids[0 := Attach(kids[0], a.condition, a.joint)])
    else t.(kids := kids)
  }

  function PlaceIn(ts: seq<Tree<nat>>, a: Addition): (r: seq<Tree<nat>>)
    ensures |r| == |ts|
    ensures forall i :: 0 <= i < |ts| ==> r[i] == Place(ts[i], a)
  {
    if |ts| == 0 then [] else [Place(ts[0], a)] + PlaceIn(ts[1..], a)
  }

  function PlaceEach(t: Tree<nat>, additions: seq<Addition>): Tree<nat> {
    if |additions| == 0 then t
    else Place(PlaceEach(t, additions[..|additions| - 1]), additions[|additions| - 1])
  }

  function PlaceEachIn(ts: seq<Tree<nat>>, additions: seq<Addition>): (r: seq<Tree<nat>>)
    ensures |r| == |ts|
    ensures forall i :: 0 <= i < |ts| ==> r[i] == PlaceEach(ts[i], additions)
  {
    seq(|ts|, i requires 0 <= i < |ts| => PlaceEach(ts[i], additions))
  }

  /** A WHERE holder after the additions meant for its SELECT. */
  function AttachEach(holder: Tree<nat>, scope: nat, additions: seq<Addition>): Tree<nat> {
    if |additions| == 0 then holder
    else
      var grown := AttachEach(holder, scope, additions[..|additions| - 1]);
      var last := additions[|additions| - 1];
      if last.scope == scope then Attach(grown, last.condition, last.joint) else grown
  }

  // ----- the shape every statement has -----

  /** Every SELECT starts with a WHERE holder of at most one condition. */
  ghost predicate Shaped<A(!new)>(t: Tree<A>) {
    && (t.tag.SelectTag? ==> |t.kids| != 0 && t.kids[0].tag == WhereTag && |t.kids[0].kids| <= 1)
    && forall i :: 0 <= i < |t.kids| ==> Shaped(t.kids[i])
  }

  ghost predicate NoSelect(t: Tree<nat>) {
    !t.tag.SelectTag? && forall i :: 0 <= i < |t.kids| ==> NoSelect(t.kids[i])
  }

  lemma {:induction false} PlaceInNoSelect(t: Tree<nat>, a: Addition)
    requires NoSelect(t)
    ensures Place(t, a) == t
  {
    forall i | 0 <= i < |t.kids|
      ensures Place(t.kids[i], a) == t.kids[i]
    {
      PlaceInNoSelect(t.kids[i], a);
    }
    assert PlaceIn(t.kids, a) == t.kids;
  }

  /** Adding elsewhere and adding here commute. */
  lemma {:induction false} PlaceAttach(holder: Tree<nat>, condition: Tree<nat>, joint: nat, a: Addition)
    requires !holder.tag.SelectTag? && NoSelect(condition)
    ensures Place(Attach(holder, condition, joint), a) == Attach(Place(holder, a), condition, joint)
  {
    PlaceInNoSelect(condition, a);
    if |holder.kids| == 0 {
      assert PlaceIn([condition], a) == [condition];
    } else {
      var both := Node(joint, AndTag, false, [holder.kids[0], condition]);
      assert PlaceIn(both.kids, a) == [Place(holder.kids[0], a), condition];
      assert Place(both, a) == both.(kids := PlaceIn(both.kids, a));
      assert PlaceIn([both], a) == [Place(both, a)];
      assert Place(holder.(kids := [both]), a) == holder.(kids := PlaceIn([both], a));
    }
  }

  lemma {:induction false} PlaceAttachEach(holder: Tree<nat>, scope: nat, additions: seq<Addition>, a: Addition)
    requires !holder.tag.SelectTag?
    requires forall x :: x in additions ==> NoSelect(x.condition)
    ensures Place(AttachEach(holder, scope, additions), a) == AttachEach(Place(holder, a), scope, additions)
    ensures AttachEach(holder, scope, additions).tag == holder.tag
  {
    if |additions| != 0 {
      var before, last := additions[..|additions| - 1], additions[|additions| - 1];
      PlaceAttachEach(holder, scope, before, a);
      assert last in additions;
      if last.scope == scope {
        PlaceAttach(AttachEach(holder, scope, before), last.condition, last.joint, a);
      }
    }
  }

  lemma {:induction false} PlaceEachKeepsTag(t: Tree<nat>, additions: seq<Addition>)
    ensures PlaceEach(t, additions).tag == t.tag && PlaceEach(t, additions).mark == t.mark
    ensures |PlaceEach(t, additions).kids| == |t.kids|
  {
    if |additions| != 0 {
      PlaceEachKeepsTag(t, additions[..|additions| - 1]);
    }
  }

  /** The sequence of updates, seen at one node: its children take the updates, and its WHERE
      holder takes those meant for the node itself. */
  lemma {:induction false} PlaceEachAt(t: Tree<nat>, additions: seq<Addition>)
    requires t.tag.SelectTag? ==> |t.kids| != 0 && !t.kids[0].tag.SelectTag?
    requires forall x :: x in additions ==> NoSelect(x.condition)
    ensures var kids := PlaceEachIn(t.kids, additions);
      PlaceEach(t, additions) ==
        if t.tag.SelectTag? then t.(kids := kids[0 := AttachEach(kids[0], t.mark, additions)])
        else t.(kids := kids)
  {
    if |additions| == 0 {
      assert PlaceEachIn(t.kids, additions) == t.kids;
    } else {
      var before, last := additions[..|additions| - 1], additions[|additions| - 1];
      PlaceEachAt(t, before);
      var earlier := PlaceEachIn(t.kids, before);
      var kids := PlaceEachIn(t.kids, additions);
      assert forall i :: 0 <= i < |kids| ==> kids[i] == Place(earlier[i], last);
      if t.tag.SelectTag? {
        PlaceEachKeepsTag(t.kids[0], before);
        var holder := AttachEach(earlier[0], t.mark, before);
        PlaceAttachEach(earlier[0], t.mark, before, last);
        assert PlaceIn(earlier[0 := holder], last) == kids[0 := Place(holder, last)];
      } else {
        assert PlaceIn(earlier, last) == kids;
      }
    }
  }

  // ----- forgetting identities -----

  lemma {:induction false} StripAttach(holder: Tree<nat>, condition: Tree<nat>, joint: nat)
    ensures Strip(Attach(holder, condition, joint)) == Attach(Strip(holder), Strip(condition), ())
  {
    if |holder.kids| == 0 {
      assert StripAll([condition]) == [Strip(condition)];
    } else {
      var both := Node(joint, AndTag, false, [holder.kids[0], condition]);
      assert StripAll(both.kids) == [Strip(holder.kids[0]), Strip(condition)];
      assert StripAll([both]) == [Strip(both)];
    }
  }

  lemma {:induction false} AttachAllSnoc(holder: Statement, ps: seq<Expr>, p: Expr)
    ensures AttachAll(holder, ps + [p]) == Attach(AttachAll(holder, ps), EncodeExpr(p), ())
    decreases |ps|
  {
    if |ps| == 0 {
      assert ([] + [p])[1..] == [];
      assert AttachAll(holder, [p]) == AttachAll(Attach(holder, EncodeExpr(p), ()), [p][1..]);
      assert ps + [p] == [p];
    } else {
      assert (ps + [p])[1..] == ps[1..] + [p];
      AttachAllSnoc(Attach(holder, EncodeExpr(ps[0]), ()), ps[1..], p);
    }
  }

  /** The additions carry out the targets, one by one. */
  ghost predicate CarryOut(additions: seq<Addition>, targets: seq<Target>) {
    && |additions| == |targets|
    && forall i :: 0 <= i < |additions| ==>
         && additions[i].scope == targets[i].scope
         && Strip(additions[i].condition) == EncodeExpr(targets[i].condition)
         && NoSelect(additions[i].condition)
  }

  lemma {:induction false} StripAttachEach(holder: Tree<nat>, scope: nat, additions: seq<Addition>,
                                           targets: seq<Target>)
    requires CarryOut(additions, targets)
    ensures Strip(AttachEach(holder, scope, additions)) == AttachAll(Strip(holder), ConditionsFor(targets, scope))
  {
    if |additions| != 0 {
      var n := |additions| - 1;
      StripAttachEach(holder, scope, additions[..n], targets[..n]);
      assert targets == targets[..n] + [targets[n]];
      ConditionsForAppend(targets[..n], [targets[n]], scope);
      assert ConditionsFor([targets[n]], scope)
          == if targets[n].scope == scope then [targets[n].condition] else [];
      if additions[n].scope == scope {
        StripAttach(AttachEach(holder, scope, additions[..n]), additions[n].condition, additions[n].joint);
        AttachAllSnoc(Strip(holder), ConditionsFor(targets[..n], scope), targets[n].condition);
      } else {
        assert ConditionsFor(targets, scope) == ConditionsFor(targets[..n], scope);
      }
    }
  }

  lemma {:induction false} ScanStrip(ts: seq<Tree<nat>>)
    ensures Scan(StripAll(ts)) == Scan(ts)
    decreases SizeAll(ts)
  {
    if |ts| != 0 {
      var head := ts[0];
      SizeDrops(ts);
      assert StripAll(ts)[0] == Strip(head) && StripAll(ts)[1..] == StripAll(ts[1..]);
      if head.tag.SelectTag? {
        ScanStrip(ts[1..]);
      } else {
        ScanStrip(ts[1..] + head.kids);
        assert StripAll(ts[1..] + head.kids) == StripAll(ts[1..]) + Strip(head).kids;
      }
    }
  }

  /** The targets send to each SELECT below `n` the predicates of its own tables. */
  ghost predicate Dispatched(t: Tenancy, n: Tree<nat>, targets: seq<Target>) {
    && (n.tag.SelectTag? ==> ConditionsFor(targets, n.mark) == AllPredicates(t, Scan(n.kids)))
    && forall i :: 0 <= i < |n.kids| ==> Dispatched(t, n.kids[i], targets)
  }

  lemma {:induction false} AllDispatched(t: Tenancy, root: Tree<nat>, n: Tree<nat>)
    requires Separate(root) && Has(root, n)
    ensures Dispatched(t, n, TargetsOf(t, Nodes(root)))
    decreases n
  {
    if n.tag.SelectTag? {
      TargetsOfSelect(t, root, n);
    }
    forall i | 0 <= i < |n.kids|
      ensures Dispatched(t, n.kids[i], TargetsOf(t, Nodes(root)))
    {
      HasKid(root, n, i);
      AllDispatched(t, root, n.kids[i]);
    }
  }

  lemma {:induction false} HasKid(t: Tree<nat>, n: Tree<nat>, k: nat)
    requires Has(t, n) && k < |n.kids|
    ensures Has(t, n.kids[k])
  {
    if t == n {
      assert Has(t.kids[k], t.kids[k]);
    } else {
      var i :| 0 <= i < |t.kids| && Has(t.kids[i], n);
      HasKid(t.kids[i], n, k);
    }
  }

  lemma {:induction false} PlacedIsRewritten(t: Tenancy, n: Tree<nat>, additions: seq<Addition>, targets: seq<Target>)
    requires Shaped(n) && Dispatched(t, n, targets) && CarryOut(additions, targets)
    ensures Strip(PlaceEach(n, additions)) == RewriteTree(t, Strip(n))
    decreases n
  {
    forall x | x in additions
      ensures NoSelect(x.condition)
    {
    }
    PlaceEachAt(n, additions);
    var kids := PlaceEachIn(n.kids, additions);
    forall i | 0 <= i < |n.kids|
      ensures Strip(kids[i]) == RewriteTree(t, Strip(n.kids[i]))
    {
      PlacedIsRewritten(t, n.kids[i], additions, targets);
    }
    KidsRewritten(t, n.kids, kids);
    if n.tag.SelectTag? {
      SelectRewritten(t, n, kids, additions, targets);
    }
  }

  lemma {:induction false} KidsRewritten(t: Tenancy, before: seq<Tree<nat>>, after: seq<Tree<nat>>)
    requires |after| == |before|
    requires forall i :: 0 <= i < |before| ==> Strip(after[i]) == RewriteTree(t, Strip(before[i]))
    ensures StripAll(after) == RewriteTrees(t, StripAll(before))
  {
  }

  /** A SELECT whose children are rewritten, and whose own additions are attached. */
  lemma {:induction false} SelectRewritten(t: Tenancy, n: Tree<nat>, kids: seq<Tree<nat>>, additions: seq<Addition>,
                                           targets: seq<Target>)
    requires n.tag.SelectTag? && Shaped(n) && Dispatched(t, n, targets) && CarryOut(additions, targets)
    requires kids == PlaceEachIn(n.kids, additions) && StripAll(kids) == RewriteTrees(t, StripAll(n.kids))
    requires forall x :: x in additions ==> NoSelect(x.condition)
    ensures Strip(PlaceEach(n, additions)) == RewriteTree(t, Strip(n))
  {
    PlaceEachAt(n, additions);
    var holder := AttachEach(kids[0], n.mark, additions);
    StripAttachEach(kids[0], n.mark, additions, targets);
    ScanStrip(n.kids);
    assert StripAll(kids[0 := holder]) == StripAll(kids)[0 := Strip(holder)];
  }

  /** Collect first, then mutate: carrying out all targets is the structural rewrite. */
  lemma {:induction false} CollectThenMutate(t: Tenancy, root: Tree<nat>, additions: seq<Addition>)
    requires Separate(root) && Shaped(root)
    requires CarryOut(additions, TargetsOf(t, Nodes(root)))
    ensures Strip(PlaceEach(root, additions)) == RewriteTree(t, Strip(root))
  {
    AllDispatched(t, root, root);
    PlacedIsRewritten(t, root, additions, TargetsOf(t, Nodes(root)));
  }
}
