/** Structural measures of a statement, and what the rewrite and the limit do to them (security/cost.py). */
module CostMeasures {
  import opened Collections
  import opened Syntax
  import opened StatementTree
  import opened Encoding
  import opened TenantRewrite
  import opened TreeRewrite
  import opened Placement
  import opened TreeFacts
  import opened Limits

  function Max(a: nat, b: nat): nat {
    if a < b then b else a
  }

  // ----- the measures -----

  /** How deep SELECTs are nested. */
  function Nesting<A>(t: Tree<A>): nat {
    (if t.tag.SelectTag? then 1 else 0) + NestingAll(t.kids)
  }

  function NestingAll<A>(ts: seq<Tree<A>>): nat {
    if |ts| == 0 then 0 else Max(Nesting(ts[0]), NestingAll(ts[1..]))
  }

  function Joins<A>(t: Tree<A>): nat {
    (if t.tag.JoinTag? then 1 else 0) + JoinsAll(t.kids)
  }

  function JoinsAll<A>(ts: seq<Tree<A>>): nat {
    if |ts| == 0 then 0 else Joins(ts[0]) + JoinsAll(ts[1..])
  }

  /** The outermost SELECT a breadth-first search finds: its number of projections. */
  function OuterWidth<A>(queue: seq<Tree<A>>): nat
    decreases SizeAll(queue)
  {
    if |queue| == 0 then 0
    else
      SizeDrops(queue);
      if queue[0].tag.SelectTag? then queue[0].tag.width else OuterWidth(queue[1..] + queue[0].kids)
  }

  /** A join without a condition: CROSS, or neither ON nor USING and not NATURAL. */
  predicate IsCartesian(tag: Tag) {
    tag.JoinTag? && (tag.kind == Cross || (!tag.conditioned && !tag.natural))
  }

  function Conditioned(): NodeTest {
    (tag: Tag, commented: bool) => !IsCartesian(tag)
  }

  /** A join on every pair of rows: CROSS, or neither condition nor NATURAL. */
  ghost predicate JoinsEverything(t: Statement) {
    exists n :: Has(t, n) && n.tag.JoinTag? && (n.tag.kind == Cross || (!n.tag.conditioned && !n.tag.natural))
  }

  lemma {:induction false} JoinsEverythingExactly(t: Statement)
    ensures JoinsEverything(t) <==> !Everywhere(t, Conditioned())
  {
    if Everywhere(t, Conditioned()) {
      forall n | Has(t, n)
        ensures Conditioned()(n.tag, n.commented)
      {
        EverywhereBelow(t, n, Conditioned());
      }
    } else if !JoinsEverything(t) {
      EverywhereFromBelow(t, Conditioned());
    }
  }

  // ----- what the measures measure -----

  /** SELECTs nested one in another, all in the statement. */
  ghost predicate SelectChain(t: Statement, chain: seq<Statement>)
    decreases |chain|
  {
    |chain| != 0 ==>
      && Has(t, chain[0]) && chain[0].tag.SelectTag?
      && (|chain| > 1 ==> exists i :: 0 <= i < |chain[0].kids| && SelectChain(chain[0].kids[i], chain[1..]))
  }

  lemma {:induction false} NestingKid(t: Statement, i: nat)
    requires i < |t.kids|
    ensures Nesting(t) >= Nesting(t.kids[i]) + if t.tag.SelectTag? then 1 else 0
  {
    NestingMost(t.kids, i);
  }

  lemma {:induction false} NestingMost(ts: seq<Statement>, i: nat)
    requires i < |ts|
    ensures NestingAll(ts) >= Nesting(ts[i])
  {
    if i > 0 {
      NestingMost(ts[1..], i - 1);
    }
  }

  lemma {:induction false} NestingBelow(t: Statement, n: Statement)
    requires Has(t, n)
    ensures Nesting(t) >= Nesting(n)
  {
    if t != n {
      var i :| 0 <= i < |t.kids| && Has(t.kids[i], n);
      NestingBelow(t.kids[i], n);
      NestingKid(t, i);
    }
  }

  /** No chain is longer than the nesting depth, ... */
  lemma {:induction false} NestingBounds(t: Statement, chain: seq<Statement>)
    requires SelectChain(t, chain)
    ensures |chain| <= Nesting(t)
    decreases |chain|
  {
    if |chain| != 0 {
      NestingBelow(t, chain[0]);
      if |chain| > 1 {
        var i :| 0 <= i < |chain[0].kids| && SelectChain(chain[0].kids[i], chain[1..]);
        NestingBounds(chain[0].kids[i], chain[1..]);
        NestingKid(chain[0], i);
      }
    }
  }

  lemma {:induction false} DeepestKid(ts: seq<Statement>) returns (i: nat)
    requires NestingAll(ts) > 0
    ensures i < |ts| && Nesting(ts[i]) == NestingAll(ts)
  {
    if Nesting(ts[0]) == NestingAll(ts) {
      i := 0;
    } else {
      var j := DeepestKid(ts[1..]);
      i := j + 1;
    }
  }

  lemma {:induction false} ChainUp(t: Statement, i: nat, chain: seq<Statement>)
    requires i < |t.kids| && SelectChain(t.kids[i], chain)
    ensures SelectChain(t, chain)
  {
    if |chain| != 0 {
      assert Has(t, chain[0]);
    }
  }

  /** ... and some chain is as long. */
  lemma {:induction false} NestingReached(t: Statement) returns (chain: seq<Statement>)
    ensures SelectChain(t, chain) && |chain| == Nesting(t)
  {
    chain := [];
    if NestingAll(t.kids) > 0 {
      var i := DeepestKid(t.kids);
      chain := NestingReached(t.kids[i]);
      ChainUp(t, i, chain);
      if t.tag.SelectTag? {
        assert ([t] + chain)[1..] == chain;
        assert SelectChain(([t] + chain)[0].kids[i], ([t] + chain)[1..]);
        chain := [t] + chain;
      }
    } else if t.tag.SelectTag? {
      chain := [t];
    }
  }

  /** The joins of a statement are the JOIN nodes in it, each counted where it stands. */
  lemma {:induction false} NoJoins(t: Statement)
    ensures Joins(t) == 0 <==> forall n :: Has(t, n) ==> !n.tag.JoinTag?
    decreases t, 0
  {
    NoneJoins(t.kids);
    assert Has(t, t);
    if n :| Has(t, n) && n.tag.JoinTag? && n != t {
      var i :| 0 <= i < |t.kids| && Has(t.kids[i], n);
    }
    if i, n :| 0 <= i < |t.kids| && Has(t.kids[i], n) && n.tag.JoinTag? {
      assert Has(t, n);
    }
  }

  lemma {:induction false} NoneJoins(ts: seq<Statement>)
    ensures JoinsAll(ts) == 0 <==> forall i, n :: 0 <= i < |ts| && Has(ts[i], n) ==> !n.tag.JoinTag?
    decreases ts, 0
  {
    if |ts| != 0 {
      NoJoins(ts[0]);
      NoneJoins(ts[1..]);
      if i, n :| 0 <= i < |ts| && Has(ts[i], n) && n.tag.JoinTag? {
        assert i > 0 ==> Has(ts[1..][i - 1], n);
      }
      if i, n :| 0 <= i < |ts[1..]| && Has(ts[1..][i], n) && n.tag.JoinTag? {
        assert Has(ts[i + 1], n);
      }
    }
  }

  // ----- sums over the walk -----

  function JoinsIn<A>(vs: seq<Visit<A>>): nat {
    if |vs| == 0 then 0 else (if vs[0].tree.tag.JoinTag? then 1 else 0) + JoinsIn(vs[1..])
  }

  function JoinsBelow<A>(vs: seq<Visit<A>>): nat {
    if |vs| == 0 then 0 else Joins(vs[0].tree) + JoinsBelow(vs[1..])
  }

  lemma {:induction false} JoinsBelowAppend<A>(a: seq<Visit<A>>, b: seq<Visit<A>>)
    ensures JoinsBelow(a + b) == JoinsBelow(a) + JoinsBelow(b)
  {
    if |a| == 0 {
      assert a + b == b;
    } else {
      assert (a + b)[1..] == a[1..] + b;
      JoinsBelowAppend(a[1..], b);
    }
  }

  lemma {:induction false} JoinsBelowTrees<A>(vs: seq<Visit<A>>, ts: seq<Tree<A>>)
    requires |vs| == |ts| && forall i :: 0 <= i < |vs| ==> vs[i].tree == ts[i]
    ensures JoinsBelow(vs) == JoinsAll(ts)
  {
    if |vs| != 0 {
      JoinsBelowTrees(vs[1..], ts[1..]);
    }
  }

  /** The walk meets each join of the tree once. */
  lemma {:induction false} JoinsWalked<A>(queue: seq<Visit<A>>)
    ensures JoinsIn(Walk(queue)) == JoinsBelow(queue)
    decreases Weight(queue)
  {
    if |queue| != 0 {
      var rest := queue[1..] + KidVisits(queue[0]);
      WeightDrops(queue);
      JoinsWalked(rest);
      assert Walk(queue) == [queue[0]] + Walk(rest);
      assert ([queue[0]] + Walk(rest))[1..] == Walk(rest);
      JoinsBelowAppend(queue[1..], KidVisits(queue[0]));
      JoinsBelowTrees(KidVisits(queue[0]), queue[0].tree.kids);
    }
  }

  // ----- the deepest climb -----

  /** SELECTs among the ancestors. */
  function SelectsAbove<A>(above: seq<Step<A>>): nat {
    if |above| == 0 then 0
    else (if above[|above| - 1].tag.SelectTag? then 1 else 0) + SelectsAbove(above[..|above| - 1])
  }

  /** The depth found by climbing from a node, if it is a SELECT. */
  function Climb<A>(v: Visit<A>): nat {
    if v.tree.tag.SelectTag? then 1 + SelectsAbove(v.above) else 0
  }

  function Deepest<A>(vs: seq<Visit<A>>): nat {
    if |vs| == 0 then 0 else Max(Climb(vs[0]), Deepest(vs[1..]))
  }

  /** The greatest depth of a SELECT at or below a visited node. */
  function Reach<A>(v: Visit<A>): nat {
    if Nesting(v.tree) == 0 then 0 else SelectsAbove(v.above) + Nesting(v.tree)
  }

  function Furthest<A>(vs: seq<Visit<A>>): nat {
    if |vs| == 0 then 0 else Max(Reach(vs[0]), Furthest(vs[1..]))
  }

  lemma {:induction false} FurthestAppend<A>(a: seq<Visit<A>>, b: seq<Visit<A>>)
    ensures Furthest(a + b) == Max(Furthest(a), Furthest(b))
  {
    if |a| == 0 {
      assert a + b == b;
    } else {
      assert (a + b)[1..] == a[1..] + b;
      FurthestAppend(a[1..], b);
    }
  }

  lemma {:induction false} FurthestTrees<A>(vs: seq<Visit<A>>, ts: seq<Tree<A>>, depth: nat)
    requires |vs| == |ts|
    requires forall i :: 0 <= i < |vs| ==> vs[i].tree == ts[i] && SelectsAbove(vs[i].above) == depth
    ensures Furthest(vs) == if NestingAll(ts) == 0 then 0 else depth + NestingAll(ts)
  {
    if |vs| != 0 {
      FurthestTrees(vs[1..], ts[1..], depth);
    }
  }

  lemma ReachStep<A>(v: Visit<A>)
    ensures Reach(v) == Max(Climb(v), Furthest(KidVisits(v)))
  {
    var depth := SelectsAbove(v.above) + if v.tree.tag.SelectTag? then 1 else 0;
    forall i | 0 <= i < |KidVisits(v)|
      ensures SelectsAbove(KidVisits(v)[i].above) == depth
    {
      var above := KidVisits(v)[i].above;
      assert above[..|above| - 1] == v.above;
    }
    FurthestTrees(KidVisits(v), v.tree.kids, depth);
  }

  lemma {:induction false} DeepestWalked<A>(queue: seq<Visit<A>>)
    ensures Deepest(Walk(queue)) == Furthest(queue)
    decreases Weight(queue)
  {
    if |queue| != 0 {
      var rest := queue[1..] + KidVisits(queue[0]);
      WeightDrops(queue);
      DeepestWalked(rest);
      assert Walk(queue) == [queue[0]] + Walk(rest);
      assert ([queue[0]] + Walk(rest))[1..] == Walk(rest);
      FurthestAppend(queue[1..], KidVisits(queue[0]));
      ReachStep(queue[0]);
    }
  }

  /** The deepest climb over all nodes is the nesting depth. */
  lemma {:induction false} DeepestIsNesting<A>(t: Tree<A>)
    ensures Deepest(Nodes(t)) == Nesting(t)
  {
    var start := Visit(t, []);
    DeepestWalked([start]);
    assert [start][1..] == [];
  }

  lemma {:induction false} JoinsCounted<A>(t: Tree<A>)
    ensures JoinsIn(Nodes(t)) == Joins(t)
  {
    var start := Visit(t, []);
    JoinsWalked([start]);
    assert [start][1..] == [];
  }

  // ----- forgetting identities -----

  lemma {:induction false} StripMeasures(t: Tree<nat>)
    ensures Nesting(Strip(t)) == Nesting(t) && Joins(Strip(t)) == Joins(t)
    decreases t, 1
  {
    StripAllMeasures(t.kids);
  }

  lemma {:induction false} StripAllMeasures(ts: seq<Tree<nat>>)
    ensures NestingAll(StripAll(ts)) == NestingAll(ts) && JoinsAll(StripAll(ts)) == JoinsAll(ts)
    decreases ts, 0
  {
    if |ts| != 0 {
      StripMeasures(ts[0]);
      StripAllMeasures(ts[1..]);
    }
  }

  lemma {:induction false} StripWidth(queue: seq<Tree<nat>>)
    ensures OuterWidth(StripAll(queue)) == OuterWidth(queue)
    decreases SizeAll(queue)
  {
    if |queue| != 0 {
      SizeDrops(queue);
      assert StripAll(queue)[0] == Strip(queue[0]) && StripAll(queue)[1..] == StripAll(queue[1..]);
      if !queue[0].tag.SelectTag? {
        StripWidth(queue[1..] + queue[0].kids);
        assert StripAll(queue[1..] + queue[0].kids) == StripAll(queue[1..]) + Strip(queue[0]).kids;
      }
    }
  }

  // ----- the rewrite and the limit leave them alone -----

  lemma {:induction false} LeafMeasures(t: Statement)
    requires |t.kids| == 0 && !t.tag.SelectTag? && !t.tag.JoinTag?
    ensures Nesting(t) == 0 && Joins(t) == 0
  {
  }

  lemma {:induction false} OneKidMeasures(t: Statement)
    requires |t.kids| == 1
    ensures Nesting(t) == Nesting(t.kids[0]) + if t.tag.SelectTag? then 1 else 0
    ensures Joins(t) == Joins(t.kids[0]) + if t.tag.JoinTag? then 1 else 0
  {
    assert t.kids[1..] == [];
    assert NestingAll(t.kids) == Max(Nesting(t.kids[0]), NestingAll(t.kids[1..]));
    assert JoinsAll(t.kids) == Joins(t.kids[0]) + JoinsAll(t.kids[1..]);
  }

  lemma {:induction false} TwoKidsMeasures(t: Statement)
    requires |t.kids| == 2 && !t.tag.SelectTag? && !t.tag.JoinTag?
    ensures Nesting(t) == Max(Nesting(t.kids[0]), Nesting(t.kids[1]))
    ensures Joins(t) == Joins(t.kids[0]) + Joins(t.kids[1])
  {
    assert t.kids[1..] == [t.kids[1]] && t.kids[1..][1..] == [];
    assert NestingAll(t.kids[1..]) == Max(Nesting(t.kids[1]), NestingAll(t.kids[1..][1..]));
    assert JoinsAll(t.kids[1..]) == Joins(t.kids[1]) + JoinsAll(t.kids[1..][1..]);
    assert NestingAll(t.kids) == Max(Nesting(t.kids[0]), NestingAll(t.kids[1..]));
  }

  lemma {:induction false} PlainMeasures(e: Expr)
    requires Plain(e)
    ensures Nesting(EncodeExpr(e)) == 0 && Joins(EncodeExpr(e)) == 0
  {
    var t := EncodeExpr(e);
    PlainKids(e);
    TwoKidsMeasures(t);
    LeafMeasures(t.kids[0]);
    LeafMeasures(t.kids[1]);
  }

  lemma {:induction false} AttachMeasures(holder: Statement, e: Expr)
    requires |holder.kids| <= 1 && Plain(e)
    ensures var grown := Attach(holder, EncodeExpr(e), ());
      && Nesting(grown) == Nesting(holder) && Joins(grown) == Joins(holder) && |grown.kids| == 1
  {
    PlainMeasures(e);
    OneKidMeasures(Attach(holder, EncodeExpr(e), ()));
    if |holder.kids| != 0 {
      OneKidMeasures(holder);
      TwoKidsMeasures(Node((), AndTag, false, [holder.kids[0], EncodeExpr(e)]));
    }
  }

  lemma {:induction false} AttachAllMeasures(holder: Statement, es: seq<Expr>)
    requires |holder.kids| <= 1 && forall e :: e in es ==> Plain(e)
    ensures Nesting(AttachAll(holder, es)) == Nesting(holder) && Joins(AttachAll(holder, es)) == Joins(holder)
    decreases |es|
  {
    if |es| != 0 {
      assert es[0] in es;
      AttachMeasures(holder, es[0]);
      AttachAllMeasures(Attach(holder, EncodeExpr(es[0]), ()), es[1..]);
    }
  }

  lemma {:induction false} PointwiseMeasures(a: seq<Statement>, b: seq<Statement>)
    requires |a| == |b| && forall i :: 0 <= i < |a| ==> Nesting(a[i]) == Nesting(b[i]) && Joins(a[i]) == Joins(b[i])
    ensures NestingAll(a) == NestingAll(b) && JoinsAll(a) == JoinsAll(b)
  {
    if |a| != 0 {
      PointwiseMeasures(a[1..], b[1..]);
    }
  }

  lemma {:induction false} RewriteMeasures(t: Tenancy, s: Statement)
    requires Shaped(s)
    ensures Nesting(RewriteTree(t, s)) == Nesting(s) && Joins(RewriteTree(t, s)) == Joins(s)
  {
    var kids := RewriteTrees(t, s.kids);
    forall i | 0 <= i < |s.kids|
      ensures Nesting(kids[i]) == Nesting(s.kids[i]) && Joins(kids[i]) == Joins(s.kids[i])
    {
      RewriteMeasures(t, s.kids[i]);
    }
    var done := RewriteTree(t, s);
    if s.tag.SelectTag? {
      RewriteKeepsShape(t, s.kids[0]);
      AllPredicatesForm(t, Scan(s.kids));
      AttachAllMeasures(kids[0], AllPredicates(t, Scan(s.kids)));
    }
    assert done.tag == s.tag;
    PointwiseMeasures(done.kids, s.kids);
  }

  lemma {:induction false} RewriteWidth(t: Tenancy, queue: seq<Statement>)
    ensures OuterWidth(RewriteTrees(t, queue)) == OuterWidth(queue)
    decreases SizeAll(queue)
  {
    if |queue| != 0 {
      SizeDrops(queue);
      var after := RewriteTrees(t, queue);
      assert after[0].tag == queue[0].tag && after[1..] == RewriteTrees(t, queue[1..]);
      if !queue[0].tag.SelectTag? {
        RewriteWidth(t, queue[1..] + queue[0].kids);
        RewriteTreesAppend(t, queue[1..], queue[0].kids);
      }
    }
  }

  lemma {:induction false} RewriteCartesian(t: Tenancy, s: Statement)
    requires Shaped(s)
    ensures Everywhere(RewriteTree(t, s), Conditioned()) <==> Everywhere(s, Conditioned())
  {
    assert AcceptsAdded(Conditioned());
    AcceptsWelcome(t, s, Conditioned());
    RewriteEverywhere(t, s, Conditioned());
  }

  /** Same joins, depth, width and Cartesian verdict. */
  ghost predicate SameCost(a: Statement, b: Statement) {
    && Joins(a) == Joins(b) && Nesting(a) == Nesting(b) && OuterWidth([a]) == OuterWidth([b])
    && (Everywhere(a, Conditioned()) <==> Everywhere(b, Conditioned()))
  }

  lemma {:induction false} RewriteKeepsCost(t: Tenancy, s: Statement)
    requires Shaped(s)
    ensures SameCost(RewriteTree(t, s), s)
  {
    RewriteMeasures(t, s);
    RewriteWidth(t, [s]);
    assert RewriteTrees(t, [s]) == [RewriteTree(t, s)];
    RewriteCartesian(t, s);
  }

  lemma LimitKeepsCost(s: Statement, maxRows: nat)
    ensures SameCost(EnforceLimit(s, maxRows).expression, s)
  {
    var limited := EnforceLimit(s, maxRows).expression;
    assert limited.kids == s.kids;
    assert [limited][1..] + limited.kids == [s][1..] + s.kids;
    assert Everywhere(limited, Conditioned()) <==> Everywhere(s, Conditioned()) by {
      assert Conditioned()(limited.tag, limited.commented) == Conditioned()(s.tag, s.commented);
    }
  }

  // ----- the projected columns of a query -----

  lemma {:induction false} WidthStep(head: Statement, rest: seq<Statement>)
    ensures OuterWidth([head] + rest) == if head.tag.SelectTag? then head.tag.width else OuterWidth(rest + head.kids)
  {
    assert ([head] + rest)[0] == head && ([head] + rest)[1..] == rest;
  }

  lemma {:induction false} WidthOfThree(tag: Tag, a: Statement, b: Statement, c: Statement)
    requires !tag.SelectTag? && !a.tag.SelectTag?
    ensures b.tag.SelectTag? ==> OuterWidth([Parent(tag, [a, b, c])]) == b.tag.width
    ensures !b.tag.SelectTag? && c.tag.SelectTag? ==> OuterWidth([Parent(tag, [a, b, c])]) == c.tag.width
  {
    var t := Parent(tag, [a, b, c]);
    assert [t] + [] == [t] && [] + t.kids == [a] + [b, c];
    WidthStep(t, []);
    WidthStep(a, [b, c]);
    assert [b, c] + a.kids == [b] + ([c] + a.kids);
    WidthStep(b, [c] + a.kids);
    assert ([c] + a.kids) + b.kids == [c] + (a.kids + b.kids);
    WidthStep(c, a.kids + b.kids);
  }

  lemma {:induction false} WidthOfSelect(q: Query)
    requires q.Select?
    ensures OuterWidth([EncodeQuery(q)]) == Length(q.items)
  {
    var t := EncodeQuery(q);
    assert [t] + [] == [t];
    WidthStep(t, []);
  }

  /** A SELECT projects its items; of a set operation with a SELECT on one side, that side counts, the left
      one first. */
  lemma {:induction false} WidthOfQuery(q: Query)
    ensures q.Select? ==> OuterWidth([EncodeQuery(q)]) == Length(q.items)
    ensures q.SetOperation? && q.left.Select? ==> OuterWidth([EncodeQuery(q)]) == Length(q.left.items)
    ensures q.SetOperation? && q.left.SetOperation? && q.right.Select? ==>
      OuterWidth([EncodeQuery(q)]) == Length(q.right.items)
  {
    if q.Select? {
      WidthOfSelect(q);
    } else {
      WidthOfThree(SetOperationTag(q.operator, q.limit), Parent(WithTag, EncodeCtes(q.ctes)), EncodeQuery(q.left),
                   EncodeQuery(q.right));
    }
  }
}
