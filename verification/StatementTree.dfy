/** Statement trees as sqlglot builds them, and the breadth-first walk every check uses. */
module StatementTree {
  import opened Values
  import opened Syntax

  /** Node classes. `limit` of a query node stands for its LIMIT argument; `width` is the number
      of projections of a SELECT; `conditioned` says a join carries ON or USING. */
  datatype Tag =
    | SelectTag(width: nat, distinct: bool, limit: Limit)
    | SetOperationTag(operator: SetOperator, limit: Limit)
    | SubqueryTag(alias: string, limit: Limit)
    | WithTag
    | CteTag(alias: string)
    | FromTag
    | JoinTag(kind: JoinKind, natural: bool, conditioned: bool)
    | TableTag(catalog: string, db: string, name: string, alias: string)
    | WhereTag
    | GroupTag(grouped: bool)
    | HavingTag
    | OrderTag
    | AliasTag(alias: string)
    | ColumnTag(qualifier: string, name: string)
    | LiteralTag(value: Value)
    | StarTag
    | FunctionTag(name: string, aggregate: bool)
    | EqualsTag
    | AndTag
    | OrTag
    | NotTag
    | IsNullTag
    | InTag
    | ForbiddenTag(name: string)     // INSERT, UPDATE, DROP, ... anywhere in a statement
    | OtherTag(name: string)

  /** `mark` is `()` for a plain statement and the node's identity for one held in memory. */
  datatype Tree<+A> = Node(mark: A, tag: Tag, commented: bool, kids: seq<Tree<A>>)

  type Statement = Tree<()>

  function Strip<A>(t: Tree<A>): Statement {
    Node((), t.tag, t.commented, StripAll(t.kids))
  }

  function StripAll<A>(ts: seq<Tree<A>>): (r: seq<Statement>)
    ensures |r| == |ts|
    ensures forall i :: 0 <= i < |ts| ==> r[i] == Strip(ts[i])
  {
    if |ts| == 0 then [] else [Strip(ts[0])] + StripAll(ts[1..])
  }

  function Size<A>(t: Tree<A>): nat {
    1 + SizeAll(t.kids)
  }

  function SizeAll<A>(ts: seq<Tree<A>>): nat {
    if |ts| == 0 then 0 else Size(ts[0]) + SizeAll(ts[1..])
  }

  // ----- the walk -----

  /** An ancestor of a visited node. */
  datatype Step<+A> = Step(mark: A, tag: Tag)

  /** A node with its ancestors, outermost first. */
  datatype Visit<+A> = Visit(tree: Tree<A>, above: seq<Step<A>>)

  function KidVisits<A>(v: Visit<A>): (r: seq<Visit<A>>)
    ensures |r| == |v.tree.kids|
    ensures forall i :: 0 <= i < |r| ==> r[i] == Visit(v.tree.kids[i], v.above + [Step(v.tree.mark, v.tree.tag)])
  {
    seq(|v.tree.kids|, i requires 0 <= i < |v.tree.kids| =>
      Visit(v.tree.kids[i], v.above + [Step(v.tree.mark, v.tree.tag)]))
  }

  function Weight<A>(queue: seq<Visit<A>>): nat {
    if |queue| == 0 then 0 else Size(queue[0].tree) + Weight(queue[1..])
  }

  lemma {:induction false} WeightAppend<A>(a: seq<Visit<A>>, b: seq<Visit<A>>)
    ensures Weight(a + b) == Weight(a) + Weight(b)
  {
    if |a| == 0 {
      assert a + b == b;
    } else {
      assert (a + b)[1..] == a[1..] + b;
      WeightAppend(a[1..], b);
    }
  }

  lemma {:induction false} WeightTrees<A>(vs: seq<Visit<A>>, ts: seq<Tree<A>>)
    requires |vs| == |ts| && forall i :: 0 <= i < |vs| ==> vs[i].tree == ts[i]
    ensures Weight(vs) == SizeAll(ts)
  {
    if |vs| != 0 {
      WeightTrees(vs[1..], ts[1..]);
    }
  }

  lemma {:induction false} WeightDrops<A>(queue: seq<Visit<A>>)
    requires |queue| != 0
    ensures Weight(queue[1..] + KidVisits(queue[0])) < Weight(queue)
  {
    WeightAppend(queue[1..], KidVisits(queue[0]));
    WeightTrees(KidVisits(queue[0]), queue[0].tree.kids);
  }

  /** The rest of a breadth-first walk whose queue is `queue`. */
  function Walk<A>(queue: seq<Visit<A>>): seq<Visit<A>>
    decreases Weight(queue)
  {
    if |queue| == 0 then []
    else
      WeightDrops(queue);
      [queue[0]] + Walk(queue[1..] + KidVisits(queue[0]))
  }

  /** Every node of a statement, breadth first. */
  function Nodes<A>(t: Tree<A>): seq<Visit<A>> {
    Walk([Visit(t, [])])
  }

  // ----- which nodes a walk meets -----

  /** `t` is `n` or has it below. */
  ghost predicate Has<A(!new)>(t: Tree<A>, n: Tree<A>) {
    t == n || exists i :: 0 <= i < |t.kids| && Has(t.kids[i], n)
  }

  /** A walk meets the trees of its queue and everything below them, and nothing else. */
  lemma {:induction false} WalkMeets<A(!new)>(queue: seq<Visit<A>>, n: Tree<A>)
    ensures (exists v :: v in Walk(queue) && v.tree == n) <==> (exists v :: v in queue && Has(v.tree, n))
    decreases Weight(queue)
  {
    if |queue| != 0 {
      var head := queue[0];
      var rest := queue[1..] + KidVisits(head);
      WeightDrops(queue);
      WalkMeets(rest, n);
      assert Walk(queue) == [head] + Walk(rest);
      assert queue == [head] + queue[1..];
      assert Has(head.tree, n) <==> head.tree == n || exists v :: v in KidVisits(head) && Has(v.tree, n) by {
        if head.tree != n && Has(head.tree, n) {
          var i :| 0 <= i < |head.tree.kids| && Has(head.tree.kids[i], n);
          assert KidVisits(head)[i] in KidVisits(head) && Has(KidVisits(head)[i].tree, n);
        }
        if v :| v in KidVisits(head) && Has(v.tree, n) {
          var i :| 0 <= i < |KidVisits(head)| && KidVisits(head)[i] == v;
          assert Has(head.tree.kids[i], n);
        }
      }
      if v :| v in Walk(queue) && v.tree == n {
        if v != head {
          assert v in Walk(rest);
          var u :| u in rest && Has(u.tree, n);
          assert u in queue[1..] || u in KidVisits(head);
          if u in queue[1..] {
            assert u in queue;
          }
        }
        assert head in queue;
      }
      if v :| v in queue && Has(v.tree, n) {
        if v == head {
          if head.tree == n {
            assert head in Walk(queue);
          } else {
            var u :| u in KidVisits(head) && Has(u.tree, n);
            assert u in rest;
          }
        } else {
          assert v in rest;
        }
      }
    }
  }

  lemma {:induction false} NodesMeet<A(!new)>(t: Tree<A>, n: Tree<A>)
    ensures (exists v :: v in Nodes(t) && v.tree == n) <==> Has(t, n)
  {
    var start := Visit(t, []);
    WalkMeets([start], n);
    assert start in [start];
  }
}
