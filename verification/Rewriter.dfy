/** The tenant rewriter as the engine runs it: copy, collect targets, then update SELECTs in place. */
module Rewriter {
  import opened Collections
  import opened Schemas
  import opened Syntax
  import opened StatementTree
  import opened Encoding
  import opened TenantRewrite
  import opened TreeRewrite
  import opened Targets
  import opened Placement
  import opened Arena
  import opened Expressions
  import opened TenantIds

  // ----- the rewriter -----

  /** A collected (scope, qualifier, column) triple. */
  datatype Collected = Collected(scope: nat, qualifier: string, column: string)

  function ToTarget(t: Tenancy): Collected -> Target {
    (c: Collected) => Target(c.scope, BuildPredicate(t, c.qualifier, c.column))
  }

  function AsTargets(t: Tenancy, cs: seq<Collected>): seq<Target> {
    Map(cs, ToTarget(t))
  }

  /** How an applied rewrite is reported. */
  function AppliedText(tenantId: string, target: Target): string {
    match target.condition
    case Equals(Column(qualifier, column), _) => qualifier + "." + column + " = " + tenantId
    case _ => ""
  }

  function ToText(tenantId: string): Target -> string {
    (x: Target) => AppliedText(tenantId, x)
  }

  function AppliedTexts(tenantId: string, targets: seq<Target>): seq<string> {
    Map(targets, ToText(tenantId))
  }

  lemma {:induction false} TargetsOfSnoc(t: Tenancy, vs: seq<Visit<nat>>, v: Visit<nat>)
    ensures TargetsOf(t, vs + [v]) == TargetsOf(t, vs) + VisitTargets(t, v)
  {
    if |vs| == 0 {
      assert vs + [v] == [v];
      assert [v][1..] == vs;
    } else {
      assert (vs + [v])[1..] == vs[1..] + [v];
      TargetsOfSnoc(t, vs[1..], v);
    }
  }

  ghost predicate IsSelect(cells: seq<Cell>, tree: Tree<nat>, scope: nat) {
    scope in MarkSet(tree) && scope < |cells| && cells[scope].tag.SelectTag?
  }

  /** The collected scopes are SELECTs of the tree. */
  ghost predicate Usable(cells: seq<Cell>, tree: Tree<nat>, targets: seq<Collected>) {
    forall k :: 0 <= k < |targets| ==> IsSelect(cells, tree, targets[k].scope)
  }

  function AdditionAt(n: nat, c: Collected, t: Tenancy): Addition {
    Addition(c.scope, PredicateTree(n, c.qualifier, c.column, t.tenant), n + 3)
  }

  lemma OneTarget(t: Tenancy, v: Visit<nat>, found: Collected)
    requires v.tree.tag.TableTag? && NearestSelect(v.above) == Some(found.scope)
    requires TenantColumn(t, SourceOf(v.tree.tag)) == Some(found.column)
    requires found.qualifier == SourceOf(v.tree.tag).Label()
    ensures VisitTargets(t, v) == [ToTarget(t)(found)]
  {
  }

  // ----- what is reported -----

  /** A table with a tenant column occurs below some SELECT, and the line names its label, that column and
      the tenant. */
  ghost predicate ReportsVisit(schema: Schema, tenantId: string, v: Visit<nat>, x: string) {
    && v.tree.tag.TableTag? && (exists i :: 0 <= i < |v.above| && v.above[i].tag.SelectTag?)
    && schema.Table(v.tree.tag.name).Some? && schema.Table(v.tree.tag.name).value.tenantColumn.Some?
    && var column := schema.Table(v.tree.tag.name).value.tenantColumn.value;
       var shown := if v.tree.tag.alias != "" then v.tree.tag.alias else v.tree.tag.name;
       column != "" && x == shown + "." + column + " = " + tenantId
  }

  ghost predicate ReportsTable(schema: Schema, tenantId: string, vs: seq<Visit<nat>>, x: string) {
    exists v :: v in vs && ReportsVisit(schema, tenantId, v, x)
  }

  lemma {:induction false} NearestExactly(above: seq<Step<nat>>)
    ensures NearestSelect(above).Some? <==> exists i :: 0 <= i < |above| && above[i].tag.SelectTag?
  {
    if |above| != 0 {
      NearestExactly(above[..|above| - 1]);
    }
  }

  lemma VisitReports(t: Tenancy, tenantId: string, v: Visit<nat>, x: string)
    ensures x in AppliedTexts(tenantId, VisitTargets(t, v)) <==> ReportsVisit(t.schema, tenantId, v, x)
  {
    NearestExactly(v.above);
  }

  /** The report has a line for each tenant-table occurrence below a SELECT, and no other line. */
  lemma {:induction false} AppliedExactly(t: Tenancy, tenantId: string, vs: seq<Visit<nat>>, x: string)
    ensures x in AppliedTexts(tenantId, TargetsOf(t, vs)) <==> ReportsTable(t.schema, tenantId, vs, x)
  {
    if |vs| != 0 {
      assert vs == [vs[0]] + vs[1..];
      VisitReports(t, tenantId, vs[0], x);
      AppliedExactly(t, tenantId, vs[1..], x);
      MapAppend(VisitTargets(t, vs[0]), TargetsOf(t, vs[1..]), ToText(tenantId));
    }
  }

  class TenantRewriter {
    constructor () {}

    /** Collect (select, table, column) first, then mutate the copy. */
    method Rewrite(expression: Expression, schema: Schema, tenantId: string)
      returns (expr: Expression, applied: seq<string>)
      requires expression.Valid()
      ensures fresh(expr) && expr.Valid()
      ensures Strip(expr.tree) == RewriteTree(Tenancy(schema, TenantLiteral(tenantId)), Strip(expression.tree))
      ensures forall q :: Strip(expression.tree) == EncodeQuery(q) ==>
        Strip(expr.tree) == EncodeQuery(TenantRewrite.Rewrite(Tenancy(schema, TenantLiteral(tenantId)), q))
      ensures applied == AppliedTexts(tenantId,
                                      TargetsOf(Tenancy(schema, TenantLiteral(tenantId)), Nodes(expression.tree)))
      ensures forall x :: x in applied <==> ReportsTable(schema, tenantId, Nodes(expression.tree), x)
    {
      ghost var t := Tenancy(schema, TenantLiteral(tenantId));
      expr := new Expression.Copy(expression);
      var targets := Collect(expr, Tenancy(schema, TenantLiteral(tenantId)));
      applied := Apply(expr, targets, Tenancy(schema, TenantLiteral(tenantId)), tenantId);
      forall q | Strip(expression.tree) == EncodeQuery(q)
        ensures RewriteTree(t, EncodeQuery(q)) == EncodeQuery(TenantRewrite.Rewrite(t, q))
      {
        EncodedRewriteQuery(t, q);
      }
      forall x
        ensures x in applied <==> ReportsTable(schema, tenantId, Nodes(expression.tree), x)
      {
        AppliedExactly(t, tenantId, Nodes(expression.tree), x);
      }
    }

    /** Which table occurrences need a predicate, and in which SELECT. */
    method Collect(expr: Expression, t: Tenancy) returns (targets: seq<Collected>)
      requires expr.Valid()
      ensures AsTargets(t, targets) == TargetsOf(t, Nodes(expr.tree))
      ensures Usable(expr.cells, expr.tree, targets)
    {
      ghost var visits := Nodes(expr.tree);
      var walk := expr.Walk();
      targets := [];
      assert visits[..0] == [];
      for k := 0 to |walk|
        invariant AsTargets(t, targets) == TargetsOf(t, visits[..k])
        invariant Usable(expr.cells, expr.tree, targets)
      {
        var found := Inspect(expr, walk[k], t, visits[k]);
        assert visits[..k + 1] == visits[..k] + [visits[k]];
        CollectStep(t, visits[..k], visits[k], targets, found);
        targets := if found.Some? then targets + [found.value] else targets;
      }
      assert visits[..|walk|] == visits;
    }

    /** One node: a tenant table below a SELECT, or nothing to do. */
    method Inspect(expr: Expression, node: nat, t: Tenancy, ghost v: Visit<nat>) returns (found: Option<Collected>)
      requires expr.Valid() && v in Nodes(expr.tree) && node == v.tree.mark
      ensures VisitTargets(t, v) == if found.Some? then [ToTarget(t)(found.value)] else []
      ensures found.Some? ==> IsSelect(expr.cells, expr.tree, found.value.scope)
    {
      VisitInCells(expr.cells, expr.tree, v);
      var tag := expr.cells[node].tag;
      if !tag.TableTag? {
        return None;
      }
      var info := t.schema.Table(tag.name);
      if info.None? || info.value.tenantColumn.None? || info.value.tenantColumn.value == "" {
        return None;
      }
      var scope := expr.FindSelect(node, v);
      if scope.None? {
        return None;
      }
      found := Some(Collected(scope.value, SourceOf(tag).Label(), info.value.tenantColumn.value));
      OneTarget(t, v, found.value);
    }

    /** One `where` call; `before` carried out `done`, the result also this target. */
    method AddOne(expr: Expression, c: Collected, t: Tenancy, ghost tree: Tree<nat>, ghost before: seq<Addition>,
                  ghost done: seq<Target>)
      returns (ghost additions: seq<Addition>)
      requires expr.Valid() && IsSelect(expr.cells, expr.tree, c.scope)
      requires expr.tree == PlaceEach(tree, before) && CarryOut(before, done)
      modifies expr
      ensures expr.Valid() && Extends(old(expr.cells), old(expr.tree), expr.cells, expr.tree)
      ensures expr.tree == PlaceEach(tree, additions) && CarryOut(additions, done + [ToTarget(t)(c)])
    {
      ghost var a := AdditionAt(|expr.cells|, c, t);
      additions := before + [a];
      expr.Where(c.scope, c.qualifier, c.column, t.tenant);
      assert expr.tree == Place(old(expr.tree), a);
      NextAddition(tree, before, done, c, t, old(|expr.cells|));
    }

    /** Append each predicate to its SELECT, in collection order. */
    method Apply(expr: Expression, targets: seq<Collected>, t: Tenancy, tenantId: string)
      returns (applied: seq<string>)
      requires expr.Valid() && Usable(expr.cells, expr.tree, targets)
      requires AsTargets(t, targets) == TargetsOf(t, Nodes(expr.tree))
      modifies expr
      ensures expr.Valid()
      ensures Strip(expr.tree) == RewriteTree(t, Strip(old(expr.tree)))
      ensures applied == AppliedTexts(tenantId, AsTargets(t, targets))
    {
      ghost var tree := expr.tree;
      ghost var additions: seq<Addition> := [];
      applied := [];
      for k := 0 to |targets|
        invariant expr.Valid() && Usable(expr.cells, expr.tree, targets)
        invariant expr.tree == PlaceEach(tree, additions)
        invariant CarryOut(additions, AsTargets(t, targets[..k]))
        invariant applied == AppliedTexts(tenantId, AsTargets(t, targets[..k]))
      {
        var c := targets[k];
        ghost var before, shape := expr.cells, expr.tree;
        additions := AddOne(expr, c, t, tree, additions, AsTargets(t, targets[..k]));
        AsTargetsSnoc(t, targets, k);
        UsableKept(before, expr.cells, shape, expr.tree, targets);
        AppliedSnoc(tenantId, targets, k, t);
        applied := applied + [c.qualifier + "." + c.column + " = " + tenantId];
      }
      assert targets[..|targets|] == targets;
      CollectThenMutate(t, tree, additions);
    }
  }

  lemma {:induction false} CollectStep(t: Tenancy, vs: seq<Visit<nat>>, v: Visit<nat>, targets: seq<Collected>,
                                       found: Option<Collected>)
    requires AsTargets(t, targets) == TargetsOf(t, vs)
    requires VisitTargets(t, v) == if found.Some? then [ToTarget(t)(found.value)] else []
    ensures AsTargets(t, if found.Some? then targets + [found.value] else targets) == TargetsOf(t, vs + [v])
  {
    TargetsOfSnoc(t, vs, v);
    if found.Some? {
      MapAppend(targets, [found.value], ToTarget(t));
    }
  }

  lemma {:induction false} NextAddition(tree: Tree<nat>, before: seq<Addition>, done: seq<Target>, c: Collected,
                                        t: Tenancy, n: nat)
    requires CarryOut(before, done)
    ensures var a := AdditionAt(n, c, t);
      && PlaceEach(tree, before + [a]) == Place(PlaceEach(tree, before), a)
      && CarryOut(before + [a], done + [ToTarget(t)(c)])
  {
    var a := AdditionAt(n, c, t);
    PredicateTreeFacts(n, c.qualifier, c.column, t.tenant);
    PlaceEachSnoc(tree, before, a);
    CarryOneMore(before, done, a, ToTarget(t)(c));
  }

  lemma UsableKept(cells: seq<Cell>, cells': seq<Cell>, tree: Tree<nat>, tree': Tree<nat>, targets: seq<Collected>)
    requires Usable(cells, tree, targets) && Extends(cells, tree, cells', tree')
    ensures Usable(cells', tree', targets)
  {
  }

  lemma AsTargetsSnoc(t: Tenancy, targets: seq<Collected>, k: nat)
    requires k < |targets|
    ensures AsTargets(t, targets[..k + 1]) == AsTargets(t, targets[..k]) + [ToTarget(t)(targets[k])]
  {
    assert targets[..k + 1] == targets[..k] + [targets[k]];
    MapAppend(targets[..k], [targets[k]], ToTarget(t));
  }

  lemma AppliedSnoc(tenantId: string, targets: seq<Collected>, k: nat, t: Tenancy)
    requires k < |targets|
    ensures AppliedTexts(tenantId, AsTargets(t, targets[..k + 1]))
         == AppliedTexts(tenantId, AsTargets(t, targets[..k]))
            + [targets[k].qualifier + "." + targets[k].column + " = " + tenantId]
  {
    AsTargetsSnoc(t, targets, k);
    MapAppend(AsTargets(t, targets[..k]), [ToTarget(t)(targets[k])], ToText(tenantId));
  }

  lemma {:induction false} PlaceEachSnoc(t: Tree<nat>, additions: seq<Addition>, a: Addition)
    ensures PlaceEach(t, additions + [a]) == Place(PlaceEach(t, additions), a)
  {
    assert (additions + [a])[..|additions|] == additions;
  }

  lemma CarryOneMore(additions: seq<Addition>, targets: seq<Target>, a: Addition, x: Target)
    requires CarryOut(additions, targets)
    requires a.scope == x.scope && Strip(a.condition) == EncodeExpr(x.condition) && NoSelect(a.condition)
    ensures CarryOut(additions + [a], targets + [x])
  {
  }
}
