/** The cost analyser: loops over a statement in memory, climbing parent links (security/cost.py). */
module Cost {
  import opened Collections
  import opened StatementTree
  import opened Targets
  import opened Arena
  import opened Expressions
  import opened Issues
  import opened TreeFacts
  import opened CostMeasures

  datatype Risk = Low | Medium | High

  datatype CostConfig = CostConfig(
    maxJoins: nat, maxDepth: nat, maxColumns: nat, mediumRows: real, highRows: real)

  /** What the planner said, where there is a planner to ask. */
  datatype Estimate = Estimate(rows: real, cost: real)

  // ----- what the loops compute, one node at a time -----

  lemma {:induction false} DeepestSnoc<A>(vs: seq<Visit<A>>, v: Visit<A>)
    ensures Deepest(vs + [v]) == Max(Deepest(vs), Climb(v))
  {
    if |vs| == 0 {
      assert vs + [v] == [v] && [v][1..] == vs;
    } else {
      assert (vs + [v])[1..] == vs[1..] + [v];
      DeepestSnoc(vs[1..], v);
    }
  }

  lemma {:induction false} JoinsInSnoc<A>(vs: seq<Visit<A>>, v: Visit<A>)
    ensures JoinsIn(vs + [v]) == JoinsIn(vs) + if v.tree.tag.JoinTag? then 1 else 0
  {
    if |vs| == 0 {
      assert vs + [v] == [v] && [v][1..] == vs;
    } else {
      assert (vs + [v])[1..] == vs[1..] + [v];
      JoinsInSnoc(vs[1..], v);
    }
  }

  /** The width of the first SELECT met. */
  function FirstWidth(vs: seq<Visit<nat>>): nat {
    if |vs| == 0 then 0
    else if vs[0].tree.tag.SelectTag? then vs[0].tree.tag.width
    else FirstWidth(vs[1..])
  }

  lemma {:induction false} FirstWidthWalked(queue: seq<Visit<nat>>)
    ensures FirstWidth(Walk(queue)) == OuterWidth(Trees(queue))
    decreases Weight(queue)
  {
    if |queue| != 0 {
      var rest := queue[1..] + KidVisits(queue[0]);
      WeightDrops(queue);
      FirstWidthWalked(rest);
      assert Walk(queue) == [queue[0]] + Walk(rest);
      assert ([queue[0]] + Walk(rest))[1..] == Walk(rest);
      TreesAppend(queue[1..], KidVisits(queue[0]));
      assert Trees(KidVisits(queue[0])) == queue[0].tree.kids;
      assert Trees(queue)[1..] == Trees(queue[1..]);
    }
  }

  lemma {:induction false} FirstWidthSkips(vs: seq<Visit<nat>>, k: nat)
    requires k < |vs| && vs[k].tree.tag.SelectTag?
    requires forall i :: 0 <= i < k ==> !vs[i].tree.tag.SelectTag?
    ensures FirstWidth(vs) == vs[k].tree.tag.width
  {
    if k > 0 {
      FirstWidthSkips(vs[1..], k - 1);
    }
  }

  lemma {:induction false} FirstWidthNone(vs: seq<Visit<nat>>)
    requires forall i :: 0 <= i < |vs| ==> !vs[i].tree.tag.SelectTag?
    ensures FirstWidth(vs) == 0
  {
    if |vs| != 0 {
      FirstWidthNone(vs[1..]);
    }
  }

  lemma {:induction false} FirstWidthIs(t: Tree<nat>)
    ensures FirstWidth(Nodes(t)) == OuterWidth([Strip(t)])
  {
    var start := Visit(t, []);
    FirstWidthWalked([start]);
    assert Trees([start]) == [t];
    StripWidth([t]);
    assert StripAll([t]) == [Strip(t)];
  }

  lemma {:induction false} StripEverywhere(t: Tree<nat>, p: NodeTest)
    ensures Everywhere(Strip(t), p) <==> forall v :: v in Nodes(t) ==> p(v.tree.tag, v.tree.commented)
  {
    if Everywhere(Strip(t), p) {
      forall v | v in Nodes(t)
        ensures p(v.tree.tag, v.tree.commented)
      {
        NodesMeet(t, v.tree);
        StripHas(t, v.tree, p);
      }
    }
    if forall v :: v in Nodes(t) ==> p(v.tree.tag, v.tree.commented) {
      forall n: Tree<nat> | Has(t, n)
        ensures p(n.tag, n.commented)
      {
        NodesMeet(t, n);
      }
      StripFromHas(t, p);
    }
  }

  lemma {:induction false} StripHas(t: Tree<nat>, n: Tree<nat>, p: NodeTest)
    requires Everywhere(Strip(t), p) && Has(t, n)
    ensures p(n.tag, n.commented)
  {
    if t != n {
      var i :| 0 <= i < |t.kids| && Has(t.kids[i], n);
      assert Strip(t).kids[i] == Strip(t.kids[i]);
      StripHas(t.kids[i], n, p);
    }
  }

  lemma {:induction false} StripFromHas(t: Tree<nat>, p: NodeTest)
    requires forall n: Tree<nat> :: Has(t, n) ==> p(n.tag, n.commented)
    ensures Everywhere(Strip(t), p)
  {
    assert Has(t, t);
    forall i | 0 <= i < |t.kids|
      ensures Everywhere(Strip(t).kids[i], p)
    {
      forall n: Tree<nat> | Has(t.kids[i], n)
        ensures p(n.tag, n.commented)
      {
        assert Has(t, n);
      }
      StripFromHas(t.kids[i], p);
    }
  }

  // ----- the verdict -----

  function OneIssue(found: bool, code: Code): seq<Issue> {
    if found then [Issue(code, "", "")] else []
  }

  /** The structural rejections, in the order they are made. */
  function StructureIssues(c: CostConfig, joins: nat, depth: nat, columns: nat, cartesian: bool): seq<Issue> {
    OneIssue(joins > c.maxJoins, TooManyJoins)
    + OneIssue(depth > c.maxDepth, SubqueryTooDeep)
    + OneIssue(columns > c.maxColumns, TooManyColumns)
    + OneIssue(cartesian, CartesianProduct)
  }

  /** Within every bound, and not estimated too large. */
  ghost predicate Affordable(c: CostConfig, t: Statement, estimate: Option<Estimate>) {
    && Joins(t) <= c.maxJoins && Max(1, Nesting(t)) <= c.maxDepth && OuterWidth([t]) <= c.maxColumns
    && Everywhere(t, Conditioned())
    && (estimate.Some? ==> estimate.value.rows < c.highRows)
  }

  ghost predicate StructureTooCostly(c: CostConfig, t: Statement) {
    || Joins(t) > c.maxJoins || Max(1, Nesting(t)) > c.maxDepth || OuterWidth([t]) > c.maxColumns
    || JoinsEverything(t)
  }

  /** When the cost stage reports each code. */
  ghost predicate TooCostly(c: CostConfig, t: Statement, estimate: Option<Estimate>, code: Code) {
    match code
    case TooManyJoins => Joins(t) > c.maxJoins
    case SubqueryTooDeep => Max(1, Nesting(t)) > c.maxDepth
    case TooManyColumns => OuterWidth([t]) > c.maxColumns
    case CartesianProduct => JoinsEverything(t)
    case EstimatedCostTooHigh =>
      !StructureTooCostly(c, t) && estimate.Some? && estimate.value.rows >= c.highRows
    case _ => false
  }

  lemma OneIssueCodes(found: bool, code: Code)
    ensures Codes(OneIssue(found, code)) == if found then {code} else {}
  {
  }

  lemma OneIssueHas(found: bool, c: Code, code: Code)
    ensures code in Codes(OneIssue(found, c)) <==> found && code == c
  {
    OneIssueCodes(found, c);
  }

  lemma FourCodes(a: seq<Issue>, b: seq<Issue>, c: seq<Issue>, d: seq<Issue>)
    ensures Codes(a + b + c + d) == Codes(a) + Codes(b) + Codes(c) + Codes(d)
  {
    CodesAppend(a, b);
    CodesAppend(a + b, c);
    CodesAppend(a + b + c, d);
  }

  ghost predicate AnyOf(joins: bool, depth: bool, columns: bool, cartesian: bool, code: Code) {
    match code
    case TooManyJoins => joins
    case SubqueryTooDeep => depth
    case TooManyColumns => columns
    case CartesianProduct => cartesian
    case _ => false
  }

  lemma StructureCodes(c: CostConfig, joins: nat, depth: nat, columns: nat, cartesian: bool, code: Code)
    ensures code in Codes(StructureIssues(c, joins, depth, columns, cartesian)) <==>
      AnyOf(joins > c.maxJoins, depth > c.maxDepth, columns > c.maxColumns, cartesian, code)
  {
    FourCodes(OneIssue(joins > c.maxJoins, TooManyJoins), OneIssue(depth > c.maxDepth, SubqueryTooDeep),
              OneIssue(columns > c.maxColumns, TooManyColumns), OneIssue(cartesian, CartesianProduct));
    OneIssueHas(joins > c.maxJoins, TooManyJoins, code);
    OneIssueHas(depth > c.maxDepth, SubqueryTooDeep, code);
    OneIssueHas(columns > c.maxColumns, TooManyColumns, code);
    OneIssueHas(cartesian, CartesianProduct, code);
  }

  lemma StructureNone(c: CostConfig, joins: nat, depth: nat, columns: nat, cartesian: bool)
    ensures StructureIssues(c, joins, depth, columns, cartesian) == [] <==>
      joins <= c.maxJoins && depth <= c.maxDepth && columns <= c.maxColumns && !cartesian
  {
  }

  /** The codes of the rejections, in terms of the statement. */
  lemma {:induction false} RejectionsExactly(c: CostConfig, t: Statement, estimate: Option<Estimate>, code: Code)
    ensures var structure := StructureIssues(c, Joins(t), Max(1, Nesting(t)), OuterWidth([t]),
                                             !Everywhere(t, Conditioned()));
      var issues := if structure != [] then structure
                    else OneIssue(estimate.Some? && estimate.value.rows >= c.highRows, EstimatedCostTooHigh);
      code in Codes(issues) <==> TooCostly(c, t, estimate, code)
  {
    JoinsEverythingExactly(t);
    StructureCodes(c, Joins(t), Max(1, Nesting(t)), OuterWidth([t]), JoinsEverything(t), code);
    StructureNone(c, Joins(t), Max(1, Nesting(t)), OuterWidth([t]), JoinsEverything(t));
    OneIssueCodes(estimate.Some? && estimate.value.rows >= c.highRows, EstimatedCostTooHigh);
  }

  function LessOne(n: nat): nat {
    if n == 0 then 0 else n - 1
  }

  /** At least two below the bound, or nothing at all. */
  predicate CalmFor(measure: nat, bound: nat) {
    measure == 0 || measure + 1 < bound
  }

  lemma SameCostAffordable(c: CostConfig, a: Statement, b: Statement, estimate: Option<Estimate>)
    requires SameCost(a, b)
    ensures Affordable(c, a, estimate) <==> Affordable(c, b, estimate)
  {
  }

  class CostReport {
    var allowed: bool
    var risk: Risk
    var joinCount: nat
    var subqueryDepth: nat
    var selectedColumns: nat
    var estimate: Option<Estimate>
    var issues: seq<Issue>

    ghost predicate Valid()
      reads this
    {
      && (allowed <==> issues == [])
      && (!allowed ==> risk == High)
    }

    constructor (joinCount: nat, subqueryDepth: nat, selectedColumns: nat)
      ensures Valid() && allowed && risk == Low && issues == [] && estimate == None
      ensures this.joinCount == joinCount && this.subqueryDepth == subqueryDepth
      ensures this.selectedColumns == selectedColumns
    {
      allowed, risk, issues, estimate := true, Low, [], None;
      this.joinCount, this.subqueryDepth, this.selectedColumns := joinCount, subqueryDepth, selectedColumns;
    }

    method Reject(code: Code)
      requires Valid()
      modifies this`allowed, this`risk, this`issues
      ensures Valid() && !allowed && issues == old(issues) + [Issue(code, "", "")]
    {
      allowed, risk := false, High;
      issues := issues + [Issue(code, "", "")];
    }

    method RejectIf(found: bool, code: Code)
      requires Valid()
      modifies this`allowed, this`risk, this`issues
      ensures Valid() && issues == old(issues) + OneIssue(found, code)
      ensures !found ==> risk == old(risk)
    {
      if found {
        Reject(code);
      }
    }
  }

  class CostAnalyzer {
    const config: CostConfig

    constructor (config: CostConfig)
      ensures this.config == config
    {
      this.config := config;
    }

    method Analyze(expr: Expression, estimate: Option<Estimate>) returns (report: CostReport)
      requires expr.Valid()
      ensures fresh(report) && report.Valid() && report.estimate == estimate
      ensures report.joinCount == Joins(Strip(expr.tree))
      ensures report.subqueryDepth == Max(1, Nesting(Strip(expr.tree)))
      ensures report.selectedColumns == OuterWidth([Strip(expr.tree)])
      ensures report.allowed <==> Affordable(config, Strip(expr.tree), estimate)
      ensures report.risk == High <==> !report.allowed
      ensures report.allowed ==> report.risk == ClassifyRisk(report)
      ensures report.issues ==
        var structure := StructureIssues(config, report.joinCount, report.subqueryDepth, report.selectedColumns,
                                         !Everywhere(Strip(expr.tree), Conditioned()));
        if structure != [] then structure
        else OneIssue(estimate.Some? && estimate.value.rows >= config.highRows, EstimatedCostTooHigh)
      ensures forall code :: code in Codes(report.issues) <==> TooCostly(config, Strip(expr.tree), estimate, code)
    {
      forall code
        ensures var t := Strip(expr.tree);
          var structure := StructureIssues(config, Joins(t), Max(1, Nesting(t)), OuterWidth([t]),
                                           !Everywhere(t, Conditioned()));
          var issues := if structure != [] then structure
                        else OneIssue(estimate.Some? && estimate.value.rows >= config.highRows, EstimatedCostTooHigh);
          code in Codes(issues) <==> TooCostly(config, t, estimate, code)
      {
        RejectionsExactly(config, Strip(expr.tree), estimate, code);
      }
      var joins := CountJoins(expr);
      var depth := MaxSelectDepth(expr);
      var columns := ProjectedColumns(expr);
      var cartesian := HasCartesianProduct(expr);
      JoinsEverythingExactly(Strip(expr.tree));
      report := Judge(joins, depth, columns, cartesian, estimate);
    }

    /** The thresholds, on measures already taken. */
    method Judge(joins: nat, depth: nat, columns: nat, cartesian: bool, estimate: Option<Estimate>)
      returns (report: CostReport)
      ensures fresh(report) && report.Valid() && report.estimate == estimate
      ensures report.joinCount == joins && report.subqueryDepth == depth && report.selectedColumns == columns
      ensures report.risk == High <==> !report.allowed
      ensures report.allowed ==> report.risk == ClassifyRisk(report)
      ensures report.issues ==
        var structure := StructureIssues(config, joins, depth, columns, cartesian);
        if structure != [] then structure
        else OneIssue(estimate.Some? && estimate.value.rows >= config.highRows, EstimatedCostTooHigh)
    {
      report := new CostReport(joins, depth, columns);
      report.RejectIf(joins > config.maxJoins, TooManyJoins);
      report.RejectIf(depth > config.maxDepth, SubqueryTooDeep);
      report.RejectIf(columns > config.maxColumns, TooManyColumns);
      report.RejectIf(cartesian, CartesianProduct);
      report.estimate := estimate;
      assert report.issues == StructureIssues(config, joins, depth, columns, cartesian);
      if report.allowed {
        report.risk := ClassifyRisk(report);
        if estimate.Some? && estimate.value.rows >= config.highRows {
          report.Reject(EstimatedCostTooHigh);
        }
      }
    }

    /** HIGH and MEDIUM by estimate; without one, by how close the structure is to its bounds. */
    function ClassifyRisk(report: CostReport): (risk: Risk)
      reads report
      ensures report.estimate.Some? ==>
        && (risk == High <==> report.estimate.value.rows >= config.highRows)
        && (risk == Low <==>
              report.estimate.value.rows < config.highRows && report.estimate.value.rows < config.mediumRows)
      ensures report.estimate.None? ==>
        && risk != High
        && (risk == Low <==>
              CalmFor(report.joinCount, config.maxJoins) && CalmFor(report.subqueryDepth, config.maxDepth))
    {
      match report.estimate
      case Some(e) =>
        if e.rows >= config.highRows then High
        else if e.rows >= config.mediumRows then Medium
        else Low
      case None =>
        if report.joinCount >= Max(1, LessOne(config.maxJoins)) ||
           report.subqueryDepth >= Max(1, LessOne(config.maxDepth))
        then Medium
        else Low
    }

    method CountJoins(expr: Expression) returns (count: nat)
      requires expr.Valid()
      ensures count == Joins(Strip(expr.tree))
    {
      ghost var visits := Nodes(expr.tree);
      var walk := expr.Walk();
      count := 0;
      for k := 0 to |walk|
        invariant count == JoinsIn(visits[..k])
      {
        VisitInCells(expr.cells, expr.tree, visits[k]);
        assert visits[..k + 1] == visits[..k] + [visits[k]];
        JoinsInSnoc(visits[..k], visits[k]);
        if expr.cells[walk[k]].tag.JoinTag? {
          count := count + 1;
        }
      }
      assert visits[..|walk|] == visits;
      JoinsCounted(expr.tree);
      StripMeasures(expr.tree);
    }

    /** For each SELECT, climb to the root counting SELECTs. */
    method MaxSelectDepth(expr: Expression) returns (maxDepth: nat)
      requires expr.Valid()
      ensures maxDepth == Max(1, Nesting(Strip(expr.tree)))
    {
      ghost var visits := Nodes(expr.tree);
      var walk := expr.Walk();
      maxDepth := 0;
      for k := 0 to |walk|
        invariant maxDepth == Deepest(visits[..k])
      {
        VisitInCells(expr.cells, expr.tree, visits[k]);
        assert visits[..k + 1] == visits[..k] + [visits[k]];
        DeepestSnoc(visits[..k], visits[k]);
        if expr.cells[walk[k]].tag.SelectTag? {
          var depth := Depth(expr, walk[k], visits[k]);
          maxDepth := Max(maxDepth, depth);
        }
      }
      assert visits[..|walk|] == visits;
      DeepestIsNesting(expr.tree);
      StripMeasures(expr.tree);
      if maxDepth == 0 {
        maxDepth := 1;
      }
    }

    method Depth(expr: Expression, node: nat, ghost v: Visit<nat>) returns (depth: nat)
      requires expr.Valid() && v in Nodes(expr.tree) && node == v.tree.mark
      ensures depth == 1 + SelectsAbove(v.above)
    {
      WalkPlaced(expr.cells, [Visit(expr.tree, [])]);
      assert Placed(expr.cells, v);
      depth := 1;
      var ancestor := expr.cells[node].parent;
      ghost var k := |v.above|;
      assert v.above[..k] == v.above;
      while ancestor.Some?
        invariant 0 <= k <= |v.above| && ancestor == Above(v.above[..k])
        invariant k > 0 ==> LinkAt(expr.cells, v.above, k - 1)
        invariant depth + SelectsAbove(v.above[..k]) == 1 + SelectsAbove(v.above)
        decreases k
      {
        assert v.above[..k][..k - 1] == v.above[..k - 1];
        if expr.cells[ancestor.value].tag.SelectTag? {
          depth := depth + 1;
        }
        ancestor := expr.cells[ancestor.value].parent;
        k := k - 1;
      }
    }

    method ProjectedColumns(expr: Expression) returns (count: nat)
      requires expr.Valid()
      ensures count == OuterWidth([Strip(expr.tree)])
    {
      ghost var visits := Nodes(expr.tree);
      FirstWidthIs(expr.tree);
      var walk := expr.Walk();
      for k := 0 to |walk|
        invariant forall i :: 0 <= i < k ==> !visits[i].tree.tag.SelectTag?
      {
        VisitInCells(expr.cells, expr.tree, visits[k]);
        var tag := expr.cells[walk[k]].tag;
        assert tag == visits[k].tree.tag;
        if tag.SelectTag? {
          FirstWidthSkips(visits, k);
          return tag.width;
        }
      }
      FirstWidthNone(visits);
      return 0;
    }

    method HasCartesianProduct(expr: Expression) returns (found: bool)
      requires expr.Valid()
      ensures found <==> JoinsEverything(Strip(expr.tree))
    {
      JoinsEverythingExactly(Strip(expr.tree));
      ghost var visits := Nodes(expr.tree);
      StripEverywhere(expr.tree, Conditioned());
      var walk := expr.Walk();
      for k := 0 to |walk|
        invariant forall i :: 0 <= i < k ==> !IsCartesian(visits[i].tree.tag)
      {
        VisitInCells(expr.cells, expr.tree, visits[k]);
        if IsCartesian(expr.cells[walk[k]].tag) {
          assert visits[k] in visits;
          return true;
        }
      }
      forall v | v in visits
        ensures !IsCartesian(v.tree.tag)
      {
        var i :| 0 <= i < |visits| && visits[i] == v;
      }
      return false;
    }
  }
}
