/** The base column a reference denotes in the scopes it is evaluated in is recorded. */
module LexicalCoverage {
  import opened Collections
  import opened Schemas
  import opened Syntax
  import opened Evaluator
  import opened StatementTree
  import opened Encoding
  import opened Issues
  import opened ValidatorSpec
  import opened Independence
  import opened IndependenceTheorem
  import opened Coverage

  // ----- the references evaluation meets, each with the scopes it meets it in -----

  datatype Site = Site(qualifier: string, name: string, stack: Env)

  /** Evaluating the expression for this group looks the site's name up in the site's scopes. */
  ghost predicate MeetsExpr(s: Store, ctes: Ctes, env: Env, group: seq<Frame>, e: Expr, site: Site)
    decreases e, 0
  {
    match e
    case Column(qualifier, name) => site == Site(qualifier, name, env)
    case Literal(_) => false
    case Call(_, args) => MeetsExprs(s, ctes, env, group, args, site)
    case Equals(l, r) => MeetsExpr(s, ctes, env, group, l, site) || MeetsExpr(s, ctes, env, group, r, site)
    case Both(l, r) => MeetsExpr(s, ctes, env, group, l, site) || MeetsExpr(s, ctes, env, group, r, site)
    case Either(l, r) => MeetsExpr(s, ctes, env, group, l, site) || MeetsExpr(s, ctes, env, group, r, site)
    case Negated(x) => MeetsExpr(s, ctes, env, group, x, site)
    case IsNull(x) => MeetsExpr(s, ctes, env, group, x, site)
    case Aggregate(_, x) => |env| != 0 && MeetsOperand(s, ctes, env[..|env| - 1], group, x, site)
    case CountStar => false
    case Alias(x, _) => MeetsExpr(s, ctes, env, group, x, site)
    case Exists(q) => MeetsQuery(s, ctes, env, q, site)
    case In(x, q) => MeetsExpr(s, ctes, env, group, x, site) || MeetsQuery(s, ctes, env, q, site)
    case Scalar(q) => MeetsQuery(s, ctes, env, q, site)
  }

  /** An aggregate evaluates its operand for each row of the group. */
  ghost predicate MeetsOperand(s: Store, ctes: Ctes, outer: Env, group: seq<Frame>, x: Expr, site: Site)
    decreases x, 1
  {
    exists f :: f in group && MeetsExpr(s, ctes, outer + [f], [f], x, site)
  }

  ghost predicate MeetsExprs(s: Store, ctes: Ctes, env: Env, group: seq<Frame>, es: List<Expr>, site: Site)
    decreases es, 0
  {
    es.Cons? && (MeetsExpr(s, ctes, env, group, es.head, site) || MeetsExprs(s, ctes, env, group, es.tail, site))
  }

  ghost predicate MeetsCondition(s: Store, ctes: Ctes, env: Env, group: seq<Frame>, c: Option<Expr>, site: Site)
    decreases c, 1
  {
    c.Some? && MeetsExpr(s, ctes, env, group, c.value, site)
  }

  ghost predicate MeetsSource(s: Store, ctes: Ctes, env: Env, source: Source, site: Site)
    decreases source, 0
  {
    source.Derived? && MeetsQuery(s, ctes, env, source.query, site)
  }

  /** A join condition is evaluated for each pair of joined rows. */
  ghost predicate MeetsJoin(s: Store, ctes: Ctes, env: Env, ls: seq<Frame>, rs: seq<Binding>, on: Option<Expr>,
                            site: Site)
    decreases on, 2
  {
    exists l, r :: l in ls && r in rs && MeetsCondition(s, ctes, env + [l + [r]], [l + [r]], on, site)
  }

  ghost predicate MeetsFrom(s: Store, ctes: Ctes, env: Env, from: From, site: Site)
    decreases from, 0
  {
    match from
    case Nowhere => false
    case Single(source) => MeetsSource(s, ctes, env, source, site)
    case Joined(left, _, right, on) =>
      || MeetsFrom(s, ctes, env, left, site) || MeetsSource(s, ctes, env, right, site)
      || MeetsJoin(s, ctes, env, EvalFrom(s, ctes, env, left), EvalSource(s, ctes, env, right), on, site)
  }

  ghost predicate MeetsCtes(s: Store, ctes: Ctes, env: Env, list: List<Cte>, site: Site)
    decreases list, 0
  {
    match list
    case Nil => false
    case Cons(cte, rest) =>
      var relation := Relation(Header(cte.query), EvalQuery(s, ctes, env, cte.query));
      MeetsQuery(s, ctes, env, cte.query, site) || MeetsCtes(s, ctes[cte.name := relation], env, rest, site)
  }

  ghost predicate MeetsWhere(s: Store, ctes: Ctes, env: Env, frames: seq<Frame>, where: Option<Expr>, site: Site)
    decreases where, 2
  {
    exists f :: f in frames && MeetsCondition(s, ctes, env + [f], [f], where, site)
  }

  /** Grouping keys, and the output columns they may stand for, are evaluated for each row. */
  ghost predicate MeetsRows(s: Store, ctes: Ctes, env: Env, frames: seq<Frame>, es: List<Expr>, site: Site)
    decreases es, 1
  {
    exists f :: f in frames && MeetsExprs(s, ctes, env + [f], [f], es, site)
  }

  /** HAVING, the output columns and the sort keys are evaluated for each group. */
  ghost predicate MeetsHaving(s: Store, ctes: Ctes, env: Env, blank: Frame, groups: seq<seq<Frame>>, c: Option<Expr>,
                              site: Site)
    decreases c, 2
  {
    exists g :: g in groups && MeetsCondition(s, ctes, env + [Representative(g, blank)], g, c, site)
  }

  ghost predicate MeetsGroups(s: Store, ctes: Ctes, env: Env, blank: Frame, groups: seq<seq<Frame>>, es: List<Expr>,
                              site: Site)
    decreases es, 1
  {
    exists g :: g in groups && MeetsExprs(s, ctes, env + [Representative(g, blank)], g, es, site)
  }

  ghost function KeptRows(s: Store, ctes: Ctes, env: Env, q: Query): seq<Frame>
    requires q.Select?
  {
    Filter(EvalFrom(s, ctes, env, q.from), RowTest(s, ctes, env, q.where))
  }

  ghost function GroupsOf(s: Store, ctes: Ctes, env: Env, q: Query): seq<seq<Frame>>
    requires q.Select?
  {
    Groups(KeptRows(s, ctes, env, q), GroupKey(s, ctes, env, q), q.grouping == Grouped(Nil))
  }

  ghost predicate MeetsClauses(s: Store, ctes: Ctes, env: Env, q: Query, site: Site)
    requires q.Select?
    decreases q, 0
  {
    var blank, groups := NullFrame(s.schema, ctes, q.from), GroupsOf(s, ctes, env, q);
    || (q.grouping.Grouped? && MeetsRows(s, ctes, env, KeptRows(s, ctes, env, q), q.grouping.keys, site))
    || (q.grouping.Grouped? && MeetsRows(s, ctes, env, KeptRows(s, ctes, env, q), q.items, site))
    || MeetsHaving(s, ctes, env, blank, groups, q.having, site)
    || MeetsGroups(s, ctes, env, blank, groups, q.items, site)
    || MeetsGroups(s, ctes, env, blank, groups, q.order, site)
  }

  ghost predicate MeetsQuery(s: Store, outer: Ctes, env: Env, q: Query, site: Site)
    decreases q, 1
  {
    var ctes := EvalCtes(s, outer, env, q.ctes);
    || MeetsCtes(s, outer, env, q.ctes, site)
    || match q
       case Select(_, _, _, from, where, _, _, _, _) =>
         || MeetsFrom(s, ctes, env, from, site)
         || MeetsWhere(s, ctes, env, EvalFrom(s, ctes, env, from), where, site)
         || MeetsClauses(s, ctes, env, q, site)
       case SetOperation(_, _, left, right, _) =>
         MeetsQuery(s, ctes, env, left, site) || MeetsQuery(s, ctes, env, right, site)
  }

  // ----- every binding in scope is known statement-wide -----

  /** The label of every base-table row in scope denotes its table statement-wide, and the reference is
      a node of the statement. */
  ghost predicate SiteKnown(k: Knowledge, site: Site) {
    AlikeFrames(k, site.stack, site.stack) && ColumnTag(site.qualifier, site.name) in k.mentioned
  }

  lemma {:induction false} MetExpr(k: Knowledge, s: Store, ctes: Ctes, env: Env, g: seq<Frame>, e: Expr, site: Site)
    requires AlikeStores(k, s, s) && AlikeFrames(k, env, env) && AlikeFrames(k, g, g) && AllOk(k, EncodeExpr(e))
    requires MeetsExpr(s, ctes, env, g, e, site)
    ensures SiteKnown(k, site)
    decreases e, 1
  {
    match e
    case Column(qualifier, name) => assert EncodeExpr(e).tag == ColumnTag(qualifier, name);
    case Call(_, args) =>
      KidsOk(k, EncodeExpr(e));
      MetExprs(k, s, ctes, env, g, args, site);
    case Equals(_, _) => MetBinary(k, s, ctes, env, g, e, site);
    case Both(_, _) => MetBinary(k, s, ctes, env, g, e, site);
    case Either(_, _) => MetBinary(k, s, ctes, env, g, e, site);
    case Negated(_) => MetUnary(k, s, ctes, env, g, e, site);
    case IsNull(_) => MetUnary(k, s, ctes, env, g, e, site);
    case Aggregate(_, x) => AgreeOne(k, e, x); MetOperand(k, s, ctes, env[..|env| - 1], g, x, site);
    case Alias(_, _) => MetUnary(k, s, ctes, env, g, e, site);
    case Exists(_) => MetSubquery(k, s, ctes, env, g, e, site);
    case In(_, _) => MetSubquery(k, s, ctes, env, g, e, site);
    case Scalar(_) => MetSubquery(k, s, ctes, env, g, e, site);
  }

  lemma {:induction false} MetBinary(k: Knowledge, s: Store, ctes: Ctes, env: Env, g: seq<Frame>, e: Expr, site: Site)
    requires AlikeStores(k, s, s) && AlikeFrames(k, env, env) && AlikeFrames(k, g, g) && AllOk(k, EncodeExpr(e))
    requires e.Equals? || e.Both? || e.Either?
    requires MeetsExpr(s, ctes, env, g, e, site)
    ensures SiteKnown(k, site)
    decreases e, 0
  {
    AgreeTwo(k, e, e.left, e.right);
    if MeetsExpr(s, ctes, env, g, e.left, site) {
      MetExpr(k, s, ctes, env, g, e.left, site);
    } else {
      MetExpr(k, s, ctes, env, g, e.right, site);
    }
  }

  lemma {:induction false} MetUnary(k: Knowledge, s: Store, ctes: Ctes, env: Env, g: seq<Frame>, e: Expr, site: Site)
    requires AlikeStores(k, s, s) && AlikeFrames(k, env, env) && AlikeFrames(k, g, g) && AllOk(k, EncodeExpr(e))
    requires e.Negated? || e.IsNull? || e.Alias?
    requires MeetsExpr(s, ctes, env, g, e, site)
    ensures SiteKnown(k, site)
    decreases e, 0
  {
    AgreeOne(k, e, e.operand);
    MetExpr(k, s, ctes, env, g, e.operand, site);
  }

  lemma {:induction false} MetSubquery(k: Knowledge, s: Store, ctes: Ctes, env: Env, g: seq<Frame>, e: Expr,
                                       site: Site)
    requires AlikeStores(k, s, s) && AlikeFrames(k, env, env) && AlikeFrames(k, g, g) && AllOk(k, EncodeExpr(e))
    requires e.Exists? || e.In? || e.Scalar?
    requires MeetsExpr(s, ctes, env, g, e, site)
    ensures SiteKnown(k, site)
    decreases e, 0
  {
    SubqueryOk(k, e);
    if e.In? && MeetsExpr(s, ctes, env, g, e.operand, site) {
      MetExpr(k, s, ctes, env, g, e.operand, site);
    } else {
      MetQuery(k, s, ctes, env, e.query, site);
    }
  }

  lemma {:induction false} MetOperand(k: Knowledge, s: Store, ctes: Ctes, outer: Env, g: seq<Frame>, x: Expr,
                                      site: Site)
    requires AlikeStores(k, s, s) && AlikeFrames(k, outer, outer) && AlikeFrames(k, g, g) && AllOk(k, EncodeExpr(x))
    requires MeetsOperand(s, ctes, outer, g, x, site)
    ensures SiteKnown(k, site)
    decreases x, 2
  {
    var f :| f in g && MeetsExpr(s, ctes, outer + [f], [f], x, site);
    MemberAlike(k, g, f);
    AlikeExtended(k, outer, outer, f, f);
    MetExpr(k, s, ctes, outer + [f], [f], x, site);
  }

  lemma MemberAlike(k: Knowledge, fs: seq<Frame>, f: Frame)
    requires AlikeFrames(k, fs, fs) && f in fs
    ensures AlikeFrame(k, f, f)
  {
  }

  lemma {:induction false} MetExprs(k: Knowledge, s: Store, ctes: Ctes, env: Env, g: seq<Frame>, es: List<Expr>,
                                    site: Site)
    requires AlikeStores(k, s, s) && AlikeFrames(k, env, env) && AlikeFrames(k, g, g) && ListOk(k, es)
    requires MeetsExprs(s, ctes, env, g, es, site)
    ensures SiteKnown(k, site)
    decreases es, 0
  {
    ListOkCons(k, es);
    if MeetsExpr(s, ctes, env, g, es.head, site) {
      MetExpr(k, s, ctes, env, g, es.head, site);
    } else {
      MetExprs(k, s, ctes, env, g, es.tail, site);
    }
  }

  lemma {:induction false} MetCondition(k: Knowledge, s: Store, ctes: Ctes, env: Env, g: seq<Frame>, c: Option<Expr>,
                                        site: Site)
    requires AlikeStores(k, s, s) && AlikeFrames(k, env, env) && AlikeFrames(k, g, g) && ConditionOk(k, c)
    requires MeetsCondition(s, ctes, env, g, c, site)
    ensures SiteKnown(k, site)
    decreases c, 1
  {
    assert EncodeExpr(c.value) in EncodeCondition(c);
    MetExpr(k, s, ctes, env, g, c.value, site);
  }

  lemma {:induction false} MetSource(k: Knowledge, s: Store, ctes: Ctes, env: Env, source: Source, site: Site)
    requires AlikeStores(k, s, s) && AlikeFrames(k, env, env) && SourceOk(k, source)
    requires MeetsSource(s, ctes, env, source, site)
    ensures SiteKnown(k, site)
    decreases source, 0
  {
    assert EncodeSource(source).kids[0] == EncodeQuery(source.query);
    MetQuery(k, s, ctes, env, source.query, site);
  }

  lemma {:induction false} MetJoin(k: Knowledge, s: Store, ctes: Ctes, env: Env, ls: seq<Frame>, rs: seq<Binding>,
                                   on: Option<Expr>, site: Site)
    requires AlikeStores(k, s, s) && AlikeFrames(k, env, env) && ConditionOk(k, on)
    requires AlikeFrames(k, ls, ls) && AlikeBindings(k, rs, rs) && MeetsJoin(s, ctes, env, ls, rs, on, site)
    ensures SiteKnown(k, site)
    decreases on, 2
  {
    var l, r :| l in ls && r in rs && MeetsCondition(s, ctes, env + [l + [r]], [l + [r]], on, site);
    MemberAlike(k, ls, l);
    AlikeSnoc(k, l, l, r, r);
    AlikeExtended(k, env, env, l + [r], l + [r]);
    MetCondition(k, s, ctes, env + [l + [r]], [l + [r]], on, site);
  }

  lemma {:induction false} MetFrom(k: Knowledge, s: Store, ctes: Ctes, env: Env, from: From, site: Site)
    requires AlikeStores(k, s, s) && AlikeFrames(k, env, env) && FromOk(k, from)
    requires MeetsFrom(s, ctes, env, from, site)
    ensures SiteKnown(k, site)
    decreases from, 0
  {
    match from
    case Single(source) => MetSource(k, s, ctes, env, source, site);
    case Joined(left, _, right, on) =>
      if MeetsFrom(s, ctes, env, left, site) {
        MetFrom(k, s, ctes, env, left, site);
      } else if MeetsSource(s, ctes, env, right, site) {
        MetSource(k, s, ctes, env, right, site);
      } else {
        AgreeFrom(k, s, s, ctes, env, env, left);
        AgreeSource(k, s, s, ctes, env, env, right);
        MetJoin(k, s, ctes, env, EvalFrom(s, ctes, env, left), EvalSource(s, ctes, env, right), on, site);
      }
  }

  lemma {:induction false} MetCtes(k: Knowledge, s: Store, ctes: Ctes, env: Env, list: List<Cte>, site: Site)
    requires AlikeStores(k, s, s) && AlikeFrames(k, env, env) && CtesOk(k, list)
    requires MeetsCtes(s, ctes, env, list, site)
    ensures SiteKnown(k, site)
    decreases list, 0
  {
    if MeetsQuery(s, ctes, env, list.head.query, site) {
      MetQuery(k, s, ctes, env, list.head.query, site);
    } else {
      var relation := Relation(Header(list.head.query), EvalQuery(s, ctes, env, list.head.query));
      MetCtes(k, s, ctes[list.head.name := relation], env, list.tail, site);
    }
  }

  lemma {:induction false} MetWhere(k: Knowledge, s: Store, ctes: Ctes, env: Env, frames: seq<Frame>,
                                    where: Option<Expr>, site: Site)
    requires AlikeStores(k, s, s) && AlikeFrames(k, env, env) && AlikeFrames(k, frames, frames)
    requires ConditionOk(k, where) && MeetsWhere(s, ctes, env, frames, where, site)
    ensures SiteKnown(k, site)
    decreases where, 2
  {
    var f :| f in frames && MeetsCondition(s, ctes, env + [f], [f], where, site);
    MemberAlike(k, frames, f);
    AlikeExtended(k, env, env, f, f);
    MetCondition(k, s, ctes, env + [f], [f], where, site);
  }

  lemma {:induction false} MetRows(k: Knowledge, s: Store, ctes: Ctes, env: Env, frames: seq<Frame>, es: List<Expr>,
                                   site: Site)
    requires AlikeStores(k, s, s) && AlikeFrames(k, env, env) && AlikeFrames(k, frames, frames)
    requires ListOk(k, es) && MeetsRows(s, ctes, env, frames, es, site)
    ensures SiteKnown(k, site)
    decreases es, 1
  {
    var f :| f in frames && MeetsExprs(s, ctes, env + [f], [f], es, site);
    MemberAlike(k, frames, f);
    AlikeExtended(k, env, env, f, f);
    MetExprs(k, s, ctes, env + [f], [f], es, site);
  }

  lemma {:induction false} MetHaving(k: Knowledge, s: Store, ctes: Ctes, env: Env, blank: Frame,
                                     groups: seq<seq<Frame>>, c: Option<Expr>, site: Site)
    requires AlikeStores(k, s, s) && AlikeFrames(k, env, env) && AlikeFrame(k, blank, blank)
    requires AlikeGroups(k, groups, groups) && ConditionOk(k, c) && MeetsHaving(s, ctes, env, blank, groups, c, site)
    ensures SiteKnown(k, site)
    decreases c, 2
  {
    var g :| g in groups && MeetsCondition(s, ctes, env + [Representative(g, blank)], g, c, site);
    RepresentativeAlike(k, g, g, blank);
    AlikeExtended(k, env, env, Representative(g, blank), Representative(g, blank));
    MetCondition(k, s, ctes, env + [Representative(g, blank)], g, c, site);
  }

  lemma {:induction false} MetGroups(k: Knowledge, s: Store, ctes: Ctes, env: Env, blank: Frame,
                                     groups: seq<seq<Frame>>, es: List<Expr>, site: Site)
    requires AlikeStores(k, s, s) && AlikeFrames(k, env, env) && AlikeFrame(k, blank, blank)
    requires AlikeGroups(k, groups, groups) && ListOk(k, es) && MeetsGroups(s, ctes, env, blank, groups, es, site)
    ensures SiteKnown(k, site)
    decreases es, 1
  {
    var g :| g in groups && MeetsExprs(s, ctes, env + [Representative(g, blank)], g, es, site);
    RepresentativeAlike(k, g, g, blank);
    AlikeExtended(k, env, env, Representative(g, blank), Representative(g, blank));
    MetExprs(k, s, ctes, env + [Representative(g, blank)], g, es, site);
  }

  /** The rows WHERE keeps and the groups they form consist of known rows. */
  lemma {:induction false} KeptKnown(k: Knowledge, s: Store, ctes: Ctes, env: Env, q: Query)
    requires q.Select? && AlikeStores(k, s, s) && AlikeFrames(k, env, env) && AllOk(k, EncodeQuery(q))
    ensures AlikeFrames(k, KeptRows(s, ctes, env, q), KeptRows(s, ctes, env, q))
    ensures AlikeGroups(k, GroupsOf(s, ctes, env, q), GroupsOf(s, ctes, env, q))
  {
    SelectParts(k, q);
    AgreeFrom(k, s, s, ctes, env, env, q.from);
    AgreeCondition(k, s, s, ctes, q.where);
    RowTestsAgree(k, s, s, ctes, env, env, q.where);
    var rows, test := EvalFrom(s, ctes, env, q.from), RowTest(s, ctes, env, q.where);
    FilterAlike(k, rows, rows, test, test);
    AgreeList(k, s, s, ctes, q.items);
    if q.grouping.Grouped? {
      AgreeList(k, s, s, ctes, q.grouping.keys);
    }
    GroupKeyAgrees(k, s, s, ctes, env, env, q);
    var key := GroupKey(s, ctes, env, q);
    GroupsAlike(k, Filter(rows, test), Filter(rows, test), key, key, q.grouping == Grouped(Nil));
  }

  lemma {:induction false} MetClauses(k: Knowledge, s: Store, ctes: Ctes, env: Env, q: Query, site: Site)
    requires q.Select? && AlikeStores(k, s, s) && AlikeFrames(k, env, env) && AllOk(k, EncodeQuery(q))
    requires MeetsClauses(s, ctes, env, q, site)
    ensures SiteKnown(k, site)
    decreases q, 0
  {
    var blank, groups := NullFrame(s.schema, ctes, q.from), GroupsOf(s, ctes, env, q);
    var rows := KeptRows(s, ctes, env, q);
    SelectParts(k, q);
    NullFrameAlike(k, ctes, q.from);
    KeptKnown(k, s, ctes, env, q);
    if q.grouping.Grouped? && MeetsRows(s, ctes, env, rows, q.grouping.keys, site) {
      MetRows(k, s, ctes, env, rows, q.grouping.keys, site);
    } else if q.grouping.Grouped? && MeetsRows(s, ctes, env, rows, q.items, site) {
      MetRows(k, s, ctes, env, rows, q.items, site);
    } else if MeetsHaving(s, ctes, env, blank, groups, q.having, site) {
      MetHaving(k, s, ctes, env, blank, groups, q.having, site);
    } else if MeetsGroups(s, ctes, env, blank, groups, q.items, site) {
      MetGroups(k, s, ctes, env, blank, groups, q.items, site);
    } else {
      MetGroups(k, s, ctes, env, blank, groups, q.order, site);
    }
  }

  lemma {:induction false} MetQuery(k: Knowledge, s: Store, outer: Ctes, env: Env, q: Query, site: Site)
    requires AlikeStores(k, s, s) && AlikeFrames(k, env, env) && AllOk(k, EncodeQuery(q))
    requires MeetsQuery(s, outer, env, q, site)
    ensures SiteKnown(k, site)
    decreases q, 1
  {
    var ctes := EvalCtes(s, outer, env, q.ctes);
    match q
    case Select(list, _, _, from, where, _, _, _, _) =>
      SelectParts(k, q);
      if MeetsCtes(s, outer, env, list, site) {
        MetCtes(k, s, outer, env, list, site);
      } else if MeetsFrom(s, ctes, env, from, site) {
        MetFrom(k, s, ctes, env, from, site);
      } else if MeetsWhere(s, ctes, env, EvalFrom(s, ctes, env, from), where, site) {
        AgreeFrom(k, s, s, ctes, env, env, from);
        MetWhere(k, s, ctes, env, EvalFrom(s, ctes, env, from), where, site);
      } else {
        MetClauses(k, s, ctes, env, q, site);
      }
    case SetOperation(list, _, left, right, _) =>
      SetParts(k, q);
      if MeetsCtes(s, outer, env, list, site) {
        MetCtes(k, s, outer, env, list, site);
      } else if MeetsQuery(s, ctes, env, left, site) {
        MetQuery(k, s, ctes, env, left, site);
      } else {
        MetQuery(k, s, ctes, env, right, site);
      }
  }

  // ----- what a known site denotes is recorded -----

  /** Whatever scope answers, the binding found is known statement-wide. */
  lemma {:induction false} ResolvedKnown(k: Knowledge, env: Env, qualifier: string, column: string)
    requires AlikeFrames(k, env, env) && Resolve(env, qualifier, column).Some?
    ensures var b := Resolve(env, qualifier, column).value;
      AlikeBinding(k, b, b) && (qualifier != "" ==> b.name == qualifier)
  {
    var f := env[|env| - 1];
    FindAlike(k, f, f, qualifier, column);
    var hit := if qualifier != "" then FindLabel(f, qualifier) else FindOwner(f, column);
    if hit.None? {
      ResolvedKnown(k, env[..|env| - 1], qualifier, column);
    }
  }

  function AnyColumn(): (TableInfo, string) -> bool {
    (info: TableInfo, column: string) => true
  }

  /** Where evaluation meets a reference to a base column, the statement-wide maps know its table, unless a
      CTE or derived table bears a name of the table. */
  lemma {:induction false} MetKnown(c: Config, schema: Schema, q: Query, s: Store, site: Site, info: TableInfo)
    requires WellNamed(schema) && FairShuffle(c) && TablesNamed(Tags(EncodeQuery(q))) && s.schema == schema
    requires MeetsQuery(s, map[], [], q, site) && Denoted(site) == Some(info)
    ensures ColumnTag(site.qualifier, site.name) in Tags(EncodeQuery(q))
    ensures var names := NamesOf(c, schema, Tags(EncodeQuery(q)));
      || (exists name :: name in names.virtuals && schema.Table(name) == Some(info))
      || (info in names.infos &&
          (site.qualifier != "" ==>
             site.qualifier in names.aliases && info in Known(schema, names.aliases[site.qualifier])))
  {
    var tags := Tags(EncodeQuery(q));
    var k := Knowledge(schema, NamesOf(c, schema, tags), ColumnTags(tags), AnyColumn());
    MentionedAllOk(c, k, EncodeQuery(q));
    MetQuery(k, s, map[], [], q, site);
    ResolvedKnown(k, site.stack, site.qualifier, site.name);
  }

  /** Through every nesting of scopes and every reuse of an alias: the base column that a reference
      denotes where it is evaluated is recorded, unless a CTE or derived table has a name of the table or
      the qualifier as its own, or the reference is unqualified and ambiguous or an output alias. */
  lemma {:induction false} LexicallyCovered(c: Config, schema: Schema, q: Query, s: Store, site: Site, info: TableInfo)
    requires WellNamed(schema) && FairShuffle(c) && TablesNamed(Tags(EncodeQuery(q))) && s.schema == schema
    requires MeetsQuery(s, map[], [], q, site) && Denoted(site) == Some(info)
    requires forall name :: name in Virtuals(Tags(EncodeQuery(q))) ==> schema.Table(name) != Some(info)
    requires site.qualifier !in Virtuals(Tags(EncodeQuery(q)))
    requires Unambiguous(NamesOf(c, schema, Tags(EncodeQuery(q))), ColumnTag(site.qualifier, site.name))
    ensures Reference(info.name, site.name) in ReferencedColumns(c, schema, EncodeQuery(q))
  {
    var tags := Tags(EncodeQuery(q));
    MetKnown(c, schema, q, s, site, info);
    InfoNamed(c, schema, tags, info, site.name);
    DenotedRecorded(schema, NamesOf(c, schema, tags), tags, ColumnTag(site.qualifier, site.name), info);
  }

  /** The base table whose column the reference denotes, if it denotes one. */
  function Denoted(site: Site): Option<TableInfo> {
    match Resolve(site.stack, site.qualifier, site.name)
    case Some(b) => if b.origin.Some? && b.origin.value.HasColumn(site.name) then b.origin else None
    case None => None
  }

  lemma InfoNamed(c: Config, schema: Schema, tags: seq<Tag>, info: TableInfo, column: string)
    requires WellNamed(schema) && info in NamesOf(c, schema, tags).infos && info.HasColumn(column)
    ensures column != "" && column != "*"
  {
    KnownInSchema(schema, c.shuffle(Map(ScanTables(c, schema, Virtuals(tags), tags).tables, BareName)), info);
  }

  lemma {:induction false} MentionedAllOk(c: Config, k: Knowledge, t: Statement)
    requires WellNamed(k.schema) && FairShuffle(c) && TablesNamed(Tags(t))
    requires k.names == NamesOf(c, k.schema, Tags(t)) && k.mentioned == ColumnTags(Tags(t))
    requires k.readable == AnyColumn()
    ensures AllOk(k, t)
  {
    forall tag | tag in Tags(t)
      ensures TagOk(k, tag)
    {
      if tag.TableTag? {
        TableTagOk(c, k.schema, k, Tags(t), tag);
      }
    }
    assert Has(t, t);
    AllTagsOk(k, t, t);
  }
}
