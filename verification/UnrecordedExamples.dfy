/** Four statements that validation and policy accept although their results are a column that is not
    recorded. */
module UnrecordedExamples {
  import opened Collections
  import opened Values
  import opened Schemas
  import opened Syntax
  import opened Evaluator
  import opened StatementTree
  import opened Encoding
  import opened Issues
  import opened ValidatorSpec
  import opened Policy
  import opened Coverage
  import opened TreeRewrite
  import opened TreeFacts
  import opened Revalidation
  import opened UnrecordedColumns

  // ----- the names in simple statements -----

  predicate IsSimple(q: Query) {
    && q.Select? && !q.distinct && q.from.Single? && q.grouping.PerRow? && q.having.None? && q.order.Nil?
    && q.limit.NoLimit?
  }

  lemma {:induction false} ConsTags(t: Statement, ts: seq<Statement>)
    ensures NamingTagsAll([t] + ts) == NamingTags(t) + NamingTagsAll(ts)
  {
    assert ([t] + ts)[1..] == ts;
  }

  lemma {:induction false} OneTag(t: Statement)
    ensures NamingTagsAll([t]) == NamingTags(t)
  {
    ConsTags(t, []);
    assert [t] + [] == [t];
  }

  lemma {:induction false} ItemTags(e: Expr)
    ensures NamingTagsAll(EncodeExprs(Cons(e, Nil))) == NamingTags(EncodeExpr(e))
  {
    OneTag(EncodeExpr(e));
    assert EncodeExprs(Cons(e, Nil)) == [EncodeExpr(e)];
  }

  /** A node around one other, and one around none. */
  lemma {:induction false} AroundTags(tag: Tag, kid: Statement)
    ensures NamingTags(Leaf(tag)) == if Naming(tag) then {tag} else {}
    ensures NamingTags(Parent(tag, [kid])) == (if Naming(tag) then {tag} else {}) + NamingTags(kid)
  {
    OneTag(kid);
    assert NamingTagsAll([]) == {};
  }

  lemma {:induction false} FiveTags(a: Statement, b: Statement, c: Statement, d: Statement, e: Statement)
    requires NamingTags(c) == NamingTags(d) == NamingTags(e) == {}
    ensures NamingTagsAll([a, b, c, d, e]) == NamingTags(a) + NamingTags(b)
  {
    OneTag(e);
    ConsTags(d, [e]);
    ConsTags(c, [d] + [e]);
    ConsTags(b, [c] + ([d] + [e]));
    ConsTags(a, [b] + ([c] + ([d] + [e])));
    assert [a] + ([b] + ([c] + ([d] + [e]))) == [a, b, c, d, e];
  }

  /** An empty clause holder names nothing; one with children names what they name. */
  lemma {:induction false} HolderTags(tag: Tag, kids: seq<Statement>)
    requires !Naming(tag)
    ensures NamingTags(Parent(tag, kids)) == NamingTagsAll(kids)
  {
  }

  lemma {:induction false} ClauseTags(q: Query)
    requires IsSimple(q)
    ensures NamingTagsAll(Clauses(q)) == NamingTagsAll(EncodeCondition(q.where)) + NamingTagsAll(EncodeCtes(q.ctes))
  {
    HolderTags(WhereTag, EncodeCondition(q.where));
    HolderTags(WithTag, EncodeCtes(q.ctes));
    HolderTags(GroupTag(q.grouping.Grouped?), EncodeGrouping(q.grouping));
    HolderTags(HavingTag, EncodeCondition(q.having));
    HolderTags(OrderTag, EncodeExprs(q.order));
    assert NamingTagsAll([]) == {};
    FiveTags(Clauses(q)[0], Clauses(q)[1], Clauses(q)[2], Clauses(q)[3], Clauses(q)[4]);
  }

  lemma {:induction false} SimpleTags(q: Query)
    requires IsSimple(q)
    ensures NamingTags(EncodeQuery(q)) == NamingTagsAll(EncodeCondition(q.where)) + NamingTagsAll(EncodeCtes(q.ctes))
                                        + NamingTags(EncodeSource(q.from.source)) + NamingTagsAll(EncodeExprs(q.items))
  {
    ClauseTags(q);
    HolderTags(FromTag, [EncodeSource(q.from.source)]);
    OneTag(EncodeSource(q.from.source));
    OneTag(EncodeFrom(q.from)[0]);
    NamingAppend(Clauses(q), EncodeFrom(q.from));
    NamingAppend(Clauses(q) + EncodeFrom(q.from), EncodeExprs(q.items));
    HolderTags(EncodeQuery(q).tag, Clauses(q) + EncodeFrom(q.from) + EncodeExprs(q.items));
  }

  lemma {:induction false} ConditionTags(c: Option<Expr>)
    ensures NamingTagsAll(EncodeCondition(c)) == if c.None? then {} else NamingTags(EncodeExpr(c.value))
  {
    if c.Some? {
      OneTag(EncodeExpr(c.value));
    }
  }

  /** One table, one item, perhaps a condition, no CTE. */
  lemma {:induction false} SelectTags(q: Query, e: Expr)
    requires IsSimple(q) && q.ctes == Nil && q.items == Cons(e, Nil) && q.from.source.Table?
    ensures NamingTags(EncodeQuery(q)) == (if q.where.None? then {} else NamingTags(EncodeExpr(q.where.value)))
                                        + {EncodeSource(q.from.source).tag} + NamingTags(EncodeExpr(e))
  {
    SimpleTags(q);
    ConditionTags(q.where);
    ItemTags(e);
    assert EncodeCtes(q.ctes) == [];
    AroundTags(EncodeSource(q.from.source).tag, EncodeExpr(e));
  }

  // ----- the rows of simple queries -----

  /** One source row that passes WHERE yields one result row. */
  lemma {:induction false} OneRow(s: Store, outer: Ctes, ctes: Ctes, env: Env, q: Query, b: Binding)
    requires IsSimple(q) && ctes == EvalCtes(s, outer, env, q.ctes)
    requires EvalSource(s, ctes, env, q.from.source) == [b] && Passes(s, ctes, env + [[b]], [[b]], q.where)
    ensures EvalQuery(s, outer, env, q) == [EvalExprs(s, ctes, env + [[b]], [[b]], q.items)]
  {
    var frames := EvalFrom(s, ctes, env, q.from);
    var blank := NullFrame(s.schema, ctes, q.from);
    assert frames == [[b]];
    assert RowTest(s, ctes, env, q.where)([b]);
    assert Filter(frames, RowTest(s, ctes, env, q.where)) == frames;
    assert Groups(frames, None, false) == [[[b]]];
    assert GroupTest(s, ctes, env, blank, q.having)([[b]]);
    assert Filter([[[b]]], GroupTest(s, ctes, env, blank, q.having)) == [[[b]]];
    assert GroupValues(s, ctes, env, blank, q.items)([[b]]) == EvalExprs(s, ctes, env + [[b]], [[b]], q.items);
    assert EvalClauses(s, ctes, env, frames, q) == [EvalExprs(s, ctes, env + [[b]], [[b]], q.items)];
  }

  lemma {:induction false} OneValue(s: Store, ctes: Ctes, env: Env, group: seq<Frame>, es: List<Expr>, e: Expr)
    requires es == Cons(e, Nil)
    ensures EvalExprs(s, ctes, env, group, es) == [EvalExpr(s, ctes, env, group, e)]
  {
    assert EvalExprs(s, ctes, env, group, es.tail) == [];
  }

  /** The same for a query with one item. */
  lemma {:induction false} OneCell(s: Store, outer: Ctes, ctes: Ctes, env: Env, q: Query, b: Binding, e: Expr)
    requires IsSimple(q) && ctes == EvalCtes(s, outer, env, q.ctes) && q.items == Cons(e, Nil)
    requires EvalSource(s, ctes, env, q.from.source) == [b] && Passes(s, ctes, env + [[b]], [[b]], q.where)
    ensures EvalQuery(s, outer, env, q) == [[EvalExpr(s, ctes, env + [[b]], [[b]], e)]]
  {
    OneRow(s, outer, ctes, env, q, b);
    OneValue(s, ctes, env + [[b]], [[b]], q.items, e);
  }

  lemma {:induction false} TableRow(s: Store, ctes: Ctes, env: Env, source: Source, info: TableInfo, row: Row)
    requires source.Table? && source.name == info.name && info.name !in ctes
    requires s.schema.Table(info.name) == Some(info) && info in s.db && s.db[info] == [row]
    ensures EvalSource(s, ctes, env, source) == [Binding(source.Label(), Some(info), info.ColumnNames(), row)]
  {
  }

  // ----- a clinic -----

  const PATIENTS: TableInfo := TableInfo("patients", "", [ColumnInfo("note", Pii)], [], None)
  const VISITS: TableInfo := TableInfo("visits", "", [ColumnInfo("note", Public)], [], None)
  const CLINIC: Schema := Schema([PATIENTS, VISITS])

  const PATIENTS_SOURCE: Source := Table("", "", "patients", "")
  const VISITS_SOURCE: Source := Table("", "", "visits", "")

  const NO_TABLE_RULES: PolicyConfig := PolicyConfig(None, {})

  /** One visit, and one patient with the given note. */
  function Clinic(note: string): Database {
    map[PATIENTS := [map["note" := Text(note)]], VISITS := [map["note" := Null]]]
  }

  lemma ClinicTables()
    ensures CLINIC.Table("patients") == Some(PATIENTS) && CLINIC.Table("visits") == Some(VISITS)
    ensures PATIENTS.HasColumn("note") && VISITS.HasColumn("note")
    ensures BareName("patients") == "patients" && BareName("visits") == "visits"
  {
    var tables := CLINIC.tables;
    assert tables[..1] == [PATIENTS] && tables[1] == VISITS;
    assert [PATIENTS][..0] == [];
    assert IndexOf([]) == map[];
    assert IndexOf([PATIENTS]) == map["patients" := PATIENTS];
    assert IndexOf(tables)["visits"] == VISITS && IndexOf(tables)["patients"] == PATIENTS;
    BareNameOf(PATIENTS);
    BareNameOf(VISITS);
  }

  lemma {:induction false} PatientRow(s: Store, ctes: Ctes, note: string)
    requires s.schema == CLINIC && s.db == Clinic(note) && ctes == map[]
    ensures EvalSource(s, ctes, [], PATIENTS_SOURCE) == [PatientBinding(note)]
    ensures Field(PatientBinding(note), "note") == Text(note)
  {
    ClinicTables();
    TableRow(s, ctes, [], PATIENTS_SOURCE, PATIENTS, map["note" := Text(note)]);
  }

  function PatientBinding(note: string): Binding {
    Binding("patients", Some(PATIENTS), PATIENTS.ColumnNames(), map["note" := Text(note)])
  }

  lemma {:induction false} NoteValue(s: Store, ctes: Ctes, note: string)
    ensures EvalExpr(s, ctes, [[PatientBinding(note)]], [[PatientBinding(note)]], Column("", "note")) == Text(note)
  {
    ClinicTables();
    assert FindOwner([PatientBinding(note)], "note") == Some(PatientBinding(note));
  }

  // ----- validation finds nothing -----

  /** No comment, no forbidden node, no star, no denied function. */
  function Ordinary(denied: set<string>): NodeTest {
    (tag: Tag, commented: bool) =>
      !commented && !tag.ForbiddenTag? && !tag.StarTag? && (tag.FunctionTag? ==> tag.name !in denied)
  }

  ghost predicate AllOrdinary(denied: set<string>, ts: seq<Statement>) {
    forall i :: 0 <= i < |ts| ==> Everywhere(ts[i], Ordinary(denied))
  }

  lemma {:induction false} OrdinaryNode(denied: set<string>, tag: Tag, kids: seq<Statement>)
    requires Ordinary(denied)(tag, false) && AllOrdinary(denied, kids)
    ensures Everywhere(Parent(tag, kids), Ordinary(denied))
  {
  }

  lemma {:induction false} OrdinarySelect(denied: set<string>, q: Query)
    requires IsSimple(q) && AllOrdinary(denied, EncodeCondition(q.where)) && AllOrdinary(denied, EncodeCtes(q.ctes))
    requires q.from.source.Table? && AllOrdinary(denied, EncodeExprs(q.items))
    ensures Everywhere(EncodeQuery(q), Ordinary(denied))
  {
    OrdinaryNode(denied, WhereTag, EncodeCondition(q.where));
    OrdinaryNode(denied, WithTag, EncodeCtes(q.ctes));
    OrdinaryNode(denied, GroupTag(q.grouping.Grouped?), EncodeGrouping(q.grouping));
    OrdinaryNode(denied, HavingTag, EncodeCondition(q.having));
    OrdinaryNode(denied, OrderTag, EncodeExprs(q.order));
    OrdinaryNode(denied, EncodeSource(q.from.source).tag, []);
    OrdinaryNode(denied, FromTag, [EncodeSource(q.from.source)]);
    assert AllOrdinary(denied, Clauses(q)) && AllOrdinary(denied, EncodeFrom(q.from));
    OrdinaryNode(denied, EncodeQuery(q).tag, Clauses(q) + EncodeFrom(q.from) + EncodeExprs(q.items));
  }

  predicate ClinicTable(tag: Tag) {
    tag.TableTag? && tag.catalog == "" && tag.db == "" && (tag.name == "patients" || tag.name == "visits")
  }

  /** A statement over the clinic's tables whose only column is `note`. */
  ghost predicate ClinicTags(tags: seq<Tag>) {
    forall tag :: tag in tags && Naming(tag) ==>
      && (tag.TableTag? ==> ClinicTable(tag))
      && (tag.ColumnTag? ==> tag.name == "note" && (tag.qualifier == "" || tag.qualifier in Virtuals(tags)))
  }

  lemma {:induction false} ClinicAccepted(c: Config, t: Statement)
    requires t.tag.SelectTag? && Everywhere(t, Ordinary(c.denylist)) && ClinicTags(Tags(t))
    ensures Findings(c, CLINIC, t) == []
  {
    EverywhereWalked(t, Ordinary(c.denylist));
    forall tag | tag in Tags(t) && tag.ColumnTag?
      ensures ColumnKnown(CLINIC, NamesOf(c, CLINIC, Tags(t)), tag)
    {
      NoteKnown(c, Tags(t), tag);
    }
    forall tag | tag in Tags(t) && Considered(tag, Virtuals(Tags(t)))
      ensures TableAllowed(c, CLINIC, tag)
    {
      ClinicAllowed(c, tag);
    }
    FindingsClean(c, CLINIC, t);
  }

  lemma ClinicAllowed(c: Config, tag: Tag)
    requires ClinicTable(tag)
    ensures TableAllowed(c, CLINIC, tag)
  {
    ClinicTables();
    NotSystem(tag.name);
  }

  lemma NotSystem(name: string)
    requires name == "patients" || name == "visits"
    ensures !IsSystemTable(name)
  {
    assert name[0] != 's' && (name[0] == 'p' ==> name[1] == 'a');
    assert "pg_"[0] == 'p' && "pg_"[1] == 'g' && "sqlite_"[0] == 's';
  }

  lemma NoteKnown(c: Config, tags: seq<Tag>, tag: Tag)
    requires tag.ColumnTag? && tag.name == "note" && (tag.qualifier == "" || tag.qualifier in Virtuals(tags))
    ensures ColumnKnown(CLINIC, NamesOf(c, CLINIC, tags), tag)
  {
    var infos := NamesOf(c, CLINIC, tags).infos;
    ClinicTables();
    if |infos| != 0 {
      KnownInSchema(CLINIC, c.shuffle(Map(ScanTables(c, CLINIC, Virtuals(tags), tags).tables, BareName)), infos[0]);
      assert infos[0] == PATIENTS || infos[0] == VISITS;
      assert infos[0] in infos;
    }
  }

  // ----- SELECT note AS note FROM patients -----

  const ALIASED_NOTE: Query :=
    Select(Nil, false, Cons(Alias(Column("", "note"), "note"), Nil), Single(PATIENTS_SOURCE), None, PerRow, None, Nil,
           NoLimit)

  lemma {:induction false} AliasedTags(q: Query, column: string, alias: string)
    requires IsSimple(q) && q.ctes == Nil && q.where == None && q.from.source.Table?
    requires q.items == Cons(Alias(Column("", column), alias), Nil)
    ensures NamingTags(EncodeQuery(q)) == {EncodeSource(q.from.source).tag, AliasTag(alias), ColumnTag("", column)}
  {
    SelectTags(q, q.items.head);
    AroundTags(AliasTag(alias), Leaf(ColumnTag("", column)));
    AroundTags(ColumnTag("", column), Leaf(WhereTag));
  }

  lemma {:induction false} AliasedNoteNodes(tag: Tag)
    requires Naming(tag)
    ensures tag in Tags(EncodeQuery(ALIASED_NOTE)) <==>
      tag in {TableTag("", "", "patients", ""), AliasTag("note"), ColumnTag("", "note")}
  {
    AliasedTags(ALIASED_NOTE, "note", "note");
    TagsAre(EncodeQuery(ALIASED_NOTE), tag);
  }

  lemma {:induction false} AliasAccepted(c: Config)
    ensures Findings(c, CLINIC, EncodeQuery(ALIASED_NOTE)) == []
  {
    var denied := c.denylist;
    OrdinaryNode(denied, ColumnTag("", "note"), []);
    OrdinaryNode(denied, AliasTag("note"), [Leaf(ColumnTag("", "note"))]);
    OrdinarySelect(denied, ALIASED_NOTE);
    forall tag | tag in Tags(EncodeQuery(ALIASED_NOTE)) && Naming(tag)
      ensures tag in {TableTag("", "", "patients", ""), AliasTag("note"), ColumnTag("", "note")}
    {
      AliasedNoteNodes(tag);
    }
    ClinicAccepted(c, EncodeQuery(ALIASED_NOTE));
  }

  /** The output alias hides the only column the statement reads: it is accepted, nothing is recorded and
      every role is permitted, ... */
  lemma {:induction false} AliasRecordsNothing(c: Config, roles: set<string>)
    ensures Findings(c, CLINIC, EncodeQuery(ALIASED_NOTE)) == []
    ensures ReferencedColumns(c, CLINIC, EncodeQuery(ALIASED_NOTE)) == []
    ensures Permitted(NO_TABLE_RULES, CLINIC, roles, ReferencedTables(c, CLINIC, EncodeQuery(ALIASED_NOTE)),
                      ReferencedColumns(c, CLINIC, EncodeQuery(ALIASED_NOTE)))
  {
    var tags := Tags(EncodeQuery(ALIASED_NOTE));
    var names := NamesOf(c, CLINIC, tags);
    AliasAccepted(c);
    forall tag | tag in tags && tag.ColumnTag?
      ensures tag == ColumnTag("", "note")
    {
      AliasedNoteNodes(tag);
    }
    AliasedNoteNodes(AliasTag("note"));
    assert "note" in names.outputs by {
      assert AliasTag("note") in tags;
    }
    AliasedUnrecorded(CLINIC, names, tags);
  }

  /** ... but the result is the personal column. */
  lemma {:induction false} AliasReadsNote(s: Store, note: string)
    requires s.schema == CLINIC && s.db == Clinic(note)
    ensures EvalQuery(s, map[], [], ALIASED_NOTE) == [[Text(note)]]
  {
    var b := PatientBinding(note);
    PatientRow(s, map[], note);
    OneCell(s, map[], map[], [], ALIASED_NOTE, b, ALIASED_NOTE.items.head);
    NoteValue(s, map[], note);
    AliasValue(s, map[], [[b]], [[b]], Column("", "note"), "note");
    assert [] + [[b]] == [[b]];
  }

  lemma {:induction false} AliasValue(s: Store, ctes: Ctes, env: Env, group: seq<Frame>, e: Expr, name: string)
    ensures EvalExpr(s, ctes, env, group, Alias(e, name)) == EvalExpr(s, ctes, env, group, e)
  {
  }

  // ----- SELECT note FROM patients WHERE EXISTS (SELECT 1 FROM visits) -----

  const ANY_VISIT: Query :=
    Select(Nil, false, Cons(Literal(Number(1)), Nil), Single(VISITS_SOURCE), None, PerRow, None, Nil, NoLimit)

  const NOTE_BESIDE_VISITS: Query :=
    Select(Nil, false, Cons(Column("", "note"), Nil), Single(PATIENTS_SOURCE), Some(Exists(ANY_VISIT)), PerRow, None,
           Nil, NoLimit)

  /** One order in which a set of the two names may be iterated. */
  function VisitsFirst(): seq<string> -> seq<string> {
    (xs: seq<string>) => if xs == ["patients", "visits"] then ["visits", "patients"] else xs
  }

  const VISITS_FIRST: Config := Config({}, false, {}, VisitsFirst())

  lemma VisitsFirstFair()
    ensures FairShuffle(VISITS_FIRST)
  {
  }

  lemma {:induction false} BesideTags(q: Query, sub: Query, column: string, v: Value)
    requires IsSimple(q) && q.ctes == Nil && q.where == Some(Exists(sub)) && q.from.source.Table?
    requires IsSimple(sub) && sub.ctes == Nil && sub.where == None && sub.from.source.Table?
    requires q.items == Cons(Column("", column), Nil) && sub.items == Cons(Literal(v), Nil)
    ensures NamingTags(EncodeQuery(q))
         == {EncodeSource(sub.from.source).tag, EncodeSource(q.from.source).tag, ColumnTag("", column)}
  {
    SelectTags(sub, sub.items.head);
    AroundTags(LiteralTag(v), Leaf(WhereTag));
    ExistsTags(sub);
    SelectTags(q, q.items.head);
    AroundTags(ColumnTag("", column), Leaf(WhereTag));
  }

  lemma {:induction false} ExistsTags(sub: Query)
    ensures NamingTags(EncodeExpr(Exists(sub))) == NamingTags(EncodeQuery(sub))
  {
    AroundTags(FunctionTag("exists", false), EncodeQuery(sub));
  }

  lemma {:induction false} NoteBesideVisitsNodes(tag: Tag)
    requires Naming(tag)
    ensures tag in Tags(EncodeQuery(NOTE_BESIDE_VISITS)) <==>
      tag in {TableTag("", "", "visits", ""), TableTag("", "", "patients", ""), ColumnTag("", "note")}
  {
    BesideTags(NOTE_BESIDE_VISITS, ANY_VISIT, "note", Number(1));
    TagsAre(EncodeQuery(NOTE_BESIDE_VISITS), tag);
  }

  /** A statement over the two tables, without CTEs, derived tables and output aliases. */
  ghost predicate OverBoth(tags: seq<Tag>) {
    && TableTag("", "", "patients", "") in tags && TableTag("", "", "visits", "") in tags
    && (forall tag :: tag in tags && tag.TableTag? ==> tag.name == "patients" || tag.name == "visits")
    && (forall tag :: tag in tags ==> !tag.CteTag? && !tag.SubqueryTag? && !tag.AliasTag?)
  }

  lemma {:induction false} BothReferenced(c: Config, tags: seq<Tag>)
    requires OverBoth(tags)
    ensures ScanTables(c, CLINIC, {}, tags).tables == ["patients", "visits"]
  {
    var tables := ScanTables(c, CLINIC, {}, tags).tables;
    ClinicTables();
    ScanTablesAre(c, CLINIC, {}, tags);
    forall x
      ensures x in tables <==> x in ["patients", "visits"]
    {
      if x == "patients" || x == "visits" {
        assert Real(CLINIC, {}, TableTag("", "", x, ""));
      }
    }
    SortedSame(tables, ["patients", "visits"]);
  }

  lemma {:induction false} VisitsComeFirst(tags: seq<Tag>)
    requires OverBoth(tags)
    ensures NamesOf(VISITS_FIRST, CLINIC, tags).infos == [VISITS, PATIENTS]
    ensures NamesOf(VISITS_FIRST, CLINIC, tags).outputs == {}
  {
    ClinicTables();
    assert Virtuals(tags) == {};
    BothReferenced(VISITS_FIRST, tags);
    assert Map(["patients", "visits"], BareName) == ["patients", "visits"];
    assert Known(CLINIC, ["patients"][1..]) == [];
    assert Known(CLINIC, ["patients"]) == [PATIENTS];
    assert ["visits", "patients"][1..] == ["patients"];
  }

  lemma {:induction false} NoteBesideVisitsOverBoth()
    ensures var tags := Tags(EncodeQuery(NOTE_BESIDE_VISITS));
      && OverBoth(tags) && ColumnTag("", "note") in tags
      && forall tag :: tag in tags && tag.ColumnTag? ==> tag == ColumnTag("", "note")
  {
    forall tag: Tag | Naming(tag)
      ensures tag in Tags(EncodeQuery(NOTE_BESIDE_VISITS)) <==>
        tag in {TableTag("", "", "visits", ""), TableTag("", "", "patients", ""), ColumnTag("", "note")}
    {
      NoteBesideVisitsNodes(tag);
    }
  }

  lemma {:induction false} NoteColumns(x: string)
    ensures x in ReferencedColumns(VISITS_FIRST, CLINIC, EncodeQuery(NOTE_BESIDE_VISITS))
       <==> x == Reference("visits", "note")
  {
    var tags := Tags(EncodeQuery(NOTE_BESIDE_VISITS));
    NoteBesideVisitsOverBoth();
    VisitsComeFirst(tags);
    NoteContribution(NamesOf(VISITS_FIRST, CLINIC, tags));
    ScanColumnsAre(CLINIC, NamesOf(VISITS_FIRST, CLINIC, tags), tags, x);
  }

  lemma {:induction false} BesideOrdinary(denied: set<string>, q: Query, sub: Query, column: string, v: Value)
    requires IsSimple(q) && q.ctes == Nil && q.where == Some(Exists(sub)) && q.from.source.Table?
    requires IsSimple(sub) && sub.ctes == Nil && sub.where == None && sub.from.source.Table?
    requires q.items == Cons(Column("", column), Nil) && sub.items == Cons(Literal(v), Nil)
    requires "exists" !in denied
    ensures Everywhere(EncodeQuery(q), Ordinary(denied))
  {
    OrdinaryNode(denied, LiteralTag(v), []);
    OrdinaryNode(denied, ColumnTag("", column), []);
    OrdinarySelect(denied, sub);
    OrdinaryNode(denied, FunctionTag("exists", false), [EncodeQuery(sub)]);
    OrdinarySelect(denied, q);
  }

  lemma {:induction false} NoteBesideVisitsAccepted()
    ensures Findings(VISITS_FIRST, CLINIC, EncodeQuery(NOTE_BESIDE_VISITS)) == []
  {
    BesideOrdinary({}, NOTE_BESIDE_VISITS, ANY_VISIT, "note", Number(1));
    forall tag | tag in Tags(EncodeQuery(NOTE_BESIDE_VISITS)) && Naming(tag)
      ensures tag in {TableTag("", "", "visits", ""), TableTag("", "", "patients", ""), ColumnTag("", "note")}
    {
      NoteBesideVisitsNodes(tag);
    }
    ClinicAccepted(VISITS_FIRST, EncodeQuery(NOTE_BESIDE_VISITS));
  }

  /** Only the first owner is recorded: here the public column hides the personal one, so the statement is
      accepted and every role is permitted, ... */
  lemma {:induction false} SecondOwnerMissed(roles: set<string>)
    ensures FairShuffle(VISITS_FIRST) && Findings(VISITS_FIRST, CLINIC, EncodeQuery(NOTE_BESIDE_VISITS)) == []
    ensures Reference("patients", "note") !in ReferencedColumns(VISITS_FIRST, CLINIC, EncodeQuery(NOTE_BESIDE_VISITS))
    ensures Permitted(NO_TABLE_RULES, CLINIC, roles,
                      ReferencedTables(VISITS_FIRST, CLINIC, EncodeQuery(NOTE_BESIDE_VISITS)),
                      ReferencedColumns(VISITS_FIRST, CLINIC, EncodeQuery(NOTE_BESIDE_VISITS)))
  {
    var refs := ReferencedColumns(VISITS_FIRST, CLINIC, EncodeQuery(NOTE_BESIDE_VISITS));
    VisitsFirstFair();
    NoteBesideVisitsAccepted();
    NoteColumns(Reference("patients", "note"));
    ReferenceInjective("visits", "patients", "note");
    VisitsPermitted(roles);
    forall i | 0 <= i < |refs|
      ensures ColumnPermitted(CLINIC, roles, refs[i])
    {
      NoteColumns(refs[i]);
    }
  }

  lemma NoteContribution(names: Names)
    requires names.infos == [VISITS, PATIENTS] && names.outputs == {}
    ensures Contribution(CLINIC, names, ColumnTag("", "note")) == [Reference("visits", "note")]
  {
    ClinicTables();
    assert Owners(names.infos, "note")[0] == VISITS;
    InsertOne(VISITS, "note");
  }

  lemma VisitsPermitted(roles: set<string>)
    ensures ColumnPermitted(CLINIC, roles, Reference("visits", "note"))
  {
    ClinicTables();
    PublicPermitted(CLINIC, roles, VISITS, "note");
  }

  lemma PublicPermitted(schema: Schema, roles: set<string>, info: TableInfo, column: string)
    requires schema.Table(info.name) == Some(info) && '.' !in info.name
    requires info.Column(column).Some? && info.Column(column).value.classification == Public
    ensures ColumnPermitted(schema, roles, Reference(info.name, column))
  {
    PartitionReference(info.name, column);
  }

  /** ... but the result is the personal column. */
  lemma {:induction false} SecondOwnerRead(s: Store, note: string)
    requires s.schema == CLINIC && s.db == Clinic(note)
    ensures EvalQuery(s, map[], [], NOTE_BESIDE_VISITS) == [[Text(note)]]
  {
    var b := PatientBinding(note);
    PatientRow(s, map[], note);
    AnyVisitFound(s, [[b]], note);
    BesideRow(s, map[], NOTE_BESIDE_VISITS, ANY_VISIT, b, Column("", "note"));
    NoteValue(s, map[], note);
  }

  lemma {:induction false} FoundHolds(s: Store, ctes: Ctes, env: Env, group: seq<Frame>, c: Option<Expr>, sub: Query)
    requires c == Some(Exists(sub)) && EvalQuery(s, ctes, env, sub) != []
    ensures Passes(s, ctes, env, group, c)
  {
    assert EvalExpr(s, ctes, env, group, c.value) == Truth(|EvalQuery(s, ctes, env, sub)| != 0);
  }

  /** One row, when the subquery finds something. */
  lemma {:induction false} BesideRow(s: Store, ctes: Ctes, q: Query, sub: Query, b: Binding, e: Expr)
    requires IsSimple(q) && q.ctes == Nil && q.where == Some(Exists(sub)) && q.items == Cons(e, Nil)
    requires EvalSource(s, ctes, [], q.from.source) == [b] && EvalQuery(s, ctes, [[b]], sub) != []
    ensures EvalQuery(s, ctes, [], q) == [[EvalExpr(s, ctes, [[b]], [[b]], e)]]
  {
    var env: Env := [];
    assert env + [[b]] == [[b]];
    FoundHolds(s, ctes, [[b]], [[b]], q.where, sub);
    OneCell(s, ctes, ctes, env, q, b, e);
  }

  lemma {:induction false} AnyVisitFound(s: Store, env: Env, note: string)
    requires s.schema == CLINIC && s.db == Clinic(note)
    ensures |EvalQuery(s, map[], env, ANY_VISIT)| == 1
  {
    ClinicTables();
    TableRow(s, map[], env, VISITS_SOURCE, VISITS, map["note" := Null]);
    OneRow(s, map[], map[], env, ANY_VISIT, Binding("visits", Some(VISITS), VISITS.ColumnNames(), map["note" := Null]));
  }

  // ----- WITH patients AS (SELECT note FROM patients) SELECT note FROM patients -----

  const PLAIN_NOTE: Query :=
    Select(Nil, false, Cons(Column("", "note"), Nil), Single(PATIENTS_SOURCE), None, PerRow, None, Nil, NoLimit)

  const SHADOWED_NOTE: Query :=
    Select(Cons(Cte("patients", PLAIN_NOTE), Nil), false, Cons(Column("", "note"), Nil), Single(PATIENTS_SOURCE), None,
           PerRow, None, Nil, NoLimit)

  lemma {:induction false} ShadowedTags(q: Query, sub: Query, name: string, column: string)
    requires IsSimple(q) && q.ctes == Cons(Cte(name, sub), Nil) && q.where == None && q.from.source.Table?
    requires IsSimple(sub) && sub.ctes == Nil && sub.where == None && sub.from.source == q.from.source
    requires q.items == sub.items == Cons(Column("", column), Nil)
    ensures NamingTags(EncodeQuery(q)) == {CteTag(name), EncodeSource(q.from.source).tag, ColumnTag("", column)}
  {
    var cte := Parent(CteTag(name), [EncodeQuery(sub)]);
    SelectTags(sub, sub.items.head);
    AroundTags(ColumnTag("", column), Leaf(WhereTag));
    AroundTags(CteTag(name), EncodeQuery(sub));
    assert EncodeCtes(q.ctes) == [cte];
    OneTag(cte);
    SimpleTags(q);
    ConditionTags(q.where);
    ItemTags(q.items.head);
    AroundTags(EncodeSource(q.from.source).tag, Leaf(WhereTag));
  }

  lemma {:induction false} ShadowedNodes(tag: Tag)
    requires Naming(tag)
    ensures tag in Tags(EncodeQuery(SHADOWED_NOTE)) <==>
      tag in {CteTag("patients"), TableTag("", "", "patients", ""), ColumnTag("", "note")}
  {
    ShadowedTags(SHADOWED_NOTE, PLAIN_NOTE, "patients", "note");
    TagsAre(EncodeQuery(SHADOWED_NOTE), tag);
  }

  lemma {:induction false} ShadowAccepted(c: Config)
    ensures Findings(c, CLINIC, EncodeQuery(SHADOWED_NOTE)) == []
  {
    var denied := c.denylist;
    OrdinaryNode(denied, ColumnTag("", "note"), []);
    OrdinarySelect(denied, PLAIN_NOTE);
    OrdinaryNode(denied, CteTag("patients"), [EncodeQuery(PLAIN_NOTE)]);
    OrdinarySelect(denied, SHADOWED_NOTE);
    forall tag | tag in Tags(EncodeQuery(SHADOWED_NOTE)) && Naming(tag)
      ensures tag in {CteTag("patients"), TableTag("", "", "patients", ""), ColumnTag("", "note")}
    {
      ShadowedNodes(tag);
    }
    ClinicAccepted(c, EncodeQuery(SHADOWED_NOTE));
  }

  /** A CTE with the table's name hides its occurrences: the statement is accepted, nothing is recorded and
      every role is permitted, whatever tables the policy allows or denies, ... */
  lemma {:induction false} ShadowRecordsNothing(c: Config, p: PolicyConfig, roles: set<string>)
    requires FairShuffle(c)
    ensures Findings(c, CLINIC, EncodeQuery(SHADOWED_NOTE)) == []
    ensures ReferencedTables(c, CLINIC, EncodeQuery(SHADOWED_NOTE)) == []
    ensures ReferencedColumns(c, CLINIC, EncodeQuery(SHADOWED_NOTE)) == []
    ensures Permitted(p, CLINIC, roles, ReferencedTables(c, CLINIC, EncodeQuery(SHADOWED_NOTE)),
                      ReferencedColumns(c, CLINIC, EncodeQuery(SHADOWED_NOTE)))
  {
    var tags := Tags(EncodeQuery(SHADOWED_NOTE));
    ShadowAccepted(c);
    forall tag | tag in tags && Naming(tag)
      ensures tag in {CteTag("patients"), TableTag("", "", "patients", ""), ColumnTag("", "note")}
    {
      ShadowedNodes(tag);
    }
    ShadowedNodes(CteTag("patients"));
    assert "patients" in Virtuals(tags) by {
      assert CteTag("patients") in tags;
    }
    ShadowedUnrecorded(c, CLINIC, tags);
  }

  function CteBinding(note: string): Binding {
    Binding("patients", None, {"note"}, map["note" := Text(note)])
  }

  lemma {:induction false} CteRow(s: Store, ctes: Ctes, note: string)
    requires ctes == map["patients" := Relation(["note"], [[Text(note)]])]
    ensures EvalSource(s, ctes, [], PATIENTS_SOURCE) == [CteBinding(note)]
  {
    var b := BindNamed(NullBinding(s.schema, ctes, PATIENTS_SOURCE), ["note"])([Text(note)]);
    assert IndexOfName(["note"], "note") == 0;
    assert b.row == map["note" := Text(note)];
    assert b.columns == {"note"};
  }

  lemma {:induction false} PlainNote(s: Store, note: string)
    requires s.schema == CLINIC && s.db == Clinic(note)
    ensures EvalQuery(s, map[], [], PLAIN_NOTE) == [[Text(note)]]
  {
    var b := PatientBinding(note);
    PatientRow(s, map[], note);
    OneCell(s, map[], map[], [], PLAIN_NOTE, b, Column("", "note"));
    NoteValue(s, map[], note);
    assert [] + [[b]] == [[b]];
  }

  /** ... but the result is the personal column. */
  lemma {:induction false} ShadowReadsNote(s: Store, note: string)
    requires s.schema == CLINIC && s.db == Clinic(note)
    ensures EvalQuery(s, map[], [], SHADOWED_NOTE) == [[Text(note)]]
  {
    var b := CteBinding(note);
    var ctes: Ctes := map["patients" := Relation(["note"], [[Text(note)]])];
    PlainNote(s, note);
    assert Header(PLAIN_NOTE) == ["note"];
    OneCte(s, "patients", PLAIN_NOTE);
    CteRow(s, ctes, note);
    OneCell(s, map[], ctes, [], SHADOWED_NOTE, b, Column("", "note"));
    assert FindOwner([b], "note") == Some(b);
    assert [] + [[b]] == [[b]];
  }

  lemma {:induction false} OneCte(s: Store, name: string, q: Query)
    ensures EvalCtes(s, map[], [], Cons(Cte(name, q), Nil))
         == map[name := Relation(Header(q), EvalQuery(s, map[], [], q))]
  {
    var rest: List<Cte> := Nil;
    var ctes: Ctes := map[name := Relation(Header(q), EvalQuery(s, map[], [], q))];
    assert EvalCtes(s, ctes, [], rest) == ctes;
  }

  // ----- WITH x AS (SELECT 1 FROM visits) SELECT x.note FROM patients AS x -----

  const PATIENTS_AS_X: Source := Table("", "", "patients", "x")

  const LABELLED_NOTE: Query :=
    Select(Cons(Cte("x", ANY_VISIT), Nil), false, Cons(Column("x", "note"), Nil), Single(PATIENTS_AS_X), None, PerRow,
           None, Nil, NoLimit)

  lemma {:induction false} LabelledTags(q: Query, sub: Query, name: string, e: Expr, v: Value)
    requires IsSimple(q) && q.ctes == Cons(Cte(name, sub), Nil) && q.where == None && q.from.source.Table?
    requires IsSimple(sub) && sub.ctes == Nil && sub.where == None && sub.from.source.Table?
    requires q.items == Cons(e, Nil) && e.Column? && sub.items == Cons(Literal(v), Nil)
    ensures NamingTags(EncodeQuery(q)) == {CteTag(name), EncodeSource(sub.from.source).tag,
                                           EncodeSource(q.from.source).tag, ColumnTag(e.qualifier, e.name)}
  {
    var cte := Parent(CteTag(name), [EncodeQuery(sub)]);
    SelectTags(sub, sub.items.head);
    AroundTags(LiteralTag(v), Leaf(WhereTag));
    AroundTags(ColumnTag(e.qualifier, e.name), Leaf(WhereTag));
    AroundTags(CteTag(name), EncodeQuery(sub));
    assert EncodeCtes(q.ctes) == [cte];
    OneTag(cte);
    SimpleTags(q);
    ConditionTags(q.where);
    ItemTags(q.items.head);
    AroundTags(EncodeSource(q.from.source).tag, Leaf(WhereTag));
  }

  lemma {:induction false} LabelledNodes(tag: Tag)
    requires Naming(tag)
    ensures tag in Tags(EncodeQuery(LABELLED_NOTE)) <==>
      tag in {CteTag("x"), TableTag("", "", "visits", ""), TableTag("", "", "patients", "x"), ColumnTag("x", "note")}
  {
    LabelledTags(LABELLED_NOTE, ANY_VISIT, "x", Column("x", "note"), Number(1));
    TagsAre(EncodeQuery(LABELLED_NOTE), tag);
  }

  lemma {:induction false} LabelledOver()
    ensures var tags := Tags(EncodeQuery(LABELLED_NOTE));
      && ClinicTags(tags) && Virtuals(tags) == {"x"} && Occurs(tags, "patients")
      && forall tag :: tag in tags && tag.ColumnTag? ==> tag == ColumnTag("x", "note")
  {
    var tags := Tags(EncodeQuery(LABELLED_NOTE));
    forall tag: Tag | Naming(tag)
      ensures tag in tags <==>
        tag in {CteTag("x"), TableTag("", "", "visits", ""), TableTag("", "", "patients", "x"), ColumnTag("x", "note")}
    {
      LabelledNodes(tag);
    }
    assert CteTag("x") in tags && TableTag("", "", "patients", "x") in tags;
  }

  lemma {:induction false} LabelledOrdinary(denied: set<string>, q: Query, sub: Query, name: string, e: Expr, v: Value)
    requires IsSimple(q) && q.ctes == Cons(Cte(name, sub), Nil) && q.where == None && q.from.source.Table?
    requires IsSimple(sub) && sub.ctes == Nil && sub.where == None && sub.from.source.Table?
    requires q.items == Cons(e, Nil) && e.Column? && sub.items == Cons(Literal(v), Nil)
    ensures Everywhere(EncodeQuery(q), Ordinary(denied))
  {
    OrdinaryNode(denied, LiteralTag(v), []);
    OrdinaryNode(denied, ColumnTag(e.qualifier, e.name), []);
    OrdinarySelect(denied, sub);
    OrdinaryNode(denied, CteTag(name), [EncodeQuery(sub)]);
    OrdinarySelect(denied, q);
  }

  /** A CTE with the table's label hides the columns read under it: the table is referenced and every
      reference is qualified, but the statement is accepted, no column is recorded and every role is
      permitted, ... */
  lemma {:induction false} LabelRecordsNothing(c: Config, roles: set<string>)
    ensures Findings(c, CLINIC, EncodeQuery(LABELLED_NOTE)) == []
    ensures "patients" in ReferencedTables(c, CLINIC, EncodeQuery(LABELLED_NOTE))
    ensures forall tag :: tag in Tags(EncodeQuery(LABELLED_NOTE)) && tag.ColumnTag? ==> tag.qualifier != ""
    ensures ReferencedColumns(c, CLINIC, EncodeQuery(LABELLED_NOTE)) == []
    ensures Permitted(NO_TABLE_RULES, CLINIC, roles, ReferencedTables(c, CLINIC, EncodeQuery(LABELLED_NOTE)),
                      ReferencedColumns(c, CLINIC, EncodeQuery(LABELLED_NOTE)))
  {
    var tags := Tags(EncodeQuery(LABELLED_NOTE));
    LabelledOver();
    LabelledOrdinary(c.denylist, LABELLED_NOTE, ANY_VISIT, "x", Column("x", "note"), Number(1));
    ClinicAccepted(c, EncodeQuery(LABELLED_NOTE));
    PatientsReferenced(c, tags);
    LabelledUnrecorded(CLINIC, NamesOf(c, CLINIC, tags), tags);
  }

  lemma {:induction false} PatientsReferenced(c: Config, tags: seq<Tag>)
    requires Occurs(tags, "patients") && "patients" !in Virtuals(tags)
    ensures "patients" in ScanTables(c, CLINIC, Virtuals(tags), tags).tables
  {
    var tag :| tag in tags && tag.TableTag? && tag.name == "patients";
    ClinicTables();
    ScanTablesKnows(c, CLINIC, Virtuals(tags), tags, tag);
  }

  /** ... but the result is the personal column. */
  lemma {:induction false} LabelReadsNote(s: Store, note: string)
    requires s.schema == CLINIC && s.db == Clinic(note)
    ensures EvalQuery(s, map[], [], LABELLED_NOTE) == [[Text(note)]]
  {
    ClinicTables();
    LabelledCell(s, LABELLED_NOTE, ANY_VISIT, "x", PATIENTS, "note", map["note" := Text(note)]);
    NoteField("x", note);
  }

  lemma NoteField(name: string, note: string)
    ensures Field(Binding(name, Some(PATIENTS), PATIENTS.ColumnNames(), map["note" := Text(note)]), "note")
         == Text(note)
  {
    ClinicTables();
  }

  /** The one row of the table, read under the label, although a CTE has that name. */
  lemma {:induction false} LabelledCell(s: Store, q: Query, sub: Query, name: string, info: TableInfo, column: string,
                                        row: Row)
    requires IsSimple(q) && q.ctes == Cons(Cte(name, sub), Nil) && q.where == None && name != "" && info.name != name
    requires q.from.source == Table("", "", info.name, name) && q.items == Cons(Column(name, column), Nil)
    requires s.schema.Table(info.name) == Some(info) && info in s.db && s.db[info] == [row]
    ensures EvalQuery(s, map[], [], q) == [[Field(Binding(name, Some(info), info.ColumnNames(), row), column)]]
  {
    var b := Binding(name, Some(info), info.ColumnNames(), row);
    var ctes: Ctes := map[name := Relation(Header(sub), EvalQuery(s, map[], [], sub))];
    OneCte(s, name, sub);
    TableRow(s, ctes, [], q.from.source, info, row);
    OneCell(s, map[], ctes, [], q, b, Column(name, column));
    assert FindLabel([b], name) == Some(b);
    assert [] + [[b]] == [[b]];
  }
}
