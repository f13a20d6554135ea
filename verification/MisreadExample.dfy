/** A valid statement that its own rewrite makes invalid. */
module MisreadExample {
  import opened Collections
  import opened Schemas
  import opened Syntax
  import opened StatementTree
  import opened Encoding
  import opened ValidatorSpec
  import opened TenantRewrite
  import opened TreeRewrite
  import opened TreeFacts
  import opened Coverage
  import opened Guards
  import opened Revalidation
  import opened Misreading
  import opened GateSpec
  import opened UnrecordedColumns
  import opened UnrecordedExamples
  import GateMeaning

  // ----- a catalog with a tenant table and a shared one -----

  const OWNED_PATIENTS: TableInfo :=
    TableInfo("patients", "", [ColumnInfo("note", Pii), ColumnInfo("clinic", Public)], [], Some("clinic"))

  const SHARED_CLINIC: Schema := Schema([OWNED_PATIENTS, VISITS])

  lemma SharedTables()
    ensures SHARED_CLINIC.Table("patients") == Some(OWNED_PATIENTS) && SHARED_CLINIC.Table("visits") == Some(VISITS)
    ensures OWNED_PATIENTS.HasColumn("note") && OWNED_PATIENTS.HasColumn("clinic")
    ensures VISITS.HasColumn("note") && !VISITS.HasColumn("clinic")
  {
    var tables := SHARED_CLINIC.tables;
    assert tables[..1] == [OWNED_PATIENTS] && tables[1] == VISITS;
    assert [OWNED_PATIENTS][..0] == [];
    assert IndexOf([]) == map[];
    assert IndexOf([OWNED_PATIENTS]) == map["patients" := OWNED_PATIENTS];
    assert IndexOf(tables)["visits"] == VISITS && IndexOf(tables)["patients"] == OWNED_PATIENTS;
  }

  // ----- WITH patients AS (SELECT note FROM visits)
  // ----- SELECT p.note FROM patients AS p UNION ALL SELECT p.note FROM visits AS p

  const VISIT_NOTES: Query :=
    Select(Nil, false, Cons(Column("", "note"), Nil), Single(VISITS_SOURCE), None, PerRow, None, Nil, NoLimit)

  function NoteOf(table: string): Query {
    Select(Nil, false, Cons(Column("p", "note"), Nil), Single(Table("", "", table, "p")), None, PerRow, None, Nil,
           NoLimit)
  }

  const BOTH_NOTES: Query :=
    SetOperation(Cons(Cte("patients", VISIT_NOTES), Nil), UnionAll, NoteOf("patients"), NoteOf("visits"), NoLimit)

  /** One column of one table. */
  predicate IsPlain(q: Query) {
    && IsSimple(q) && q.ctes == Nil && q.where == None && q.from.source.Table?
    && q.items.Cons? && q.items.head.Column? && q.items.tail == Nil
  }

  function PlainTags(q: Query): set<Tag>
    requires IsPlain(q)
  {
    {EncodeSource(q.from.source).tag, ColumnTag(q.items.head.qualifier, q.items.head.name)}
  }

  lemma {:induction false} PlainNaming(q: Query)
    requires IsPlain(q)
    ensures NamingTags(EncodeQuery(q)) == PlainTags(q)
  {
    SelectTags(q, q.items.head);
    AroundTags(ColumnTag(q.items.head.qualifier, q.items.head.name), Leaf(WhereTag));
  }

  lemma {:induction false} BothTags(q: Query, name: string, sub: Query)
    requires q.SetOperation? && q.ctes == Cons(Cte(name, sub), Nil)
    requires IsPlain(sub) && IsPlain(q.left) && IsPlain(q.right)
    ensures NamingTags(EncodeQuery(q)) == {CteTag(name)} + PlainTags(sub) + PlainTags(q.left) + PlainTags(q.right)
  {
    var cte := Parent(CteTag(name), [EncodeQuery(sub)]);
    var with, l, r := Parent(WithTag, EncodeCtes(q.ctes)), EncodeQuery(q.left), EncodeQuery(q.right);
    PlainNaming(sub);
    PlainNaming(q.left);
    PlainNaming(q.right);
    AroundTags(CteTag(name), EncodeQuery(sub));
    assert EncodeCtes(q.ctes) == [cte];
    AroundTags(WithTag, cte);
    OneTag(r);
    ConsTags(l, [r]);
    ConsTags(with, [l] + [r]);
    assert [with] + ([l] + [r]) == [with, l, r];
    HolderTags(EncodeQuery(q).tag, [with, l, r]);
  }

  const BOTH_TAGS: set<Tag> := {
    CteTag("patients"), TableTag("", "", "visits", ""), ColumnTag("", "note"), TableTag("", "", "patients", "p"),
    TableTag("", "", "visits", "p"), ColumnTag("p", "note")}

  /** A statement with exactly these names. */
  ghost predicate NamesBoth(tags: seq<Tag>) {
    forall tag: Tag :: Naming(tag) ==> (tag in tags <==> tag in BOTH_TAGS)
  }

  /** A union of the form of the example. */
  predicate ReadsBoth(q: Query, sub: Query) {
    && q.SetOperation? && q.ctes == Cons(Cte("patients", sub), Nil)
    && IsPlain(sub) && sub.from.source == VISITS_SOURCE && sub.items.head == Column("", "note")
    && IsPlain(q.left) && q.left.from.source == Table("", "", "patients", "p")
    && IsPlain(q.right) && q.right.from.source == Table("", "", "visits", "p")
    && q.left.items.head == q.right.items.head == Column("p", "note")
  }

  lemma {:induction false} BothNodes(q: Query, sub: Query)
    requires ReadsBoth(q, sub)
    ensures NamesBoth(Tags(EncodeQuery(q)))
  {
    BothTags(q, "patients", sub);
    assert NamingTags(EncodeQuery(q)) == BOTH_TAGS;
    forall tag: Tag | Naming(tag)
      ensures tag in Tags(EncodeQuery(q)) <==> tag in BOTH_TAGS
    {
      TagsAre(EncodeQuery(q), tag);
    }
  }

  lemma {:induction false} VirtualPatients(tags: seq<Tag>)
    requires NamesBoth(tags)
    ensures Virtuals(tags) == {"patients"} && TablesNamed(tags)
  {
    assert CteTag("patients") in tags;
  }

  // ----- it is valid -----

  lemma {:induction false} PlainOrdinary(denied: set<string>, q: Query)
    requires IsPlain(q)
    ensures Everywhere(EncodeQuery(q), Ordinary(denied))
  {
    OrdinaryNode(denied, ColumnTag(q.items.head.qualifier, q.items.head.name), []);
    OrdinarySelect(denied, q);
  }

  lemma {:induction false} BothOrdinary(denied: set<string>, q: Query, name: string, sub: Query)
    requires q.SetOperation? && q.ctes == Cons(Cte(name, sub), Nil)
    requires IsPlain(sub) && IsPlain(q.left) && IsPlain(q.right)
    ensures Everywhere(EncodeQuery(q), Ordinary(denied))
  {
    PlainOrdinary(denied, sub);
    PlainOrdinary(denied, q.left);
    PlainOrdinary(denied, q.right);
    OrdinaryNode(denied, CteTag(name), [EncodeQuery(sub)]);
    assert EncodeCtes(q.ctes) == [Parent(CteTag(name), [EncodeQuery(sub)])];
    OrdinaryNode(denied, WithTag, EncodeCtes(q.ctes));
    OrdinaryNode(denied, EncodeQuery(q).tag,
                 [Parent(WithTag, EncodeCtes(q.ctes)), EncodeQuery(q.left), EncodeQuery(q.right)]);
  }

  lemma {:induction false} SharedNoteKnown(c: Config, tags: seq<Tag>, tag: Tag)
    requires NamesBoth(tags) && tag in tags && tag.ColumnTag?
    ensures ColumnKnown(SHARED_CLINIC, NamesOf(c, SHARED_CLINIC, tags), tag)
  {
    var infos := NamesOf(c, SHARED_CLINIC, tags).infos;
    SharedTables();
    VirtualPatients(tags);
    assert tag == ColumnTag("", "note") || tag == ColumnTag("p", "note");
    if tag.qualifier == "p" {
      assert KnownAs(SHARED_CLINIC, tags, "p", TableTag("", "", "visits", "p"));
      QualifiedKnownExactly(c, SHARED_CLINIC, tags, "p", "note");
    } else if |infos| != 0 {
      KnownInSchema(SHARED_CLINIC,
                    c.shuffle(Map(ScanTables(c, SHARED_CLINIC, Virtuals(tags), tags).tables, BareName)), infos[0]);
      assert infos[0] == OWNED_PATIENTS || infos[0] == VISITS;
      assert infos[0] in infos;
    }
  }

  lemma {:induction false} VisitsAllowed(c: Config, tags: seq<Tag>, tag: Tag)
    requires NamesBoth(tags) && tag in tags && Considered(tag, Virtuals(tags))
    ensures TableAllowed(c, SHARED_CLINIC, tag)
  {
    VirtualPatients(tags);
    assert tag == TableTag("", "", "visits", "") || tag == TableTag("", "", "visits", "p");
    SharedTables();
    NotSystem(tag.name);
  }

  lemma {:induction false} BothClean(c: Config, t: Statement)
    requires IsReadOnly(t.tag) && Everywhere(t, Ordinary(c.denylist)) && NamesBoth(Tags(t))
    ensures Clean(c, SHARED_CLINIC, t)
  {
    var tags := Tags(t);
    EverywhereWalked(t, Ordinary(c.denylist));
    forall tag | tag in tags && Considered(tag, Virtuals(tags))
      ensures TableAllowed(c, SHARED_CLINIC, tag)
    {
      VisitsAllowed(c, tags, tag);
    }
    forall tag | tag in tags && tag.ColumnTag?
      ensures ColumnKnown(SHARED_CLINIC, NamesOf(c, SHARED_CLINIC, tags), tag)
    {
      SharedNoteKnown(c, tags, tag);
    }
  }

  // ----- its rewrite is not -----

  lemma {:induction false} PatientsMisread(t: Tenancy, tags: seq<Tag>)
    requires t.schema == SHARED_CLINIC && NamesBoth(tags)
    ensures var table := TableTag("", "", "patients", "p");
      TenantColumn(t, SourceOf(table)) == Some("clinic") && Misread(t, tags, table)
  {
    SharedTables();
    VirtualPatients(tags);
    assert KnownAs(SHARED_CLINIC, tags, "p", TableTag("", "", "visits", "p"));
    forall tag | KnownAs(SHARED_CLINIC, tags, "p", tag)
      ensures !SHARED_CLINIC.Table(tag.name).value.HasColumn("clinic")
    {
      assert tag == TableTag("", "", "visits", "") || tag == TableTag("", "", "visits", "p");
    }
  }

  /** A SELECT owns the table it reads. */
  lemma {:induction false} PlainOwns(q: Query)
    requires IsPlain(q)
    ensures EncodeSource(q.from.source).tag in Scan(EncodeQuery(q).kids)
  {
    var kids, source := EncodeQuery(q).kids, EncodeSource(q.from.source);
    var from := Parent(FromTag, [source]);
    assert Clauses(q) + EncodeFrom(q.from) + EncodeExprs(q.items) == kids;
    assert kids[5] == from;
    assert Owns(source, source.tag);
    assert from.kids[0] == source;
    assert Owns(from, source.tag);
    assert SomeOwns(kids, source.tag);
    ScanOwns(kids, source.tag);
  }

  lemma {:induction false} LeftBelow(q: Query)
    requires q.SetOperation?
    ensures Has(EncodeQuery(q), EncodeQuery(q.left))
  {
    assert EncodeQuery(q).kids[1] == EncodeQuery(q.left);
  }

  lemma {:induction false} UnionRejected(g: GateConfig, r: Request, q: Query, sub: Query)
    requires r.tenancy.schema == SHARED_CLINIC && TenantColumnsExist(SHARED_CLINIC) && ReadsBoth(q, sub)
    ensures Clean(g.validator, SHARED_CLINIC, EncodeQuery(q))
    ensures !Clean(g.validator, SHARED_CLINIC, Final(r, EncodeQuery(q)))
  {
    var s, t := EncodeQuery(q), r.tenancy;
    var table := EncodeSource(q.left.from.source).tag;
    BothNodes(q, sub);
    BothOrdinary(g.validator.denylist, q, "patients", sub);
    BothClean(g.validator, s);
    VirtualPatients(Tags(s));
    PatientsMisread(t, Tags(s));
    LeftBelow(q);
    PlainOwns(q.left);
    assert OwnsTenant(t, s, EncodeQuery(q.left), table);
    GateMeaning.ShapedQuery(q);
    RevalidationExactly(g, r, s);
  }

  /** The first validation finds nothing, the second does not accept what the rewrite makes of it. */
  lemma {:induction false} SecondValidationRejects(g: GateConfig, r: Request)
    requires r.tenancy.schema == SHARED_CLINIC
    ensures TenantColumnsExist(SHARED_CLINIC)
    ensures Clean(g.validator, SHARED_CLINIC, EncodeQuery(BOTH_NOTES))
    ensures !Clean(g.validator, SHARED_CLINIC, Final(r, EncodeQuery(BOTH_NOTES)))
  {
    SharedTables();
    UnionRejected(g, r, BOTH_NOTES, VISIT_NOTES);
  }
}
