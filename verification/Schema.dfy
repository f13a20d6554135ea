/** The normalised catalog (domain/schema_models.py). */
module Schemas {
  import opened Collections

  datatype Classification =
    | Public | Internal | Confidential | Pii | Financial | AuthSecret | HighlyRestricted

  datatype ColumnInfo = ColumnInfo(name: string, classification: Classification)

  datatype TableInfo = TableInfo(
    name: string,
    schemaName: string,                 // "" when the table has no schema part
    columns: seq<ColumnInfo>,
    foreignKeys: seq<string>,           // the referred table of each foreign key
    tenantColumn: Option<string>)
  {
    function QualifiedName(): string {
      if schemaName != "" then schemaName + "." + name else name
    }

    function Key(): string {
      QualifiedName()
    }

    function Column(column: string): Option<ColumnInfo> {
      FindColumn(columns, column)
    }

    predicate HasColumn(column: string) {
      Column(column).Some?
    }

    function ColumnNames(): (names: set<string>)
      ensures forall c :: c in names <==> HasColumn(c)
    {
      FindColumnSpec(columns);
      set c | c in columns :: c.name
    }
  }

  function FindColumn(columns: seq<ColumnInfo>, name: string): Option<ColumnInfo> {
    if |columns| == 0 then None
    else if columns[0].name == name then Some(columns[0])
    else FindColumn(columns[1..], name)
  }

  lemma {:induction false} FindColumnSpec(columns: seq<ColumnInfo>)
    ensures forall name :: FindColumn(columns, name).Some? <==> name in (set c | c in columns :: c.name)
    ensures forall name :: FindColumn(columns, name).Some? ==>
      FindColumn(columns, name).value in columns && FindColumn(columns, name).value.name == name
  {
    if |columns| != 0 {
      FindColumnSpec(columns[1..]);
      assert columns == [columns[0]] + columns[1..];
      forall name
        ensures FindColumn(columns, name).Some? <==> name in (set c | c in columns :: c.name)
      {
        if FindColumn(columns, name).Some? && columns[0].name != name {
          var c := FindColumn(columns[1..], name).value;
          assert c in columns;
        }
      }
    }
  }

  /** A catalog: the reflected tables, in order. */
  datatype Schema = Schema(tables: seq<TableInfo>)
  {
    /** Look a table up by qualified or bare name. */
    function Table(name: string): Option<TableInfo> {
      var index := IndexOf(tables);
      if name in index then Some(index[name]) else None
    }
  }

  /** What the index holds after the tables were entered left to right: a key always
      takes the last table, a bare name only fills a gap. */
  function IndexOf(tables: seq<TableInfo>): map<string, TableInfo> {
    if |tables| == 0 then map[]
    else
      var table := tables[|tables| - 1];
      var keyed := IndexOf(tables[..|tables| - 1])[table.Key() := table];
      if table.name in keyed then keyed else keyed[table.name := table]
  }

  // ----- which table a name finds -----

  /** The table's name with its schema part, if it has one. */
  predicate InFull(table: TableInfo, name: string) {
    if table.schemaName == "" then name == table.name else name == table.schemaName + "." + table.name
  }

  ghost predicate SomeInFull(tables: seq<TableInfo>, name: string) {
    exists k :: 0 <= k < |tables| && InFull(tables[k], name)
  }

  /** The last table with this full name; without any, the first with this bare name. */
  ghost predicate FoundAt(tables: seq<TableInfo>, name: string, i: int) {
    && 0 <= i < |tables|
    && if SomeInFull(tables, name)
       then InFull(tables[i], name) && forall j :: i < j < |tables| ==> !InFull(tables[j], name)
       else tables[i].name == name && forall j :: 0 <= j < i ==> tables[j].name != name
  }

  ghost predicate SomeNamed(tables: seq<TableInfo>, name: string) {
    exists k :: 0 <= k < |tables| && (InFull(tables[k], name) || tables[k].name == name)
  }

  lemma {:induction false} IndexNames(tables: seq<TableInfo>, name: string)
    ensures name in IndexOf(tables) <==> SomeNamed(tables, name)
  {
    if |tables| != 0 {
      var n := |tables| - 1;
      assert tables == tables[..n] + [tables[n]];
      IndexNames(tables[..n], name);
      if name in IndexOf(tables[..n]) {
        var k :| 0 <= k < n && (InFull(tables[..n][k], name) || tables[..n][k].name == name);
        assert tables[k] == tables[..n][k];
      }
    }
  }

  lemma {:induction false} FoundBefore(tables: seq<TableInfo>, name: string, i: int)
    requires |tables| != 0 && !InFull(tables[|tables| - 1], name) && i < |tables| - 1
    ensures FoundAt(tables, name, i) <==> FoundAt(tables[..|tables| - 1], name, i)
  {
    var n := |tables| - 1;
    assert tables == tables[..n] + [tables[n]];
    if k :| 0 <= k < |tables| && InFull(tables[k], name) {
      assert InFull(tables[..n][k], name);
    }
  }

  lemma {:induction false} IndexAt(tables: seq<TableInfo>, name: string, i: int)
    requires FoundAt(tables, name, i)
    ensures name in IndexOf(tables) && IndexOf(tables)[name] == tables[i]
  {
    var n := |tables| - 1;
    IndexNames(tables[..n], name);
    if i < n {
      assert !InFull(tables[n], name);
      FoundBefore(tables, name, i);
      IndexAt(tables[..n], name, i);
    } else if !InFull(tables[n], name) {
      assert forall k :: 0 <= k < n ==> tables[..n][k] == tables[k];
      assert name !in IndexOf(tables[..n]);
    }
  }

  lemma {:induction false} SomeFound(tables: seq<TableInfo>, name: string)
    requires SomeNamed(tables, name)
    ensures exists i :: FoundAt(tables, name, i)
  {
    var n := |tables| - 1;
    if InFull(tables[n], name) {
      assert FoundAt(tables, name, n);
    } else if SomeNamed(tables[..n], name) {
      SomeFound(tables[..n], name);
      var i :| FoundAt(tables[..n], name, i);
      FoundBefore(tables, name, i);
    } else {
      forall k | 0 <= k < n
        ensures !InFull(tables[k], name) && tables[k].name != name
      {
        assert tables[..n][k] == tables[k];
      }
      assert FoundAt(tables, name, n);
    }
  }

  /** Looking a name up finds that table, and nothing only if no table is named so. */
  lemma {:induction false} TableExactly(schema: Schema, name: string)
    ensures schema.Table(name).Some? <==> exists i :: FoundAt(schema.tables, name, i)
    ensures forall i :: FoundAt(schema.tables, name, i) ==> schema.Table(name) == Some(schema.tables[i])
  {
    IndexNames(schema.tables, name);
    if SomeNamed(schema.tables, name) {
      SomeFound(schema.tables, name);
    }
    forall i | FoundAt(schema.tables, name, i)
      ensures schema.Table(name) == Some(schema.tables[i])
    {
      IndexAt(schema.tables, name, i);
    }
  }
}
