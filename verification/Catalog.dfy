/** Merging semantic annotations into the reflected catalog (schema/catalog.py). */
module Catalog {
  import opened Collections
  import opened Schemas
  import opened Coverage
  import opened Revalidation

  /** What the semantic layer says about tables and columns; "" when no tenant column is named. */
  datatype Semantics = Semantics(tenantColumns: map<string, string>, classes: map<(string, string), Classification>)

  function EnrichColumn(semantics: Semantics, table: string, column: ColumnInfo): ColumnInfo {
    if (table, column.name) in semantics.classes
    then column.(classification := semantics.classes[(table, column.name)])
    else column
  }

  function EnrichColumns(semantics: Semantics, table: string, columns: seq<ColumnInfo>): (r: seq<ColumnInfo>)
    ensures |r| == |columns|
    ensures forall i :: 0 <= i < |r| ==> r[i] == EnrichColumn(semantics, table, columns[i])
  {
    seq(|columns|, i requires 0 <= i < |columns| => EnrichColumn(semantics, table, columns[i]))
  }

  /** Only a tenant column that exists on the table is assigned. */
  function TenantColumnFor(semantics: Semantics, table: TableInfo): Option<string> {
    if table.name in semantics.tenantColumns && semantics.tenantColumns[table.name] != "" &&
       table.HasColumn(semantics.tenantColumns[table.name])
    then Some(semantics.tenantColumns[table.name])
    else None
  }

  function EnrichTable(semantics: Semantics, table: TableInfo): TableInfo {
    table.(columns := EnrichColumns(semantics, table.name, table.columns),
           tenantColumn := TenantColumnFor(semantics, table))
  }

  function EnrichTables(semantics: Semantics, tables: seq<TableInfo>): (r: seq<TableInfo>)
    ensures |r| == |tables|
    ensures forall i :: 0 <= i < |r| ==> r[i] == EnrichTable(semantics, tables[i])
  {
    seq(|tables|, i requires 0 <= i < |tables| => EnrichTable(semantics, tables[i]))
  }

  // ----- what enrichment promises -----

  /** The semantics name `c` as the tenant column of the table, and the table has such a column. */
  ghost predicate NamesTenantColumn(semantics: Semantics, table: TableInfo, c: string) {
    && c != "" && table.name in semantics.tenantColumns && semantics.tenantColumns[table.name] == c
    && exists column :: column in table.columns && column.name == c
  }

  /** The same column, classified by the semantics where they do, as reflected otherwise. */
  ghost predicate Classified(semantics: Semantics, table: string, before: ColumnInfo, after: ColumnInfo) {
    && after.name == before.name
    && ((table, before.name) in semantics.classes ==>
          after.classification == semantics.classes[(table, before.name)])
    && ((table, before.name) !in semantics.classes ==> after.classification == before.classification)
  }

  /** The same table with its tenant column assigned and its columns classified. */
  ghost predicate Annotated(semantics: Semantics, before: TableInfo, after: TableInfo) {
    && after.name == before.name && after.schemaName == before.schemaName && after.foreignKeys == before.foreignKeys
    && (forall c :: after.tenantColumn == Some(c) <==> NamesTenantColumn(semantics, before, c))
    && |after.columns| == |before.columns|
    && forall j :: 0 <= j < |before.columns| ==>
         Classified(semantics, before.name, before.columns[j], after.columns[j])
  }

  lemma {:induction false} EnrichedAnnotated(semantics: Semantics, table: TableInfo)
    ensures Annotated(semantics, table, EnrichTable(semantics, table))
  {
    FindColumnSpec(table.columns);
  }

  method Enrich(raw: Schema, semantics: Semantics) returns (enriched: Schema)
    ensures enriched == Schema(EnrichTables(semantics, raw.tables))
    ensures |enriched.tables| == |raw.tables|
    ensures forall i :: 0 <= i < |raw.tables| ==> Annotated(semantics, raw.tables[i], enriched.tables[i])
    ensures TenantColumnsExist(enriched)
  {
    var tables: seq<TableInfo> := [];
    for i := 0 to |raw.tables|
      invariant |tables| == i && forall k :: 0 <= k < i ==> tables[k] == EnrichTable(semantics, raw.tables[k])
    {
      var table := raw.tables[i];
      var tenantColumn := None;
      if table.name in semantics.tenantColumns && semantics.tenantColumns[table.name] != "" &&
         table.HasColumn(semantics.tenantColumns[table.name])
      {
        tenantColumn := Some(semantics.tenantColumns[table.name]);
      }
      var columns: seq<ColumnInfo> := [];
      for j := 0 to |table.columns|
        invariant |columns| == j
        invariant forall k :: 0 <= k < j ==> columns[k] == EnrichColumn(semantics, table.name, table.columns[k])
      {
        var column := table.columns[j];
        if (table.name, column.name) in semantics.classes {
          column := column.(classification := semantics.classes[(table.name, column.name)]);
        }
        columns := columns + [column];
      }
      assert columns == EnrichColumns(semantics, table.name, table.columns);
      tables := tables + [table.(columns := columns, tenantColumn := tenantColumn)];
    }
    assert tables == EnrichTables(semantics, raw.tables);
    EnrichedTenantColumns(semantics, raw);
    forall i | 0 <= i < |raw.tables|
      ensures Annotated(semantics, raw.tables[i], tables[i])
    {
      EnrichedAnnotated(semantics, raw.tables[i]);
    }
    return Schema(tables);
  }

  lemma {:induction false} EnrichedColumn(semantics: Semantics, table: string, columns: seq<ColumnInfo>, name: string)
    ensures var found := FindColumn(columns, name);
      FindColumn(EnrichColumns(semantics, table, columns), name) ==
        if found.Some? then Some(EnrichColumn(semantics, table, found.value)) else None
  {
    if |columns| != 0 {
      EnrichedColumn(semantics, table, columns[1..], name);
      assert EnrichColumns(semantics, table, columns)[1..] == EnrichColumns(semantics, table, columns[1..]);
    }
  }

  lemma EnrichedTenantColumns(semantics: Semantics, raw: Schema)
    ensures TenantColumnsExist(Schema(EnrichTables(semantics, raw.tables)))
  {
    var tables := EnrichTables(semantics, raw.tables);
    forall info | info in tables && info.tenantColumn.Some?
      ensures info.HasColumn(info.tenantColumn.value)
    {
      var i :| 0 <= i < |tables| && tables[i] == info;
      EnrichedColumn(semantics, raw.tables[i].name, raw.tables[i].columns, info.tenantColumn.value);
    }
  }

  /** Lookups by name find the enriched version of the table they found before. */
  lemma {:induction false} EnrichedIndex(semantics: Semantics, tables: seq<TableInfo>, name: string)
    ensures name in IndexOf(EnrichTables(semantics, tables)) <==> name in IndexOf(tables)
    ensures name in IndexOf(tables) ==>
      IndexOf(EnrichTables(semantics, tables))[name] == EnrichTable(semantics, IndexOf(tables)[name])
  {
    if |tables| != 0 {
      var n := |tables| - 1;
      EnrichedIndex(semantics, tables[..n], name);
      EnrichedIndex(semantics, tables[..n], tables[n].name);
      assert EnrichTables(semantics, tables)[..n] == EnrichTables(semantics, tables[..n]);
    }
  }

  lemma EnrichedTable(semantics: Semantics, raw: Schema, name: string)
    ensures var found, enriched := raw.Table(name), Schema(EnrichTables(semantics, raw.tables)).Table(name);
      && enriched == (if found.Some? then Some(EnrichTable(semantics, found.value)) else None)
      && (found.Some? ==> Annotated(semantics, found.value, enriched.value))
  {
    EnrichedIndex(semantics, raw.tables, name);
    if raw.Table(name).Some? {
      EnrichedAnnotated(semantics, raw.Table(name).value);
    }
  }

  /** Enrichment keeps a catalog well named. */
  lemma EnrichKeepsNames(semantics: Semantics, raw: Schema)
    requires WellNamed(raw)
    ensures WellNamed(Schema(EnrichTables(semantics, raw.tables)))
  {
    var tables := EnrichTables(semantics, raw.tables);
    forall info | info in tables
      ensures '.' !in info.name && Schema(tables).Table(info.name) == Some(info)
      ensures !info.HasColumn("") && !info.HasColumn("*")
    {
      var i :| 0 <= i < |tables| && tables[i] == info;
      assert raw.tables[i] in raw.tables;
      EnrichedTable(semantics, raw, info.name);
      EnrichedColumn(semantics, raw.tables[i].name, raw.tables[i].columns, "");
      EnrichedColumn(semantics, raw.tables[i].name, raw.tables[i].columns, "*");
    }
  }
}
