# Text-to-SQL query gate: a verified model

The repository turns questions into SQL with an untrusted model and lets a deterministic gate decide
what runs. This project models the gate and what surrounds it, and proves what it is for: under the
conditions stated below no query reads another tenant's rows or a column its caller may not view,
whatever the model writes.

## How the model is laid out

* **Queries and their meaning.** `Values`, `Schema`, `Syntax`, `Evaluator`: SELECT with joins of every
  kind, WHERE, GROUP BY, HAVING, DISTINCT, ORDER BY, LIMIT, CTEs, derived tables, set operations and
  correlated subqueries, evaluated to sequences of rows under three-valued logic (sections 7.5, 7.6 and
  8.12 of ISO/IEC 9075:1992). A bare name in ORDER BY stands for the output column of that name if there
  is one, in GROUP BY only if no source has such a column. Scalar and aggregate functions, the order ORDER
  BY produces and the value of a dynamic limit are arbitrary functions. `EvaluatorLaws` characterises the rows
  of joins, plain and grouped SELECTs and set operations.
* **Tenant rewriting.** `TenantIds`, `TenantRewrite`, `JoinFilter`, `TenantMeaning`, `TenantTheorem`,
  `TenantResults`, `Isolation`, `UnnarrowedJoins`, `Counterexamples`: what the rewrite does to queries and to
  their results.
* **Statements in memory.** `StatementTree`, `Encoding`, `TreeRewrite`, `Targets`, `Placement`, `Arena`,
  `Expressions`, `Rewriter`: trees of nodes with parent links, and the collect-then-mutate rewriter as a
  class, proved to carry out the rewrite on queries.
* **Validation and policy.** `Issues`, `ValidatorSpec`, `Validator`, `Policy`, `Independence`,
  `IndependenceTheorem`, `Coverage`, `LexicalCoverage`, `ExactCoverage`, `ExecutedQuery`,
  `UnrecordedColumns`, `UnrecordedExamples`, `Faults`: what validation and policy find, and what that protects.
* **The gate.** `Catalog`, `TreeFacts`, `Revalidation`, `Misreading`, `MisreadExample`, `Guards`, `Limits`,
  `LimitFacts`, `CostMeasures`, `Cost`, `GateSpec`, `QueryGate`, `GateMeaning`, `GateFaults`.
* **The repair loop.** `Repair`, `RepairLoop`: a run is a function of an arbitrary provider, which may
  answer depending on everything it was asked, and an arbitrary gate.
* **Retrieval.** `Ranking`, `JoinGraph`, `ShortestPath`, `Bridges`.
* **Secondary parts.** `Metrics`, `MetricLabels`, `Redaction`, `Dates`.

Code that works step by step is modelled as classes and methods with loops, each tied to a function of
its input; lemmas then say what that function means. Inductions are written out: lemmas turn automatic
induction off.

## Scope conditions

The meaning theorems assume (`TenantMeaning.GoodQuery`) that the labels of one FROM chain differ, that
tables are named, and that no CTE has the name of a catalog table; a CTE may use the ones before it but
not itself. Isolation needs only the first two (`Isolation.ProperQuery`). The policy theorem also assumes
(`Coverage.CleanScopes`, `Coverage.WellNamed`) that CTE and derived-table aliases are neither catalog
tables nor labels of real ones, that an unqualified column has at most one owner among the referenced
tables, and none if it is also an output alias, and that bare table names are unique and free of dots, as
they are when one schema is reflected (`src/text_to_sql/schema/introspector.py`).
`LexicalCoverage.LexicallyCovered` needs these conditions only of the reference it speaks about and its
table. Re-validation assumes named tables and that tenant columns exist, which `Catalog.Enrich`
guarantees. The exact findings and reasons of `Faults` and `GateFaults` assume a well-named catalog and that
an iteration order lists just the elements (`Coverage.FairShuffle`). `Placement.Shaped` is the shape the
parser gives every SELECT: one WHERE holder with at most one condition.

In the modelled language the only star is `COUNT(*)`, a table alias has no column list, a label does not
stand for its row, and no join compares columns without naming them. The validator accepts any star below a
function (`src/text_to_sql/sql/validator.py:187-194`) and skips columns named `*`
(`src/text_to_sql/sql/validator.py:319-320`), so a whole-row argument such as `row_to_json(p.*)` is outside
what is proved about recorded columns. So are the columns renamed by `FROM patients AS p(a, b)`, a label
used as a value, and the columns that USING and NATURAL joins compare.

## Where code and expectation part

* With an outer join that null-extends a tenant table, the rewritten query is not the original on the
  tenant's rows: the null-extended rows disappear (`Counterexamples.LeftJoinLosesRows`).
  `TenantResults.OuterJoinExact` gives the exact condition for a join, `UnnarrowedJoins.UnnarrowedExactly`
  the queries that cannot be affected, and `TenantTheorem.RewriteQuery` the reading in all cases.
  Isolation holds regardless.
* `enforce_limit` promises a limit no greater than `max_rows`. A non-literal limit counts as 10^12, so
  under a maximum of 10^12 or more it is kept as it is (`Limits.BoundedExactly`). In the engine this
  cannot arise: the configured maximum is at most 1,000,000
  (`src/text_to_sql/configuration/settings.py:79`), a requested one at most 100,000
  (`src/text_to_sql/domain/models.py:57`). The comment that a dynamic limit yields `None` is not what the
  code does; the code is followed. A dynamic limit below the maximum is replaced by the larger literal
  (`Limits.LimitTakes` says exactly when that shows, `Limits.DynamicLimitRaised` shows a case).
* The validator means to record at least the base columns a statement reads. In the modelled language there
  are four situations in which a column the result depends on is not recorded, so that the policy does not
  see it. An unqualified column is recorded for the first owner only, in the arbitrary order of a set
  (`UnrecordedExamples.SecondOwnerMissed`). An unqualified name that is an output alias anywhere in the
  statement is skipped (`UnrecordedExamples.AliasRecordsNothing`). Table occurrences that share their name
  with a CTE or derived table are skipped (`UnrecordedExamples.ShadowRecordsNothing`). References whose
  qualifier, the label of a real table, is also the alias of a CTE or derived table anywhere in the statement
  are skipped (`UnrecordedExamples.LabelRecordsNothing`). Each comes with a result that is the unrecorded
  column. `ExactCoverage.MetExactly` shows that there are no others, for references in statements whose
  names hold no dot; `UnrecordedColumns.UnqualifiedCoveredExactly`, `UnrecordedColumns.ReferencedExactly`
  and `UnrecordedColumns.QualifiedCoveredExactly` give the exact condition of each.
* The second validation is meant to confirm what the first accepted. Where a CTE or derived table has the
  name of a tenant table, it can reject it: the rewriter adds a predicate for the occurrence, and the
  validator takes its label for a table labelled so elsewhere, which lacks the column
  (`MisreadExample.SecondValidationRejects`). `GateSpec.RevalidationExactly` says exactly when.
* The redactor's marker is text itself: a literal that is part of its word, such as `redacted` or `acted`,
  is in the result whenever anything was replaced (`Redaction.Redactor.SurvivesExactly`).

## Model

| member | source | states |
|---|---|---|
| `TenantTheorem.RewriteQuery` | src/text_to_sql/security/rewriter.py:33-61 | For every query with CTEs, derived tables, set operations, grouping, correlated EXISTS / IN / scalar subqueries and inner, left, right, full and cross joins: the rewritten query on the whole database returns exactly what the query with narrowed outer joins returns on the tenant's own rows, in every outer scope. |
| `TenantTheorem.RewriteExpr` | src/text_to_sql/security/rewriter.py:45-61 | The same for expressions evaluated on any row of any group, so correlation through EXISTS, IN and scalar subqueries is covered. |
| `TenantTheorem.RewriteFrom` | src/text_to_sql/security/rewriter.py:45-61 | Of the joined rows of a FROM chain, those whose tenant components are all the tenant's are the rows of the narrowed chain on the tenant's data. |
| `JoinFilter.FilterJoin` | src/text_to_sql/security/rewriter.py:55-58 | Filtering after a join of any kind equals joining filtered sides under the narrowed kind, when the filter rejects null-extended components. |
| `TenantMeaning.PredicatesMean` | src/text_to_sql/security/rewriter.py:55-71 | On a joined row the added predicates hold exactly when every tenant-table component of the row is the tenant's. |
| `TenantMeaning.MineNullFrame` | src/text_to_sql/security/rewriter.py:63-71 | A null-extended tenant component never satisfies its predicate: NULL = tenant is not true. |
| `TenantMeaning.ConjoinMeans` | src/text_to_sql/security/rewriter.py:58 | The grown WHERE passes exactly when the old WHERE passes and every appended predicate holds. |
| `Isolation.OwnQuery` | src/text_to_sql/security/rewriter.py:33-61 | In every scope the rewritten query gives the same result on the whole database as on the tenant's own rows, also where a CTE has the name of a table. |
| `Isolation.TenantIsolation` | src/text_to_sql/security/rewriter.py:1-18 | Two databases that agree on shared tables and on the tenant's rows give the rewritten query the same result, whatever its CTEs are called. |
| `TenantIds.LiteralExactly` | src/text_to_sql/security/rewriter.py:63-71 | A tenant id of digits becomes the number that is written in decimal as the id is, leading zeros aside; any other id becomes a text, itself. |
| `TenantIds.SameLiteralExactly` | src/text_to_sql/security/rewriter.py:63-71 | Two ids get one literal if and only if they are equal or numbers that differ in leading zeros. |
| `Isolation.TenantsSeparate` | src/text_to_sql/security/rewriter.py:1-18 | Of two ids that differ in more than leading zeros, the query the rewriter makes for one has the same result whatever rows the other owns. |
| `TenantResults.ExactMeaning` | src/text_to_sql/security/rewriter.py:33-61 | Where narrowing leaves the query alone, the rewritten query is the original one on the tenant's rows. |
| `UnnarrowedJoins.UnnarrowedExactly` | src/text_to_sql/security/rewriter.py:45-61 | Narrowing leaves a query alone if and only if none of its outer joins, at any depth, null-extends a tenant table. |
| `UnnarrowedJoins.InnerJoinsExact` | src/text_to_sql/security/rewriter.py:33-61 | For queries without outer joins, with any nesting of subqueries, CTEs, derived tables and set operations, the rewritten query is the original one on the tenant's rows. |
| `UnnarrowedJoins.LosslessJoinsExact` | src/text_to_sql/security/rewriter.py:33-61 | The same with outer joins that null-extend no tenant table. |
| `TenantResults.NarrowKindExact` | src/text_to_sql/security/rewriter.py:55-58 | Narrowing a join changes nothing if and only if there was no row to null-extend on the narrowed side. |
| `TenantResults.OuterJoinExact` | src/text_to_sql/security/rewriter.py:55-58 | A rewritten join reads as the original on the tenant's rows if and only if no tenant component would be null-extended. |
| `TenantResults.ComposeQuery` | src/text_to_sql/security/rewriter.py:33-61 | Adding the predicates and narrowing outer joins commute, and narrowing twice is narrowing once. |
| `TenantResults.ApplyGoodQuery` | src/text_to_sql/security/rewriter.py:33-61 | Both transformations keep a query within the scope conditions, so the theorems apply to their results. |
| `TenantResults.RewriteTwice` | src/text_to_sql/security/rewriter.py:33-61 | Rewriting a rewritten query changes no result. |
| `Counterexamples.LeftJoinLosesRows` | src/text_to_sql/security/rewriter.py:55-58 | A concrete LEFT JOIN between two tenant tables: one row on the tenant's data, none once rewritten. |
| `TreeRewrite.ScanSelect` | src/text_to_sql/security/rewriter.py:46-53 | The table nodes reached from a SELECT without entering a nested one yield, in order, exactly the predicates of its own FROM chain. |
| `TreeRewrite.EncodedRewriteQuery` | src/text_to_sql/security/rewriter.py:33-61 | On the statement tree of a query the structural rewrite is the tree of the rewritten query. |
| `Targets.TargetsOfSelect` | src/text_to_sql/security/rewriter.py:45-53 | One breadth-first walk collects for each SELECT precisely the predicates of the tenant tables whose nearest enclosing SELECT it is. |
| `Placement.CollectThenMutate` | src/text_to_sql/security/rewriter.py:55-59 | Appending the collected predicates one at a time, wherever their SELECT is by then, amounts to the structural rewrite. |
| `Arena.AppendedIsPlaced` | src/text_to_sql/security/rewriter.py:58 | One in-place append on parent-linked nodes changes the represented tree in the one SELECT and keeps all links. |
| `Expressions.Expression.Copy` | src/text_to_sql/security/rewriter.py:40 | A deep copy stands for the same tree. |
| `Expressions.Expression.Walk` | src/text_to_sql/security/rewriter.py:46 | The queue loop visits the nodes in breadth-first order, each once. |
| `Expressions.Expression.FindSelect` | src/text_to_sql/security/rewriter.py:50-52 | Climbing parent links finds the nearest enclosing SELECT, or none. |
| `Expressions.Expression.Where` | src/text_to_sql/security/rewriter.py:58 | `where(append=True, copy=False)` conjoins one condition to that SELECT; no node disappears or changes its class. |
| `Rewriter.TenantRewriter.Rewrite` | src/text_to_sql/security/rewriter.py:33-61 | The copy ends up as the structural rewrite of the input under the literal of the id, the tree of the rewritten query where the input is the tree of one; the input keeps its tree; `applied` lists exactly the predicates added, in order, one text for each tenant table below a SELECT and no other. |
| `Rewriter.AppliedExactly` | src/text_to_sql/security/rewriter.py:59 | A text is reported if and only if some tenant-table occurrence below a SELECT has this label, tenant column and id. |
| `Rewriter.TenantRewriter.Collect` | src/text_to_sql/security/rewriter.py:45-53 | The collecting loop finds one target for each tenant-table occurrence below a SELECT. |
| `Rewriter.TenantRewriter.Apply` | src/text_to_sql/security/rewriter.py:55-59 | The mutating loop carries out all targets and reports each. |
| `Guards.RewriteGuards` | src/text_to_sql/security/rewriter.py:8-16 | In the result, every SELECT requires the predicate of every tenant table it reads without crossing another SELECT. |
| `Guards.RewriteKeepsWhere` | src/text_to_sql/security/rewriter.py:58 | The condition a SELECT had before is still required. |
| `TreeFacts.RewriteEverywhere` | src/text_to_sql/security/rewriter.py:55-58 | A property of nodes that the added nodes have holds everywhere after the rewrite if and only if it held everywhere before. |
| `TreeFacts.RewriteStarFree` | src/text_to_sql/security/rewriter.py:55-58 | The rewrite neither adds nor removes a star outside functions. |
| `Validator.ValidationOutcome.Add` | src/text_to_sql/sql/validator.py:114-121 | A finding makes the outcome invalid and is recorded unless one with the same code and place is there. |
| `Validator.RecordAllCodes` | src/text_to_sql/sql/validator.py:114-121 | Recording without repetition loses no code. |
| `Validator.SQLValidator.Validate` | src/text_to_sql/sql/validator.py:138-150 | Anything but one statement is reported as just that; of one statement exactly the faults are reported, and the comment if the raw text has a marker. |
| `Validator.SQLValidator.ValidateExpression` | src/text_to_sql/sql/validator.py:152-202 | The outcome is valid if and only if the statement is clean, its issues are exactly the faults of the statement, and it carries the recorded references. |
| `Validator.SQLValidator.CheckShape` | src/text_to_sql/sql/validator.py:163-197 | The loops over the walk record the statement-class, forbidden-node, comment, star and function findings. |
| `Validator.SQLValidator.CheckFunctions` | src/text_to_sql/sql/validator.py:218-234 | Every denied function is found. |
| `Validator.SQLValidator.CheckTables` | src/text_to_sql/sql/validator.py:253-307 | The table loop builds the statement-wide alias map, the table list and its findings. |
| `Validator.SQLValidator.CheckTable` | src/text_to_sql/sql/validator.py:257-297 | One table occurrence: its findings are exactly its faults, each with its code and place, and there is none if and only if the table is allowed and known. |
| `Validator.SQLValidator.CheckColumns` | src/text_to_sql/sql/validator.py:317-366 | The column loop resolves every reference against that map. |
| `ValidatorSpec.FindingsClean` | src/text_to_sql/sql/validator.py:152-202 | Nothing is found exactly in read-only statements without forbidden node, comment, bare star or denied function, whose tables are allowed and known and whose columns exist where they are looked up. |
| `ValidatorSpec.BareNameExactly` | src/text_to_sql/sql/validator.py:313 | The bare name of a table is what follows its last dot. |
| `Faults.FindingsAre` | src/text_to_sql/sql/validator.py:152-366 | For every statement: an issue is found if and only if it is a fault of it, stated over its nodes and the catalog, code and place included. |
| `Faults.CodesExactly` | src/text_to_sql/sql/validator.py:152-366 | When each code is found: an unknown table if and only if one that is read is not in the catalog, a schema not allowed if and only if a table that is read names one outside a non-empty allowed set that is no system schema, and so on for all ten codes. |
| `Faults.TablesRecorded` | src/text_to_sql/sql/validator.py:290-305 | A table is recorded under its full name if and only if the statement reads it. |
| `Faults.ColumnsJustified` | src/text_to_sql/sql/validator.py:317-366 | No column is recorded but one that some reference of the statement may denote. |
| `Faults.ColumnsRecorded` | src/text_to_sql/sql/validator.py:317-366 | A qualified reference records every column it may denote, an unqualified one at least one. |
| `Revalidation.ScanTablesAre` | src/text_to_sql/sql/validator.py:248-307 | An alias maps to exactly the catalog tables some occurrence labels or names so, sorted; the table list holds exactly the referenced ones. |
| `Revalidation.ScanColumnsAre` | src/text_to_sql/sql/validator.py:309-366 | A reference is recorded if and only if some column node of the statement contributes it. |
| `Coverage.ScanTablesKnows` | src/text_to_sql/sql/validator.py:290-305 | Every catalog table occurrence is known under its label and referenced. |
| `Coverage.DenotedRecorded` | src/text_to_sql/sql/validator.py:323-358 | Whatever base column the statement-wide alias map offers for an unambiguous reference is recorded. |
| `LexicalCoverage.LexicallyCovered` | src/text_to_sql/sql/validator.py:323-358 | For every statement and database: wherever evaluation meets a column reference, in whatever nesting of subqueries, derived tables, CTEs, join conditions, groups and reused aliases, the base column it resolves to in the scopes there is recorded, if no CTE or derived table has a name of that table or the qualifier as its own and the reference is qualified, or unambiguous and not hidden by an output alias. |
| `ExactCoverage.MetExactly` | src/text_to_sql/sql/validator.py:317-358 | For every statement and database: wherever evaluation meets a reference to a base column, the reference is recorded for that column if and only if no CTE or derived table bears the name of the table, none bears the qualifier, and, without a qualifier, the name is no output alias and the table is the first owner. |
| `LexicalCoverage.MetQuery` | src/text_to_sql/sql/validator.py:299-305 | Every base-table row in the scopes a reference is met with has a label that the statement-wide alias map takes to its table. |
| `UnrecordedColumns.ReferencedExactly` | src/text_to_sql/sql/validator.py:253-307 | A catalog table is referenced if and only if it occurs in the statement and no CTE or derived table bears its name. |
| `UnrecordedColumns.UnqualifiedCoveredExactly` | src/text_to_sql/sql/validator.py:351-358 | An unqualified reference records every referenced table with such a column if and only if there is none, or the name is no output alias and all of them have one name. |
| `UnrecordedColumns.QualifiedCoveredExactly` | src/text_to_sql/sql/validator.py:323-343 | A qualified reference records a column of a table its qualifier denotes if and only if no CTE or derived table has the qualifier as its alias. |
| `UnrecordedColumns.LabelledUnrecorded` | src/text_to_sql/sql/validator.py:323-325 | If every column reference is qualified with such an alias, no column is recorded. |
| `UnrecordedColumns.AliasedUnrecorded` | src/text_to_sql/sql/validator.py:352-354 | If every column reference is unqualified and named like an output alias, no column is recorded. |
| `UnrecordedColumns.ShadowedUnrecorded` | src/text_to_sql/sql/validator.py:253-256 | If every table occurrence bears the name of a CTE or derived table and every reference is unqualified, neither tables nor columns are recorded. |
| `UnrecordedExamples.AliasRecordsNothing` | src/text_to_sql/sql/validator.py:352-354 | `SELECT note AS note FROM patients` is found clean, records no column, and policy permits it to every role. |
| `UnrecordedExamples.AliasReadsNote` | src/text_to_sql/sql/validator.py:352-354 | Its result is the personal column. |
| `UnrecordedExamples.SecondOwnerMissed` | src/text_to_sql/sql/validator.py:356-358 | `SELECT note FROM patients WHERE EXISTS (SELECT 1 FROM visits)` is found clean and, in one iteration order of the tables, records only the public column, so policy permits it to every role. |
| `UnrecordedExamples.SecondOwnerRead` | src/text_to_sql/sql/validator.py:356-358 | Its result is the personal column. |
| `UnrecordedExamples.ShadowRecordsNothing` | src/text_to_sql/sql/validator.py:253-256 | `WITH patients AS (SELECT note FROM patients) SELECT note FROM patients` is found clean and records neither table nor column, so every policy permits it to every role. |
| `UnrecordedExamples.ShadowReadsNote` | src/text_to_sql/sql/validator.py:253-256 | Its result is the personal column. |
| `UnrecordedExamples.LabelRecordsNothing` | src/text_to_sql/sql/validator.py:323-325 | `WITH x AS (SELECT 1 FROM visits) SELECT x.note FROM patients AS x` is found clean, references the table, has qualified references only, records no column, and policy permits it to every role. |
| `UnrecordedExamples.LabelReadsNote` | src/text_to_sql/sql/validator.py:323-325 | Its result is the personal column. |
| `Policy.CanViewMonotone` | src/text_to_sql/security/classification.py:24-51 | More roles never hide a column; secrets are hidden from every role. |
| `Policy.CanViewExactly` | src/text_to_sql/security/classification.py:24-51 | Who sees what: public and internal columns everyone; confidential exactly admin and analyst; financial exactly admin, analyst and finance_read; personal exactly admin and pii_read; the two secret classes no one. |
| `Policy.PolicyDecision.Deny` | src/text_to_sql/security/policy.py:39-41 | Denying disallows and appends the reason. |
| `Policy.PolicyEngine.Enforce` | src/text_to_sql/security/policy.py:55-99 | The decision allows if and only if every table and every column reference is permitted, with one denial for each violation in order; a denial is issued if and only if a table is on the deny list or missing from an allow list, or a reference denotes a catalog column of a class the roles may not see. |
| `Policy.ColumnRefused` | src/text_to_sql/security/policy.py:83-98 | A recorded reference to a catalog column is refused exactly to the roles that may not see its class. |
| `Policy.PermissionMonotone` | src/text_to_sql/security/policy.py:55-99 | Reporting more columns or holding fewer roles can only make the policy stricter. |
| `Issues.PartitionReference` | src/text_to_sql/security/policy.py:84 | A recorded `table.column` reference splits back into its parts if and only if the table name has no dot. |
| `Issues.PartitionExactly` | src/text_to_sql/security/policy.py:84 | A reference is split at its first dot. |
| `Coverage.PermittedViewable` | src/text_to_sql/security/policy.py:83-98 | A permitted reference to a base column is a column the caller may view. |
| `Coverage.AcceptedAllOk` | src/text_to_sql/security/policy.py:83-98 | In a permitted statement every column any reference may denote is viewable. |
| `Coverage.PolicyIndependence` | src/text_to_sql/security/policy.py:83-99 | A permitted query gives the same result on databases that differ only in columns the caller may not view. |
| `IndependenceTheorem.AgreeQuery` | src/text_to_sql/security/policy.py:8-14 | Queries whose references denote readable columns only cannot observe any other column, through any nesting of scopes. |
| `ExecutedQuery.ExecutedDependsOnlyOn` | src/text_to_sql/application/orchestrator.py:428-448 | The rewritten query depends only on the tenant's rows and, in them, only on viewable columns. |
| `ExecutedQuery.ExecutedDependsOnColumns` | src/text_to_sql/application/orchestrator.py:428-448 | In terms of whole databases: if they agree row by row on every viewable column and on every tenant column, the rewritten query gives the same result. |
| `Revalidation.RewriteKeepsNames` | src/text_to_sql/application/orchestrator.py:441-451 | Rewriting changes neither the virtual names nor what any name denotes nor the referenced tables. |
| `Misreading.RewriteMeetsExactly` | src/text_to_sql/security/rewriter.py:55-58 | A property of nodes holds everywhere after the rewrite if and only if it held everywhere before and holds of the nodes added. |
| `Misreading.QualifiedKnownExactly` | src/text_to_sql/sql/validator.py:323-350 | A qualified column is found unknown if and only if its qualifier denotes considered catalog tables only and none of them has such a column. |
| `Misreading.RewriteStaysCleanExactly` | src/text_to_sql/application/orchestrator.py:450-453 | A valid statement is still valid after the rewrite if and only if the validator misreads the label of no tenant table: the occurrence is not hidden by a CTE or derived table of its name while the tables known under its label elsewhere lack the tenant column. |
| `Misreading.RewriteStaysClean` | src/text_to_sql/application/orchestrator.py:450-453 | Where no CTE or derived table has the name of a catalog table, every valid statement is still valid after the rewrite. |
| `Revalidation.RewriteKeepsReferences` | src/text_to_sql/application/orchestrator.py:450-453 | No reference is lost. |
| `Revalidation.RewriteAddsOnlyTenantColumns` | src/text_to_sql/application/orchestrator.py:450-453 | Every new reference comes from the tenant column of a table occurrence. |
| `Catalog.Enrich` | src/text_to_sql/schema/catalog.py:87-122 | The result has the tables and columns of the input, in order and under their names, with the same foreign keys. A table gets tenant column c if and only if the semantics name c for it, c is not empty and the table has it. A column has the class the semantics give it where they do, its reflected one otherwise. Every tenant column assigned exists. |
| `Catalog.EnrichedTable` | src/text_to_sql/schema/catalog.py:87-122 | A lookup by name finds the table it found before, annotated in that sense. |
| `Catalog.EnrichKeepsNames` | src/text_to_sql/schema/catalog.py:87-122 | Enrichment keeps a well-named catalog well named. |
| `Limits.BoundedExactly` | src/text_to_sql/sql/normalizer.py:35-70 | The result has a literal limit within the maximum, and reports it, if and only if it is not a dynamic limit under a maximum of 10^12 or more. |
| `Limits.FlagsTell` | src/text_to_sql/sql/normalizer.py:27-59 | The flags, never both set, say exactly whether the statement was changed, and whether because it had no limit. |
| `Limits.RowBound` | src/text_to_sql/application/orchestrator.py:198 | The row bound is what the request asks for, never more than is configured; a request of zero asks for nothing. |
| `Limits.EnforceTwice` | src/text_to_sql/sql/normalizer.py:35-59 | Enforcing two maxima is enforcing the smaller. |
| `Limits.EncodedLimitQuery` | src/text_to_sql/sql/normalizer.py:35-59 | On the tree of a query, limiting is limiting the query. |
| `Limits.LimitCuts` | src/text_to_sql/sql/normalizer.py:35-59 | A query's rows are its rows without the limit, cut off. |
| `Limits.LimitTakes` | src/text_to_sql/sql/normalizer.py:35-59 | The limited query returns exactly the first rows of the original, if and only if a dynamic limit was not the smaller bound. |
| `Limits.DynamicLimitRaised` | src/text_to_sql/sql/normalizer.py:47-59 | Concretely: `SELECT 1 UNION ALL SELECT 1 LIMIT :n` with n = 1 yields one row, limited to two it yields both. |
| `Limits.LimitBounds` | src/text_to_sql/sql/normalizer.py:35-59 | Whatever the limit was, at most the maximum number of rows, all from the front. |
| `Limits.Execute` | src/text_to_sql/execution/executor.py:70-81 | Fetching one row more than allowed returns the first rows and says exactly whether any were cut. |
| `LimitFacts.LimitKeepsFindings` | src/text_to_sql/sql/normalizer.py:41-59 | Validation finds and references the same before and after limiting. |
| `CostMeasures.DeepestIsNesting` | src/text_to_sql/security/cost.py:151-162 | The deepest climb over all SELECTs is the structural nesting depth. |
| `CostMeasures.NestingBounds` | src/text_to_sql/security/cost.py:151-162 | No chain of SELECTs one below another is longer than the nesting depth. |
| `CostMeasures.NestingReached` | src/text_to_sql/security/cost.py:151-162 | Some chain is as long. |
| `CostMeasures.WidthOfQuery` | src/text_to_sql/security/cost.py:165-170 | The width of a query is the number of its projections, of a set operation that of a SELECT on its left, or on its right if only that is one. |
| `CostMeasures.JoinsCounted` | src/text_to_sql/security/cost.py:64 | Counting joins along the walk counts the joins of the tree. |
| `CostMeasures.NoJoins` | src/text_to_sql/security/cost.py:64 | None are counted if and only if no node is a join. |
| `CostMeasures.RewriteKeepsCost` | src/text_to_sql/security/cost.py:57-96 | Rewriting leaves join count, depth, projected columns and the Cartesian verdict as they were. |
| `CostMeasures.LimitKeepsCost` | src/text_to_sql/security/cost.py:57-96 | So does limiting. |
| `Cost.CostReport.Reject` | src/text_to_sql/security/cost.py:45-48 | A rejection disallows, raises the risk to high and appends its code. |
| `Cost.CostAnalyzer.Analyze` | src/text_to_sql/security/cost.py:57-114 | Allowed if and only if within every bound, without Cartesian join and not estimated too large; a code is reported if and only if its bound is broken; high risk exactly when not allowed; the rejections in order. |
| `Cost.RejectionsExactly` | src/text_to_sql/security/cost.py:57-114 | When each code is reported: every structural bound that is broken, and a too large estimate only if none is. |
| `Cost.CostAnalyzer.ClassifyRisk` | src/text_to_sql/security/cost.py:135-148 | With an estimate, high exactly from the high threshold on and low exactly below both; without one, never high, and low exactly when both structural measures are well below their bounds. |
| `Cost.CostAnalyzer.MaxSelectDepth` | src/text_to_sql/security/cost.py:151-162 | The climbing loops compute the nesting depth, at least 1. |
| `Cost.CostAnalyzer.Depth` | src/text_to_sql/security/cost.py:155-160 | One climb to the root counts the enclosing SELECTs. |
| `Cost.CostAnalyzer.CountJoins` | src/text_to_sql/security/cost.py:64 | The number of joins in the tree. |
| `Cost.CostAnalyzer.ProjectedColumns` | src/text_to_sql/security/cost.py:165-170 | The width of the outermost SELECT a breadth-first search finds. |
| `Cost.CostAnalyzer.HasCartesianProduct` | src/text_to_sql/security/cost.py:173-186 | True if and only if some join is CROSS or has neither condition nor NATURAL. |
| `QueryGate.Orchestrator.SecureCandidate` | src/text_to_sql/application/orchestrator.py:397-470 | For any parse result, the stages on statements in memory give the verdict of the gate, with the rewrites applied and the references of the final statement. |
| `QueryGate.Orchestrator.SecureStatements` | src/text_to_sql/application/orchestrator.py:407-440 | Validation and authorisation of the parsed statements, then the rest on a copy, give the verdict of the gate. |
| `QueryGate.Orchestrator.SecurePermitted` | src/text_to_sql/application/orchestrator.py:441-470 | Rewrite and limit a copy, then decide about the result. |
| `QueryGate.Orchestrator.DecideFinal` | src/text_to_sql/application/orchestrator.py:450-470 | Second validation, then cost. |
| `QueryGate.LimitExpression` | src/text_to_sql/sql/normalizer.py:35-59 | Limiting a copy in memory is limiting the statement. |
| `GateSpec.RejectionCodes` | src/text_to_sql/application/orchestrator.py:397-470 | A rejection names at least one code and all its codes belong to one stage. |
| `GateFaults.RejectedExactly` | src/text_to_sql/application/orchestrator.py:397-470 | The codes of a rejection are exactly its reasons: the parse failure, the number of statements, or all that the first stage to object finds wrong, each code under its own condition on the statement. |
| `GateFaults.SecondValidation` | src/text_to_sql/application/orchestrator.py:450-453 | After a clean first validation the second reports unknown columns at most, and does if and only if the label of a tenant table is misread. |
| `GateFaults.MendableExactly` | src/text_to_sql/application/orchestrator.py:375-389 | Which rejections start another attempt: the text does not parse; or it is one statement all of whose faults are unknown tables or columns, stars or denied functions; or a valid and permitted one whose rewrite is misread. |
| `GateFaults.FailureExactly` | src/text_to_sql/application/orchestrator.py:536-573 | The error class of a rejection, by the stage that objects and by whether the statement can be mended. |
| `GateSpec.AcceptedExactly` | src/text_to_sql/application/orchestrator.py:397-470 | Exactly when a parsed candidate is accepted, and with which statement. |
| `GateSpec.AcceptedIsSafe` | src/text_to_sql/application/orchestrator.py:397-470 | What is accepted was one statement; what will run is clean, guarded by every tenant predicate, bounded by a literal limit and affordable. |
| `GateSpec.RevalidationExactly` | src/text_to_sql/application/orchestrator.py:450-453 | The second validation accepts what the first accepted if and only if it misreads the label of no tenant table; the referenced tables stay the same. |
| `GateSpec.RevalidationComplete` | src/text_to_sql/application/orchestrator.py:450-453 | With proper names the second validation never rejects what the first accepted. |
| `MisreadExample.SecondValidationRejects` | src/text_to_sql/application/orchestrator.py:450-453 | `WITH patients AS (SELECT note FROM visits) SELECT p.note FROM patients AS p UNION ALL SELECT p.note FROM visits AS p`, `patients` a tenant table and `visits` not, is found clean and its rewrite is not. |
| `GateSpec.FinalCost` | src/text_to_sql/application/orchestrator.py:457-460 | The cost bounds see the structure that was submitted. |
| `GateSpec.DecidedBySubmission` | src/text_to_sql/application/orchestrator.py:397-470 | Acceptance is decided by the submitted statement alone: clean, permitted, affordable, and no label misread, which proper names rule out. |
| `GateMeaning.AcceptedMeaning` | src/text_to_sql/application/orchestrator.py:441-470 | An accepted query returns the first rows of its reading on the tenant's own data, never more than the bound, so the executor's cap cuts nothing. |
| `GateMeaning.AcceptedExactMeaning` | src/text_to_sql/application/orchestrator.py:441-470 | Without outer joins that null-extend a tenant table, an accepted query with a literal limit or none returns exactly the first rows it has on the tenant's own data. |
| `GateMeaning.AcceptedDependsOnlyOn` | src/text_to_sql/application/orchestrator.py:428-470 | Databases that agree on what the tenant owns and the caller may view give an accepted query the same result. |
| `Repair.CodesPartitioned` | src/text_to_sql/application/repair.py:22-52 | Each code is repairable or not, never both; the authorization, cost and safety codes of the failure mapper are together exactly the non-repairable ones and pairwise disjoint. |
| `Repair.RepairableExactly` | src/text_to_sql/application/repair.py:58-66 | Repairable if and only if something is wrong and nothing but correctness. |
| `Repair.SanitizedFeedback` | src/text_to_sql/application/repair.py:68-74 | The loop builds the feedback lines. |
| `Repair.FeedbackExactly` | src/text_to_sql/application/repair.py:68-74 | A line is in the feedback if and only if it is a correctness issue's code name, a colon and its message, and no line occurs twice. |
| `Repair.ExhaustedExactly` | src/text_to_sql/application/orchestrator.py:536-573 | The last error class is reached if and only if every code is repairable. |
| `Repair.FailureNamesStage` | src/text_to_sql/application/orchestrator.py:536-573 | For a rejection by the gate the error class names the stage that objected. |
| `RepairLoop.RunIsRun` | src/text_to_sql/application/orchestrator.py:344-392 | For every provider and gate: at most max + 1 calls, every turn but the last failed on correctness only, request k carries candidate k - 1 and only repairable feedback, and the loop stopped for a reason. |
| `RepairLoop.RunsAgree` | src/text_to_sql/application/orchestrator.py:344-392 | These properties determine the run. |
| `RepairLoop.GenerateWithRepair` | src/text_to_sql/application/orchestrator.py:344-392 | The loop returns the last candidate of the run, the gate's verdict on it, and one attempt less than there were calls. |
| `RepairLoop.ExhaustedMeansSpent` | src/text_to_sql/application/orchestrator.py:536-573 | A run reported as exhausted has spent its whole budget. |
| `RepairLoop.HardRejectionEndsRun` | src/text_to_sql/application/orchestrator.py:375-389 | A candidate that broke a safety, policy or cost rule is the last one. |
| `RepairLoop.EveryRunIsSafe` | src/text_to_sql/application/orchestrator.py:344-392 | Whatever the provider answers, a run ends with a safe statement or with reasons. |
| `Schemas.FindColumnSpec` | src/text_to_sql/domain/schema_models.py:94-102 | A column is found exactly when the table has one of that name. |
| `Schemas.TableExactly` | src/text_to_sql/domain/schema_models.py:122-134 | Looking a name up finds the last table with this full name, without any the first with this bare name, and nothing only if there is neither. |
| `JoinGraph.BuildJoinGraph` | src/text_to_sql/domain/schema_models.py:151-167 | The loops build the graph that has every resolvable foreign key in both directions and nothing else. |
| `JoinGraph.JoinGraphSymmetric` | src/text_to_sql/domain/schema_models.py:165-166 | The join graph is symmetric. |
| `JoinGraph.AdjacentExactly` | src/text_to_sql/domain/schema_models.py:160-166 | Two keys are adjacent if and only if a foreign key of one table refers to the other. |
| `JoinGraph.Neighbors` | src/text_to_sql/domain/schema_models.py:169-184 | The frontier loop, with its early stop, returns exactly the other tables within the given number of joins. |
| `JoinGraph.PathInBall` | src/text_to_sql/domain/schema_models.py:169-184 | A path of at most n edges ends within n joins. |
| `JoinGraph.BallHasPath` | src/text_to_sql/domain/schema_models.py:169-184 | Whatever is within n joins has such a path. |
| `ShortestPath.FindShortestPath` | src/text_to_sql/retrieval/retriever.py:226-247 | Always terminates with a path no other is shorter than, or with nothing exactly when there is no path. |
| `ShortestPath.Explore` | src/text_to_sql/retrieval/retriever.py:233-246 | Visiting one node's neighbours in any order keeps the search invariant. |
| `ShortestPath.Reconstruct` | src/text_to_sql/retrieval/retriever.py:239-245 | Following predecessors always reaches the source and gives a path of the recorded length. |
| `ShortestPath.NeighborsAgree` | src/text_to_sql/domain/schema_models.py:169-184 | A table is within h joins if and only if the shortest path to it has at most h edges. |
| `Ranking.Rank` | src/text_to_sql/retrieval/retriever.py:177 | Whatever order the scores are listed in, the result lists every scored key once, in order of descending score, ties in alphabetical order. |
| `Ranking.RankUnique` | src/text_to_sql/retrieval/retriever.py:177 | There is only one such list. |
| `Ranking.ChooseSeeds` | src/text_to_sql/retrieval/retriever.py:177-178 | The seeds are the k best-scored keys, or all: every other scored key has a lower score, or the same and comes later in the alphabet. |
| `Bridges.AddBridges` | src/text_to_sql/retrieval/retriever.py:215-223 | For every pair of seeds a shortest path is kept, and every bridge lies on a shortest path between two seeds. |
| `Bridges.SubsetLookup` | src/text_to_sql/domain/schema_models.py:189-193 | A table is found in the subset, as before, if its key or its bare name is among the names, and no other is. |
| `Bridges.RetrievedTables` | src/text_to_sql/retrieval/retriever.py:188-206 | The tables of the subset are those of the catalog whose key or bare name was chosen, in catalog order, each once. |
| `Bridges.KeptByKey` | src/text_to_sql/retrieval/retriever.py:188-206 | Where keys were chosen, a table is kept if and only if its key was. |
| `Bridges.DistancePreserved` | src/text_to_sql/retrieval/retriever.py:188-206 | Where a shortest path is kept, shortest paths in the subset and in the whole have the same length, or neither exists. |
| `Bridges.Retrieve` | src/text_to_sql/retrieval/retriever.py:188-206 | In a well-named catalog a table is in the subset if and only if it is in the catalog and its key is a seed or a bridge, in catalog order, each once. |
| `Bridges.RetrievalKeepsDistances` | src/text_to_sql/retrieval/retriever.py:188-206 | The retrieved subset joins any two seeds at exactly the distance the whole catalog does. |
| `Metrics.Histogram.Observe` | src/text_to_sql/observability/metrics.py:86-98 | One observation updates the summary of its own label set and of no other. |
| `Metrics.RenderKey` | src/text_to_sql/observability/metrics.py:103-114 | With ascending bounds, the lines of a label set are its bucket lines with the numbers of observations at most each bound, the +Inf line, the sum and the count, as text. |
| `Metrics.Histogram.Cumulate` | src/text_to_sql/observability/metrics.py:105-111 | The running sums over the slots are the numbers of observations at most each bound, they rise, and the last is the number of all. |
| `Metrics.CumulativeCounts` | src/text_to_sql/observability/metrics.py:105-111 | Summing slots up to a bound counts the values at most that bound; all slots count all values. |
| `MetricLabels.EscapeIsEach` | src/text_to_sql/observability/metrics.py:53-54 | The three successive replacements escape character by character. |
| `MetricLabels.LabelsRoundTrip` | src/text_to_sql/observability/metrics.py:45-54 | A rendered label set reads back as itself, newlines as spaces. |
| `MetricLabels.SameTextExactly` | src/text_to_sql/observability/metrics.py:45-54 | Two label sets have one text if and only if they differ in newlines against spaces at most. |
| `Redaction.ReplacedExactly` | src/text_to_sql/common/redaction.py:109-111 | After its replacement a bracket-free literal is gone, unless it occurred and is part of the marker's word. |
| `Redaction.ReplaceExactly` | src/text_to_sql/common/redaction.py:109-111 | Replacing a literal puts the marker for each first occurrence from left to right and leaves everything else as it is. |
| `Redaction.NeverRecreated` | src/text_to_sql/common/redaction.py:105-114 | Putting markers in place of segments never brings a removable literal into being. |
| `Redaction.LiteralsGone` | src/text_to_sql/common/redaction.py:105-111 | After all replacements no removable literal is left. |
| `Redaction.PassesKeepGone` | src/text_to_sql/common/redaction.py:59-74 | The built-in patterns, one after another, never bring a removable literal into being. |
| `Redaction.Redactor.constructor` | src/text_to_sql/common/redaction.py:92-103 | Literals of fewer than four characters are dropped, the others ordered longest first. |
| `Redaction.Redactor.SurvivesExactly` | src/text_to_sql/common/redaction.py:105-114 | A bracket-free literal is in the redacted text if and only if it is part of the marker's word and something was replaced. |
| `Redaction.Redactor.Redact` | src/text_to_sql/common/redaction.py:105-114 | The literals are replaced one after another, then the patterns run; no removable literal survives, and which literals do is stated exactly; a text with no literal is left to the patterns. |
| `Redaction.Redactor.MappingFree` | src/text_to_sql/common/redaction.py:116-127 | However deeply nested, no string value of a redacted mapping holds a removable literal; keys and structure stay. |
| `Redaction.Redactor.RedactedAt` | src/text_to_sql/common/redaction.py:116-127 | At every path of a value, however deep, a string is the redaction of the one that was there, and everything else is as it was. |
| `Dates.AddMonthComposes` | src/text_to_sql/semantic/dates.py:54-56 | Adding months gives a proper month, counts exactly and composes. |
| `Dates.CompletedPeriod` | src/text_to_sql/semantic/dates.py:90-119 | The last completed month, quarter or year is one whole period that ends at or before now, less than a period ago. |
| `Dates.CompletedUnique` | src/text_to_sql/semantic/dates.py:90-119 | No other window has these properties. |
| `Dates.WindowsChain` | src/text_to_sql/semantic/dates.py:90-119 | Windows chain without gap or overlap. |
| `Dates.WindowsNest` | src/text_to_sql/semantic/dates.py:90-119 | The last completed quarter is three months in a row, the last completed year four quarters. |
| `Dates.CompletedWeek` | src/text_to_sql/semantic/dates.py:126-131 | The last completed week runs Monday to Monday, ended by today, and chains. |

## Left out

- Parsing and printing of SQL: statements start as trees; `copy`, `where(append=True)` and `limit(n)` of the SQL library are taken to copy, conjoin and set the limit, and a breadth-first walk to visit children in order.
- A SELECT keeps its WHERE under a holder node that is present even when empty, and a query node carries its limit and the number of its projections; the nodes below a LIMIT clause are not modelled.
- Stars other than `COUNT(*)`, table aliases with a column list, recursive CTEs, parenthesised joins, USING and NATURAL semantics (a NATURAL or USING join has a node, but no meaning in the evaluator), window functions, LATERAL and OFFSET.
- Case folding: the source lower-cases and strips names of tables, columns, aliases, functions, denied and allowed tables and roles before it compares them; here all of these are taken as already normalised, and a function node as carrying the name the denylist is compared with.
- TenantIds.TenantLiteral: a tenant id of the digits 0 to 9 becomes a number; `str.isdigit` also accepts other Unicode digits.
- HAVING and WHERE do not see output aliases, as some dialects allow; only ORDER BY and GROUP BY do.
- Message wording of issues: codes and places are modelled, most messages are empty; the repair feedback uses messages as given.
- The iteration order of a Python set of table names is an arbitrary function of the configuration (`shuffle`); the sorted order of neighbours in the path search is any order.
- EXPLAIN: an arbitrary optional estimate for each final statement. Floating-point numbers are reals.
- The repair loop takes the gate as a function of the SQL text; parsing a text into statements in memory is an arbitrary function, and the gate's method is proved for any parse result.
- Scoring of tables by tokens, glossary terms and metrics, and the fallback when nothing scored: scores are any map from keys to numbers, and bridging takes any list of seeds.
- Regular expressions (redaction patterns, comment backstop, date phrases): the built-in redaction patterns are any sequence of passes each of which puts markers in place of segments, the backstop a flag, and only the window arithmetic of dates is modelled. Day windows (today, yesterday, last N days) and years before year 1 are left out.
- Counters, the registry and number formatting of metrics, and interleavings of threads.
- HTTP routes, settings, introspection, caching, logging, tracing, prompts and providers.
- TenantResults.ExactMeaning: stated for queries that narrowing leaves alone, because with other outer joins it is false; UnnarrowedJoins.UnnarrowedExactly says which queries these are, and TenantResults.OuterJoinExact gives the exact condition for one join.
