# hms_util core in Dafny

A model of the core of `hms_util`, a tool that reads the catalog tables of a
Hive metastore stored in PostgreSQL or MySQL. The core does three things.
It rebuilds DDL text for databases, tables, views and functions. It gathers
schema dictionaries of a catalog and compares two of them, producing a
difference tree and reconciliation SQL. It turns external tables into
Iceberg tables and renders query results as HTML and Markdown. Every
operation is modelled as the Python code behaves: the same branches, the
same exceptions and the same text. The two places where the code
evidently does not do what its authors meant are modelled as written, and a
corrected version is modelled beside each (see "Findings").

Modules, one per concept:

- `Base`: results and Python exceptions, `Fold`/`Scan` (a loop that
  stops at the first exception, with or without catching it), text helpers
  (`Split`, `Join`, `Concat`, `Strip`, `Contains`, `ReplaceAll`, `Count`,
  padding, integer text).
- `PyObj`: the Python values the code handles (`None`, bool, int, str,
  list, tuple and insertion-ordered dict with string keys), `str()`, `==`,
  `d[k]`, `d.get`, `x in l` and `zip`.
- `Config`: the INI file and its two readings of a boolean switch.
- `Metastore`: the row source. `dbo.query` is a function parameter
  `source` from request to one of three answers. `Fetched(rows, cols)` is a
  result. `NonePair` is the pair `(None, None)`, which both drivers return
  for a statement without result, when their pool is not set up, and
  (MySQL) when the statement raises. `FetchFailed` is the bare `None` the
  PostgreSQL driver returns when the statement raises. This module also
  holds the record helpers both metadata builders share.
- `TableDdl`: `DatabaseBackup.backup_table_ddl`. It runs the tagged query
  battery as a fold over a state record, then builds the CREATE
  statement, the partition statements and the text written.
- `TableSchema`: `DatabaseCompare.get_table_schema`, the same battery
  folded into a table dictionary.
- `DatabaseBackup`: `database_schema_backup`, with the header, the database
  statement and the table, view and function loops.
- `DatabaseSchema`: `get_database_schema`.
- `SchemaDiff`: the comparator's rules as functions. Each comparison
  returns an `Outcome`, which holds the result or the exception raised,
  together with the statements appended, in order.
- `Comparator`: the class `HiveSchemaComparator`. It has a `config` field
  and a `sqlStatements` field that its methods append to. A ghost log
  `issued` records the statements whose texts `sqlStatements` holds. Every
  method is proved to return what the `SchemaDiff` function returns and
  to append exactly that function's statements.
- `Iceberg`: `IcebergMigration.create_iceberg_migration_statements`.
- `ReportWriter`: `tuples_to_html_table`, `tuples_to_markdown_table` and the
  table text of `write_md_file`.

Loops that update variables are methods with `while` loops. Each method is
proved equal to the function that specifies it, and the properties are
proved as lemmas about those functions. An exception the source catches
becomes a `caught` flag next to what was computed and written up to that
point.

Several behaviours of the code are modelled as written, and the lemmas
state them:

- The comparator reads a view's text under `query`, while both schema
  builders store it under `definition`. So views never differ
  (`SchemaDiff.QueryKeyAbsent`).
- The comparator compares functions under `udfs`, while the builders use
  `functions`. So functions are never compared (`SchemaDiff.KindAbsent`).
- `get_database_schema` indexes a `functions` map that it never creates.
  So any function row ends the run in a caught `KeyError`
  (`DatabaseSchema.FunctionRowsAreCaught`).
- `get_table_schema` keeps only the last partition row, with its location
  stored under `value` (`TableSchema.LastPartitionOnly`).
- The database queries keep the whole `dbo.query` answer. So the database
  COMMENT and `comment` hold the rows, and LOCATION and `location` hold
  the column names; for `(None, None)` both are `None` and the run goes on
  (`Metastore.DatabaseCells`, `DatabaseSchema.PropertiesAreRowsAndColumns`,
  `DatabaseBackup.DatabaseStatementFirst`). Only a bare `None` raises. The
  early `return` for an empty database answer can never be reached.
- `(None, None)` from the Iceberg table listing unpacks, both files are
  opened, and the loop over `None` raises (`Iceberg.MigrationListFails`).
- The backup never writes a view statement, and the comparator reads its
  switches by truth value (see "Findings").
- Three Iceberg log messages lack a trailing newline: the two "is already
  an Iceberg table" lines (for the SerDe and for the storage handler) and
  "is a transactional table".

Further behaviours of the code that the model keeps:

- Single-line mode writes the collapsed statement followed by a newline.
- A failure to list tables, views or functions is caught. The partly
  built dictionary is returned rather than the failure propagating.
- Column comparison works on the keys of the `columns` dictionary, with
  types taken by position from `data_types`.
- The comparator's kind switch is `compare_udfs`.

## Model

| member | source | states |
|---|---|---|
| Config.Lookup | iniReader.py:80-84 | an option is found exactly when its section and its name both exist |
| Config.GetProperty | iniReader.py:80-84 | the option's text when present, the default otherwise |
| Config.MissingSwitchIsOn | commands/hiveSchemaComparator.py:15 | a missing switch is on under both the comparator's truthiness reading and the `== 'true'` reading |
| Config.FalseSwitchAsWritten | commands/hiveSchemaComparator.py:105 | a switch written `false` stays on for the comparator but is off for every other command |
| Config.EnabledExactly | commands/databaseCompare.py:16 | under `== 'true'` a switch is on exactly when it is missing or says `true` |
| Config.ComparatorTogglesAsWritten | commands/hiveSchemaComparator.py:15-144 | each of the nine switches is on exactly when its option is missing or holds any non-empty text, the truth value the comparator tests; the comparator class reads its switches this way |
| Config.ComparatorToggles | commands/hiveSchemaComparator.py:15-144 | the corrected reading: each of the nine switches is on exactly when its option is missing or says `true` |
| Config.ColumnsSwitchCounterexample | commands/hiveSchemaComparator.py:105 | `compare_columns = false` leaves column comparison on as written and turns it off as intended |
| Config.ReadingsAgreeOnTrue | commands/hiveSchemaComparator.py:15-144 | the two readings give the same switches when the file only ever writes `true` |
| Metastore.RowsOf | commands/databaseCompare.py:42-43 | a result gives its rows; unpacking a bare `None` raises, and so does iterating the `None` of `(None, None)` |
| Metastore.RowsObj | commands/databaseCompare.py:25 | the rows as a list of tuples, one per row |
| Metastore.Cell | commands/databaseCompare.py:44 | `row[i]` raises exactly when the index is past the row |
| Metastore.Records | commands/databaseCompare.py:118-120 | one zipped record per row, in row order; any answer but a result raises |
| Metastore.FirstTwo | commands/databaseCompare.py:23-26 | the two cells of a non-empty answer; the "not found" branch exactly for an empty one; otherwise what `len` raises |
| Metastore.DatabaseCells | commands/databaseCompare.py:23-26 | a result gives the list of row tuples and the list of column names, `(None, None)` gives `None` twice, only a bare `None` raises, and the "not found" branch is never taken |
| Metastore.StrippedType | commands/databaseCompare.py:127 | the stripped type, raising unless it is text |
| Metastore.DeriveManagedUri | commands/databaseCompare.py:152-153 | a missing managed URI becomes the database URI with `external` replaced by `managed`; otherwise it is unchanged |
| Metastore.NeedsLocation | commands/databaseCompare.py:154-156 | the location is recorded exactly when both URIs are non-empty and the database URI does not occur in it |
| Metastore.DefaultLocationNotRecorded | commands/databaseBackup.py:177-180 | a location under the database directory is never recorded |
| Metastore.MapRecords | commands/databaseBackup.py:214-216 | one formatted item per record, in order; it succeeds when every record formats |
| Metastore.FormatRecords | commands/databaseBackup.py:215-216 | the append loop computes `MapRecords` |
| Metastore.MapRecordsStops | commands/databaseBackup.py:215-216 | once a record raises, the whole loop raises that exception |
| Metastore.RecordedPairsRecorded | commands/databaseBackup.py:193-206 | every key among the pairs passes the recording test, so no skipped or dedicated key is recorded |
| Metastore.SplitPartitionName | commands/databaseBackup.py:277 | on success the name is the key, `=`, then the value |
| Metastore.SplitPartitionNameExactly | commands/databaseBackup.py:277 | the split succeeds exactly when the name holds one `=` |
| Metastore.SplitPartitionNamePieces | commands/databaseBackup.py:277 | a key and a value without `=` split back into themselves |
| TableDdl.TableKeyword | commands/databaseBackup.py:151-156 | managed gives `TABLE`, external gives `EXTERNAL TABLE`, any other type is kept verbatim |
| TableDdl.IdentityStep | commands/databaseBackup.py:145-159 | Q1 stops with "not found" exactly when it has no row, raises exactly when the first row's type is not text, and otherwise records that row's name, id, stripped `type` and CREATE keyword, changing nothing else |
| TableDdl.StorageBucketRule | commands/databaseBackup.py:167-174 | a positive count gives `INTO n BUCKETS` and the `bucket` entry; otherwise the suffix is empty and the entry is unchanged |
| TableDdl.StorageLocationRule | commands/databaseBackup.py:177-180 | the LOCATION clause and entry are set exactly for a location outside the database directory |
| TableDdl.RouteParameters | commands/databaseBackup.py:189-212 | the Q3 loop computes the properties step |
| TableDdl.PropertyTexts | commands/databaseBackup.py:207 | item k is `'key'='value'` of pair k, one item per pair |
| TableDdl.ParamStepRouting | commands/databaseBackup.py:193-207 | what one parameter adds to `properties` and to the TBLPROPERTIES items |
| TableDdl.ParamsFoldProps | commands/databaseBackup.py:191-206 | `properties` is built from exactly the recorded parameters |
| TableDdl.ParamsFoldItems | commands/databaseBackup.py:206-207 | the items are exactly the emitted parameters, in row order |
| TableDdl.PropertiesRouting | commands/databaseBackup.py:189-212 | `properties` maps each recorded key to its last value; skipped and dedicated keys never appear; TBLPROPERTIES lists the emitted parameters or is empty |
| TableDdl.ParamStepDedicated | commands/databaseBackup.py:193-202 | a `storage_handler` row sets the STORED BY clause and `stored_by`, a `comment` row the COMMENT clause and `comment`, any other row neither |
| TableDdl.ParamsFoldStoredBy | commands/databaseBackup.py:191-202 | the STORED BY clause and `stored_by` come from the last `storage_handler` row, or stay as they were |
| TableDdl.ParamsFoldComment | commands/databaseBackup.py:191-202 | the COMMENT clause and `comment` come from the last `comment` row, or stay as they were |
| TableDdl.DedicatedRouting | commands/databaseBackup.py:189-212 | after Q3, STORED BY and `stored_by` hold the last `storage_handler` value and COMMENT and `comment` the last `comment` value; without such a row they are unchanged |
| TableDdl.RenderColumns | commands/databaseBackup.py:220-232 | the Q9 loop computes the columns step |
| TableDdl.ColumnStepShape | commands/databaseBackup.py:223-230 | one column row appends its definition and adds its name to `columns` |
| TableDdl.ColumnsFoldTexts | commands/databaseBackup.py:223-227 | one definition per row, in row order |
| TableDdl.ColumnsFoldKeys | commands/databaseBackup.py:228-230 | `columns` is keyed by exactly the rows' column names |
| TableDdl.ColumnNamesCover | commands/databaseBackup.py:228 | every row's column name is among the keys |
| TableDdl.SkewIgnored | commands/databaseBackup.py:251-257 | skew rows that all carry a skewed column name leave the state unchanged |
| TableDdl.PartitionSpecAccepts | commands/databaseBackup.py:277 | a partition name is accepted exactly when it holds one `=` |
| TableDdl.PartitionSpecQuoting | commands/databaseBackup.py:277-285 | an integer value stays unquoted and any other value is quoted |
| TableDdl.DdlStep | commands/databaseBackup.py:145-159 | only an empty Q1 stops the battery without an exception |
| TableDdl.DdlFoldStops | commands/databaseBackup.py:136-159 | once the battery stops or raises, later queries are never run |
| TableDdl.Clauses | commands/databaseBackup.py:290-293 | the clauses after the columns in their fixed order; LOCATION only for tables that are not plain `TABLE`s |
| TableDdl.SingleLineIsOneLine | commands/databaseBackup.py:295-297 | single-line mode writes exactly one line: the statement with every `\n` and `\r` removed |
| TableDdl.SingleLinePreservesText | commands/databaseBackup.py:295-297 | a statement without line breaks is written unchanged, plus the newline |
| TableDdl.BackupTableDdl | commands/databaseBackup.py:114-308 | the method returns the dictionary and writes the text that `TableBackup` describes |
| TableDdl.RunQuery | commands/databaseBackup.py:136-288 | one tagged query, with its loops run as loops, computes `DdlStep` |
| TableDdl.WriteAll | commands/databaseBackup.py:301-303 | the partition statements are written in order |
| TableDdl.MissingTableWritesNothing | commands/databaseBackup.py:157-159 | a table Q1 does not find is neither returned nor written |
| TableDdl.BackupShape | commands/databaseBackup.py:290-305 | a returned dictionary means the CREATE statement was written, then every partition statement in row order |
| TableDdl.LocationOnlyForNonManaged | commands/databaseBackup.py:290-293 | a plain `TABLE` never carries LOCATION; other types carry it right after the format clause |
| TableDdl.PartitionStatements | commands/databaseBackup.py:273-288 | one ALTER statement per partition row, each naming the table found by Q1 |
| TableSchema.SchemaIdentityStep | commands/databaseCompare.py:122-136 | Q1 reports the table missing exactly when it has no row, raises exactly when the type is not text, and otherwise records the first row's id and stripped `type`, changing no other entry |
| TableSchema.SetIf | commands/databaseCompare.py:145-164 | the key is set only when the condition holds |
| TableSchema.SetIfOther | commands/databaseCompare.py:145-164 | setting one key leaves every other key alone |
| TableSchema.StorageEntries | commands/databaseCompare.py:145-164 | each Q2 entry is written only when its condition holds |
| TableSchema.SchemaParamStepProps | commands/databaseCompare.py:168-180 | what one parameter does to `properties` |
| TableSchema.SchemaParamsProps | commands/databaseCompare.py:166-180 | `properties` is built from exactly the recorded parameters |
| TableSchema.SchemaPropertiesRule | commands/databaseCompare.py:165-180 | `properties` maps each recorded key to its last value, and no skipped or dedicated key |
| TableSchema.SchemaColumnStepShape | commands/databaseCompare.py:193-198 | one row appends its type and its name |
| TableSchema.SchemaColumnsAligned | commands/databaseCompare.py:193-198 | the types and names are aligned with the rows, index by index |
| TableSchema.SchemaColumnsRule | commands/databaseCompare.py:188-198 | `data_types` and `column_list` are lists aligned with the rows |
| TableSchema.LastPartitionOnly | commands/databaseCompare.py:235-242 | `custom_partitions` holds only the last row's key, mapped to its location |
| TableSchema.PartitionRow | commands/databaseCompare.py:236-242 | a well-formed row replaces `custom_partitions` with its own key and location |
| TableSchema.SchemaStep | commands/databaseCompare.py:122-136 | only an empty Q1 stops the battery without an exception |
| TableSchema.SchemaFoldStops | commands/databaseCompare.py:113-136 | once the battery stops or raises, later queries are never run |
| TableSchema.GetTableSchema | commands/databaseCompare.py:92-246 | the method returns the dictionary that `TableSchemaOf` describes, or `None` |
| TableSchema.RunSchemaQuery | commands/databaseCompare.py:113-242 | one tagged query, with its loops run as loops, computes `SchemaStep` |
| TableSchema.MissingTableHasNoSchema | commands/databaseCompare.py:134-136 | a table Q1 does not find has no schema |
| TableSchema.SchemaStorageRule | commands/databaseCompare.py:137-164 | `bucket` exactly for a positive count, `location` exactly outside the database directory, each format exactly when not NULL |
| TableSchema.OptionalKeysRule | commands/databaseCompare.py:181-233 | the sort, skew and partition-key entries are present exactly when their query has rows or they were present before; `clustered_by` likewise when the first value is not NULL |
| DatabaseBackup.ViewStatementAsWrittenIsEmpty | commands/databaseBackup.py:85-93 | as written, every view row yields the empty statement |
| DatabaseBackup.ViewStatementIntended | commands/databaseBackup.py:89-92 | with the kind read from its cell, views and materialized views get their CREATE statement and other kinds get none |
| DatabaseBackup.ViewStatementCounterexample | commands/databaseBackup.py:89-93 | the row `('VIRTUAL_VIEW', 'select 1', 'v')` writes nothing as written and `CREATE VIEW v as (select 1);` as intended |
| DatabaseBackup.FunctionStatement | commands/databaseBackup.py:105 | the statement exists exactly for rows of at least three cells |
| DatabaseBackup.FunctionWordsJoin | commands/databaseBackup.py:105 | the statement is its six words joined by spaces |
| DatabaseBackup.FunctionStatementJoin | commands/databaseBackup.py:105 | a function row's statement is those six words |
| DatabaseBackup.FunctionStatementWords | commands/databaseBackup.py:105 | split on spaces, the statement reads back as the keywords and the row's kind, name and class |
| DatabaseBackup.DatabaseSchemaBackup | commands/databaseBackup.py:17-111 | the method returns and writes what `DatabaseBackupOf` describes: the database statement from the whole query answer, then the tables, the (always empty) view statements and the function statements |
| DatabaseBackup.BackupViewsAndFunctions | commands/databaseBackup.py:70-106 | the view and function loops compute `ViewsAndFunctions`, whose view loop uses the statement as the backup computes it |
| DatabaseBackup.BackupTableRow | commands/databaseBackup.py:60-65 | one listed table is backed up and stored under its name |
| DatabaseBackup.BackupTables | commands/databaseBackup.py:59-65 | the tables loop computes the scan of its step |
| DatabaseBackup.StepsAppend | commands/databaseBackup.py:59-106 | every step of the three loops only appends to the text |
| DatabaseBackup.ViewsAndFunctionsExtend | commands/databaseBackup.py:70-106 | the view and function loops keep what was written before |
| DatabaseBackup.AfterDatabaseExtends | commands/databaseBackup.py:46-111 | everything after the database statement keeps what was written before |
| DatabaseBackup.BackupBeginsWithHeader | commands/databaseBackup.py:24-44 | the text always begins with the header; with the database statement on, a bare `None` is caught with only the header written and an empty result |
| DatabaseBackup.DatabaseStatementFirst | commands/databaseBackup.py:35-41 | with the database statement on and any answer but a bare `None`, the text begins with the header and the statement built from the answer's two cells |
| DatabaseBackup.NoneStatement | commands/databaseBackup.py:40 | for `(None, None)` the statement reads `COMMENT "None"` and `LOCATION "None"` |
| DatabaseBackup.ViewsAddNothing | commands/databaseBackup.py:70-106 | with function statements off, the view loop leaves the backup text as it was, whatever views are listed |
| DatabaseBackup.ViewsWriteNothing | commands/databaseBackup.py:78-93 | as written, the view loop never changes the text |
| DatabaseBackup.ViewsWritten | commands/databaseBackup.py:78-93 | the corrected view loop writes each found view's statement in row order, and raises exactly when a view raises |
| DatabaseBackup.FunctionsWritten | commands/databaseBackup.py:102-106 | one statement per function row, in order; it raises exactly when a row raises |
| DatabaseBackup.TablesBackedUp | commands/databaseBackup.py:59-65 | when the loop completes, each name in `tables` maps to its DDL backup's dictionary, or `None` |
| DatabaseSchema.DatabaseProperties | commands/databaseCompare.py:16-29 | the properties raise exactly for a bare `None`; otherwise they are gathered and the "not found" return is never taken |
| DatabaseSchema.ViewEntry | commands/databaseCompare.py:62-71 | a view entry keyed by `TBL_NAME` with its `definition`, and `type` only for the two view kinds |
| DatabaseSchema.GetDatabaseSchema | commands/databaseCompare.py:12-89 | the method returns what `DatabaseSchemaOf` describes |
| DatabaseSchema.ListTables | commands/databaseCompare.py:42-45 | the tables loop computes the scan of its step |
| DatabaseSchema.AssembleReads | commands/databaseCompare.py:13-33 | `properties` and `default` are present exactly when their parts were gathered |
| DatabaseSchema.NoFunctionsMap | commands/databaseCompare.py:31-50 | `default` holds only `tables` and, when gathered, `views`; never `functions` |
| DatabaseSchema.PropertiesAreRowsAndColumns | commands/databaseCompare.py:16-33 | `comment` holds the rows and `location` the column names for a result, both are `None` for `(None, None)`, and the run goes on; a bare `None` is caught with nothing else gathered |
| DatabaseSchema.TableRowStepShape | commands/databaseCompare.py:43-45 | one table row stores its schema under its name |
| DatabaseSchema.TablesNamed | commands/databaseCompare.py:43-45 | a completed loop stores exactly the listed names |
| DatabaseSchema.TablesMapped | commands/databaseCompare.py:43-45 | each stored name maps to that table's schema or `None` |
| DatabaseSchema.ViewsMapped | commands/databaseCompare.py:56-71 | the views map holds exactly the found views; a repeated name keeps its last entry |
| DatabaseSchema.ViewEntryShape | commands/databaseCompare.py:63-71 | a stored view entry has its text as `definition` and a `type` exactly for the two view kinds |
| DatabaseSchema.ListedTablesGathered | commands/databaseCompare.py:36-45 | when listing completes, `tables` holds exactly the listed names with their schemas |
| DatabaseSchema.ListedViewsGathered | commands/databaseCompare.py:49-71 | when tables and views complete, `views` maps each found view to its last row's entry |
| DatabaseSchema.FailedTableListingCaught | commands/databaseCompare.py:15-45 | a table listing that is not a result is caught, with the properties when they are on and the skeleton with no table |
| DatabaseSchema.NoFunctionsGathered | commands/databaseCompare.py:80-85 | no result ever holds a functions map |
| DatabaseSchema.FunctionRowsAreCaught | commands/databaseCompare.py:80-88 | any function row ends the run in a caught exception |
| DatabaseSchema.UncaughtExactly | commands/databaseCompare.py:15-89 | a run finishes uncaught exactly when every enabled part completes and the functions listing is empty or disabled |
| SchemaDiff.StatementOpening | commands/hiveSchemaComparator.py:58-79 | creations, drops and alterations open with their own keywords |
| SchemaDiff.CompareSets | commands/hiveSchemaComparator.py:198-208 | `None` exactly for equal sets; otherwise the non-empty differences under `only_in_1_`/`only_in_2_` |
| SchemaDiff.EmptyDifferences | commands/hiveSchemaComparator.py:198-208 | both differences are empty exactly when the sets are equal |
| SchemaDiff.NamesWhere | commands/hiveSchemaComparator.py:54-58 | the names the dictionary holds (or lacks), in key order |
| SchemaDiff.NamesWhereDistinct | commands/hiveSchemaComparator.py:54-58 | names drawn from distinct keys are distinct |
| SchemaDiff.NamesWhereNone | commands/hiveSchemaComparator.py:58-87 | no name is taken when none qualifies |
| SchemaDiff.Enumerate | commands/hiveSchemaComparator.py:172 | Python `enumerate` |
| SchemaDiff.ColumnStatements | commands/hiveSchemaComparator.py:179-189 | one ADD COLUMNS or DROP COLUMN per change, in order |
| SchemaDiff.AbsentExact | commands/hiveSchemaComparator.py:172-189 | the positions recorded are exactly, and in order, those whose item the other side lacks |
| SchemaDiff.ColumnRunSucceeds | commands/hiveSchemaComparator.py:172-189 | a column loop finishes exactly when every membership test and type lookup succeeds |
| SchemaDiff.Found | commands/hiveSchemaComparator.py:172-189 | the reference: each absent item with its type, in order |
| SchemaDiff.ColumnRunFound | commands/hiveSchemaComparator.py:172-189 | a finished loop records exactly the absent items with their types and appends one statement each, in order |
| SchemaDiff.ColumnsCompared | commands/hiveSchemaComparator.py:165-195 | new columns, then dropped ones; `None` when there are neither; ADD statements before DROP statements |
| SchemaDiff.ColumnsSelf | commands/hiveSchemaComparator.py:165-195 | a column list compared with itself finds and appends nothing |
| SchemaDiff.DimensionCompared | commands/hiveSchemaComparator.py:116-150 | when on, a dimension finds a change exactly when the values differ under `!=`; a primary key appends DROP then ADD, any other dimension appends one statement |
| SchemaDiff.DimensionSelf | commands/hiveSchemaComparator.py:116-150 | a dimension compared with itself finds and appends nothing |
| SchemaDiff.ColumnsDimensionOwn | commands/hiveSchemaComparator.py:105-113 | the column dimension is empty when off and appends only column statements |
| SchemaDiff.ColumnsOwn | commands/hiveSchemaComparator.py:165-195 | column comparison appends only column statements |
| SchemaDiff.ColumnRunOwn | commands/hiveSchemaComparator.py:172-189 | a column loop appends only column statements |
| SchemaDiff.ColumnsDimensionSelf | commands/hiveSchemaComparator.py:105-113 | the column dimension on a table against itself finds and appends nothing |
| SchemaDiff.AttributesOfParts | commands/hiveSchemaComparator.py:103-150 | every statement comes from one dimension, and each entry is that dimension's result |
| SchemaDiff.DimensionOwn | commands/hiveSchemaComparator.py:116-150 | a dimension switched off is empty, and a dimension appends only its own statements |
| SchemaDiff.TableAttributesParts | commands/hiveSchemaComparator.py:103-150 | each dimension's entry and statements depend only on its own switch |
| SchemaDiff.DimensionSilent | commands/hiveSchemaComparator.py:116-150 | a dimension switched off reports nothing and has none of its statements appended |
| SchemaDiff.ColumnsSilent | commands/hiveSchemaComparator.py:105-113 | with columns off, no column is reported, added or dropped |
| SchemaDiff.AttributesOwn | commands/hiveSchemaComparator.py:99-162 | attribute comparison appends only alterations of objects of its kind |
| SchemaDiff.TableAttributesOwn | commands/hiveSchemaComparator.py:103-150 | table attributes append only table alterations |
| SchemaDiff.ViewQueryUnswitched | commands/hiveSchemaComparator.py:153-160 | a view's query is compared whatever the switches say, and differs exactly under `!=` |
| SchemaDiff.QueryKeyAbsent | commands/hiveSchemaComparator.py:155-160 | views without a `query` key never differ |
| SchemaDiff.AttributesSelf | commands/hiveSchemaComparator.py:99-162 | an object's attributes compared with themselves find and append nothing |
| SchemaDiff.ColumnDefinitions | commands/hiveSchemaComparator.py:212 | `zip` stops at the shorter of the two lists |
| SchemaDiff.CreateStatement | commands/hiveSchemaComparator.py:58-67 | an added object's statement is a creation of its kind in its schema |
| SchemaDiff.CreateTableShape | commands/hiveSchemaComparator.py:211-229 | one definition per column and type pair; each optional clause is empty exactly when its key is absent; a missing list raises `KeyError` |
| SchemaDiff.CreateShape | commands/hiveSchemaComparator.py:231-235 | a view is created from `definition`, a function from `return_type` and its first argument |
| SchemaDiff.RunCollects | commands/hiveSchemaComparator.py:58-67 | the add loop succeeds exactly when every statement can be built, and then records every name and appends their statements in order |
| SchemaDiff.DropStatements | commands/hiveSchemaComparator.py:70-79 | one DROP per dropped name |
| SchemaDiff.DropStatementsAt | commands/hiveSchemaComparator.py:70-79 | the DROP at each position is for the name at that position |
| SchemaDiff.DropStatementsKind | commands/hiveSchemaComparator.py:70-79 | only DROPs of the object kind are appended |
| SchemaDiff.AddRun | commands/hiveSchemaComparator.py:58-67 | the first loop records every added name in order and appends exactly their creation statements |
| SchemaDiff.ModRun | commands/hiveSchemaComparator.py:87-90 | the last loop appends only alterations of its kind and records only common objects that differ |
| SchemaDiff.ModRunExact | commands/hiveSchemaComparator.py:87-90 | the last loop succeeds exactly when every object's comparison does, and then records exactly the objects whose attributes differ, each with its differences |
| SchemaDiff.ModRunNothing | commands/hiveSchemaComparator.py:87-90 | the last loop records nothing exactly when every object compares without differences |
| SchemaDiff.ObjectsCompared | commands/hiveSchemaComparator.py:47-96 | added and dropped are exactly the one-sided keys, each once; `name_differences` is the set comparison; `modified_objects` holds exactly the common objects whose attributes differ, with their differences; `None` only for equal key sets |
| SchemaDiff.ObjectsNone | commands/hiveSchemaComparator.py:87-96 | `None` exactly when both hold the same names and every common object compares without differences |
| SchemaDiff.ObjectsAppended | commands/hiveSchemaComparator.py:47-96 | the statements are the first loop's, then the drops, then the last loop's |
| SchemaDiff.OrderedParts | commands/hiveSchemaComparator.py:58-90 | creations, drops and alterations laid end to end, position by position |
| SchemaDiff.ObjectsOrdered | commands/hiveSchemaComparator.py:47-96 | one creation per added object, then one DROP per dropped object, then alterations |
| SchemaDiff.ObjectsSelf | commands/hiveSchemaComparator.py:47-96 | objects compared with themselves find and append nothing |
| SchemaDiff.NothingAdded | commands/hiveSchemaComparator.py:54-79 | an object set compared with itself adds and drops nothing |
| SchemaDiff.ModsQuiet | commands/hiveSchemaComparator.py:87-90 | the attribute loop of a set against itself records and appends nothing |
| SchemaDiff.ObjectsOwnKind | commands/hiveSchemaComparator.py:47-96 | every statement is about an object of the compared kind |
| SchemaDiff.KindOwn | commands/hiveSchemaComparator.py:30-43 | each kind's comparison appends only statements of that kind |
| SchemaDiff.SchemaObjectsResults | commands/hiveSchemaComparator.py:27-45 | each kind's entry is that kind's comparison |
| SchemaDiff.SchemaObjectsStatements | commands/hiveSchemaComparator.py:27-45 | each statement comes from its own kind's comparison |
| SchemaDiff.KindSilent | commands/hiveSchemaComparator.py:30-43 | a kind switched off reports nothing and has no statement about it |
| SchemaDiff.KindAbsent | commands/hiveSchemaComparator.py:30-43 | a kind neither schema holds finds nothing |
| SchemaDiff.SchemaObjectsSelf | commands/hiveSchemaComparator.py:27-45 | a schema compared with itself has no differences and no statements |
| SchemaDiff.SchemaMaps | commands/hiveSchemaComparator.py:12-13 | on success, the two `schemas` dictionaries |
| SchemaDiff.SchemaRun | commands/hiveSchemaComparator.py:20-23 | only visited schemas whose objects differ are recorded |
| SchemaDiff.SchemaRunExact | commands/hiveSchemaComparator.py:20-23 | the schema loop succeeds exactly when every schema's comparison does, and then records exactly the schemas whose objects differ, each with its differences |
| SchemaDiff.SchemasCompared | commands/hiveSchemaComparator.py:9-25 | `schemas` is the set comparison when switched on and absent when off; the per-schema entries are exactly the common schemas whose objects differ, each with its differences |
| SchemaDiff.SchemasSelf | commands/hiveSchemaComparator.py:9-25 | a schema dictionary compared with itself has no differences and appends no statement |
| Comparator.HiveSchemaComparator.constructor | commands/hiveSchemaComparator.py:5-7 | the configuration is kept and the statement list starts empty |
| Comparator.HiveSchemaComparator.Issue | commands/hiveSchemaComparator.py:73 | an append adds exactly one statement at the end |
| Comparator.HiveSchemaComparator.CompareColumnAt | commands/hiveSchemaComparator.py:173-179 | one pass of a column loop returns and appends what `ColumnStep` describes |
| Comparator.HiveSchemaComparator.CompareColumnLoop | commands/hiveSchemaComparator.py:172-179 | a column loop returns and appends what `ColumnRun` describes |
| Comparator.HiveSchemaComparator.CompareColumns | commands/hiveSchemaComparator.py:165-195 | `_compare_columns` returns and appends what `ColumnsOutcome` describes |
| Comparator.HiveSchemaComparator.CompareDimension | commands/hiveSchemaComparator.py:116-150 | one value-compared block returns and appends what `ChangeDimension` describes |
| Comparator.HiveSchemaComparator.CompareColumnDimension | commands/hiveSchemaComparator.py:105-113 | the columns block returns and appends what `ColumnsDimension` describes |
| Comparator.HiveSchemaComparator.CompareDimensions | commands/hiveSchemaComparator.py:116-131 | two blocks in a row; the second is skipped when the first raises |
| Comparator.HiveSchemaComparator.CompareTableAttributes | commands/hiveSchemaComparator.py:103-150 | the table block returns and appends what `TableAttributes` describes |
| Comparator.HiveSchemaComparator.CompareAttributes | commands/hiveSchemaComparator.py:99-162 | `_compare_attributes` returns and appends what `AttributesOutcome` describes |
| Comparator.HiveSchemaComparator.AddObject | commands/hiveSchemaComparator.py:59-67 | one pass of the add loop |
| Comparator.HiveSchemaComparator.AddObjects | commands/hiveSchemaComparator.py:58-67 | the add loop |
| Comparator.HiveSchemaComparator.DropObjects | commands/hiveSchemaComparator.py:70-79 | every dropped name is recorded and exactly its DROP is appended, in order |
| Comparator.HiveSchemaComparator.CompareObjectAt | commands/hiveSchemaComparator.py:88-90 | one pass of the common-object loop carries its result and appended statements from the names before `names[i]` to the names up to and including it |
| Comparator.HiveSchemaComparator.CompareCommonObjects | commands/hiveSchemaComparator.py:87-90 | the common-object loop |
| Comparator.HiveSchemaComparator.CompareObjects | commands/hiveSchemaComparator.py:47-96 | `_compare_objects` returns and appends what `ObjectsOutcome` describes |
| Comparator.HiveSchemaComparator.CompareKind | commands/hiveSchemaComparator.py:30-33 | one kind, read with `.get(kind, {})` when switched on |
| Comparator.HiveSchemaComparator.CompareSchemaObjects | commands/hiveSchemaComparator.py:27-45 | `_compare_schema_objects` returns and appends what `SchemaObjectsOutcome` describes |
| Comparator.HiveSchemaComparator.CompareSchemaAt | commands/hiveSchemaComparator.py:21-23 | one pass of the schema loop carries its result and appended statements from the names before `names[i]` to the names up to and including it |
| Comparator.HiveSchemaComparator.CompareCommonSchemas | commands/hiveSchemaComparator.py:20-23 | the schema loop |
| Comparator.HiveSchemaComparator.CompareSchemas | commands/hiveSchemaComparator.py:9-25 | `compare_schemas` returns and appends what `SchemasOutcome` describes |
| Iceberg.PropScanValues | commands/icebergMigration.py:43-53 | the loop raises exactly on a short row; it ends with the last handler, the last transactional flag, and `'true'` purge exactly when some row set it |
| Iceberg.ScanTableParams | commands/icebergMigration.py:46-53 | the property loop computes the fold of its step |
| Iceberg.MigrationStepFails | commands/icebergMigration.py:26-47 | a row raises exactly when it is short, or when an eligible table's parameter query fails or returns a short row |
| Iceberg.MigrationStepWrites | commands/icebergMigration.py:30-64 | a converted table gets the ALTER statement; any other gets exactly the log line for its reason |
| Iceberg.IcebergSerdeNeverConverts | commands/icebergMigration.py:35-40 | a table already on the Iceberg serde is never converted |
| Iceberg.MigrateRow | commands/icebergMigration.py:26-64 | one pass of the row loop computes `MigrationStep` |
| Iceberg.Alters | commands/icebergMigration.py:62-64 | the reference: at most one statement per row |
| Iceberg.ScanWritesAlters | commands/icebergMigration.py:26-64 | a loop that gets through every row writes the converted tables' statements, in row order |
| Iceberg.ScanWritesPrefix | commands/icebergMigration.py:26-69 | a loop cut short at row `n` has written the statements of the rows before it |
| Iceberg.AltersStepSql | commands/icebergMigration.py:62-64 | the last row adds its statement, if any, after those already written |
| Iceberg.MigrationWritesAlters | commands/icebergMigration.py:18-69 | a completed run writes exactly the converted tables' statements; `table_properties` plays no part |
| Iceberg.MigrationListFails | commands/icebergMigration.py:21-26 | no file is opened exactly for a bare `None`; `(None, None)` opens both files, and either way the failure is caught with nothing written |
| Iceberg.CreateIcebergMigrationStatements | commands/icebergMigration.py:18-69 | the method opens, writes and catches what `Migration` describes |
| ReportWriter.Strs | reportWriter.py:53 | `str` of each value, in order |
| ReportWriter.UpperOneLine | reportWriter.py:49 | upper-casing never makes a line break |
| ReportWriter.HeaderCells | reportWriter.py:49 | one upper-cased `<th>` cell per column, in order |
| ReportWriter.DataCells | reportWriter.py:54 | one `<td>` cell per value, in order |
| ReportWriter.HtmlRows | reportWriter.py:51-55 | one `<tr>` per record, in order |
| ReportWriter.TuplesToHtmlTable | reportWriter.py:43-64 | the method, with its row loop, builds `HtmlTable` |
| ReportWriter.HtmlTitleLines | reportWriter.py:47 | the title reads back as a blank line, the heading and a blank line |
| ReportWriter.HtmlEmptyLines | reportWriter.py:44-45 | with no records, the text is a blank line, the heading and the empty notice |
| ReportWriter.HtmlRowOneLine | reportWriter.py:54 | a record's row is one line when its values are |
| ReportWriter.HtmlRowsOneLine | reportWriter.py:51-55 | all rows together make one line |
| ReportWriter.HtmlHeaderOneLine | reportWriter.py:49 | the header row is one line |
| ReportWriter.HtmlTableLinesRead | reportWriter.py:47-64 | the text reads back line by line: title, opening tag, header, `<tbody>`, all rows, closing tags, footer |
| ReportWriter.UpperAll | reportWriter.py:72 | the column names upper-cased, in order |
| ReportWriter.Markers | reportWriter.py:74 | one `:---` per column |
| ReportWriter.MarkdownRows | reportWriter.py:76-79 | one line per record, in order |
| ReportWriter.TuplesToMarkdownTable | reportWriter.py:66-83 | the method, with its row loop, builds `MarkdownTable` |
| ReportWriter.MarkdownEmptyLines | reportWriter.py:67-68 | with no records, the text is the heading line and the notice line |
| ReportWriter.SeparatorCounts | reportWriter.py:74 | the separator holds one colon per column and one bar between each two |
| ReportWriter.MarkdownTableLines | reportWriter.py:70-81 | the text reads back as heading, blank line, header, separator, one line per record, and three blank lines |
| ReportWriter.MarkdownHeaderOneLine | reportWriter.py:73-74 | the header and separator are one line each |
| ReportWriter.MarkdownRowsOneLine | reportWriter.py:76-79 | each record's line holds no line break |
| ReportWriter.MaxLen | reportWriter.py:27-28 | `max` of the lengths: raises `ValueError` on no texts, otherwise bounds every length and is reached |
| ReportWriter.ValueTexts | reportWriter.py:25-28 | `str` of each value, in dictionary order |
| ReportWriter.MetricsRows | reportWriter.py:33-34 | one padded row per entry, in dictionary order |
| ReportWriter.MetricsTableText | reportWriter.py:22-34 | the method, with its row loop, builds `MetricsTable` |
| ReportWriter.MetricsRowLength | reportWriter.py:34 | a row whose texts fit the widths has the length the widths fix, and holds its key from the third character |
| ReportWriter.MetricsTableAligned | reportWriter.py:22-34 | raises on an empty dictionary; otherwise all rows have one length, the separator is two longer, and each row holds its key from the third character |
| ReportWriter.MetricsRowsAligned | reportWriter.py:33-34 | every row has the common length and holds its key from the third character |

## Left out

- Set iteration order. `set(d.keys())`, `-` and `intersection` iterate in
  hash order, which Python does not fix. The model iterates in dictionary
  key order, so every statement-order property holds for that order.
- Dictionary keys are strings. Metadata used as a key but not text is
  modelled as an exception.
- Python `==` between `True` and `1` is not modelled. Booleans and
  integers are never equal.
- `str.upper()` maps ASCII letters only.
- `str()` of text inside a list or tuple shows the text quoted, without
  `repr` escapes.
- `int(value)` is modelled as surrounding whitespace, an optional sign, and
  ASCII digits with single underscores between them. Non-ASCII digits and
  whitespace beyond ASCII are not covered.
- In `compare_schemas`, a schema named `schemas` and the set-comparison
  entry share one key. The model keeps the two in separate fields.
- The database dialect (`db_type`) only changes the listing SQL, which is
  not modelled. Both drivers are the one `source` function; the answers
  only one of them gives (the bare `None`) are among its values.
- Connections, query timeouts, logging, `print`, `traceback` and the
  progress counter of the table loop are left out.
- File I/O is left out:
  - opening, closing and naming files (`results_dir`, `filebase`);
  - write failures and the `IOError` of `write_md_file`.
  What each file receives is modelled as text.
- `IcebergMigration.__init__` stores neither `approach` nor
  `results_dir`.
- The rest of the repository is not part of this model:
  - `print_diffs_detailed`, `print_diffs_hierarchical` and
    `generate_html_report`;
  - `write_csv_file`, `write_section1` and `write_section2`;
  - the report and summary commands;
  - the command-line entry point;
  - `iniReader.validate` and `read_config_file`.
- The round trip from a synthesized DDL back to a table schema is not
  modelled: the code has no DDL parser.
- ReportWriter.HtmlTableLinesRead is stated only for names and values
  without line breaks, because such a value splits a row across lines.
- ReportWriter.MarkdownTableLines has the same limit, for the same reason.

## Findings

| source | as written | input that shows it | evidently intended | confidence | as-written member | corrected member |
|---|---|---|---|---|---|---|
| commands/hiveSchemaComparator.py:105 | the comparator tests each `compare_*` switch for truthiness, so the text `false` keeps the comparison on | `[compare]` with `compare_columns = false` | the switch is on only for `true`, as every other command reads it | not executed | Config.ComparatorTogglesAsWritten, Config.ColumnsSwitchCounterexample, Comparator.HiveSchemaComparator.CompareSchemas | Config.ComparatorToggles, Config.EnabledExactly |
| commands/databaseBackup.py:89-92 | the whole row tuple is compared with `'VIRTUAL_VIEW'` and `'MATERIALIZED_VIEW'`; a tuple never equals a string, so no view statement is ever written | the view row `('VIRTUAL_VIEW', 'select 1', 'v')` | compare the `TBL_TYPE` cell, writing `CREATE VIEW v as (select 1);` | not executed | DatabaseBackup.ViewStatementAsWrittenIsEmpty, DatabaseBackup.ViewsWriteNothing, DatabaseBackup.ViewsAddNothing | DatabaseBackup.ViewStatementIntended, DatabaseBackup.ViewsWritten |
