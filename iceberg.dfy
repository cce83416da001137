/** The in-place Iceberg migration planner: for every table of a database,
    either one `ALTER TABLE … SET TBLPROPERTIES` statement that turns it
    into an Iceberg table, or one line in the log saying why it is left
    alone. */
module Iceberg {
  import opened Base
  import opened PyObj
  import opened Metastore

  /** `valid_formats`: the serde libraries a table may be converted from. */
  const ValidFormats: seq<string> := [
    "org.apache.hadoop.hive.ql.io.orc.OrcSerde",
    "org.apache.hadoop.hive.ql.io.parquet.serde.ParquetHiveSerDe",
    "org.apache.hadoop.hive.serde2.avro.AvroSerDe"
  ]

  const IcebergSerde := "org.apache.iceberg.mr.hive.HiveIcebergSerDe"
  const IcebergHandler := "org.apache.iceberg.mr.hive.HiveIcebergStorageHandler"

  /** The settings the planner is built with. `approach` is accepted and
      dropped; `table_properties` is stored and never read. */
  datatype IcebergMigration = IcebergMigration(version: string, tableProperties: string, resultsDir: string)

  /** `IcebergMigration()` with its default arguments. */
  const DefaultMigration := IcebergMigration("2", "", "results")

  // ---------------------------------------------------------------------
  // The statement

  /** The storage handler property, the same for every table. */
  const HandlerProp := "'storage_handler'='org.apache.iceberg.mr.hive.HiveIcebergStorageHandler'"

  /** The two properties every statement sets, handler first. */
  function MigrationProps(version: string): seq<string>
  {
    [HandlerProp, "'format-version'='" + version + "'"]
  }

  /** The statement written for a table that is converted. */
  function AlterStatement(version: string, name: Obj): string
  {
    "ALTER TABLE " + Show(name) + " \n SET TBLPROPERTIES (" + Join(MigrationProps(version), ",") + ");\n"
  }

  // ---------------------------------------------------------------------
  // The table parameters

  /** The three locals the property loop updates. */
  datatype PropScan = PropScan(handler: Obj, transactional: Obj, externalPurge: Obj)

  const InitialScan := PropScan(Str(""), Str(""), Str("false"))

  /** One `(PARAM_KEY, PARAM_VALUE)` row; the debug line reads both
      fields first. */
  function PropStep(s: PropScan, prop: seq<Obj>): Result<PropScan>
  {
    var key :- Cell(prop, 0);
    var value :- Cell(prop, 1);
    Ok(PropScan(if key == Str("storage_handler") then value else s.handler,
                if key == Str("transactional") then value else s.transactional,
                if key == Str("external.table.purge") && value == Str("true") then Str("true") else s.externalPurge))
  }

  /** The reference: the value of the last parameter row named `key`, or
      `default` when there is none. */
  function LastWith(props: seq<seq<Obj>>, key: string, default: Obj): Obj
  {
    if |props| == 0 then default
    else
      var p := props[|props| - 1];
      if |p| >= 2 && p[0] == Str(key) then p[1] else LastWith(props[..|props| - 1], key, default)
  }

  /** Some row sets `external.table.purge` to `'true'`. */
  predicate PurgeSet(props: seq<seq<Obj>>)
  {
    exists k :: 0 <= k < |props| && |props[k]| >= 2 && props[k][0] == Str("external.table.purge") && props[k][1] == Str("true")
  }

  /** Every parameter row has a key and a value. */
  predicate PairRows(props: seq<seq<Obj>>)
  {
    forall k :: 0 <= k < |props| ==> |props[k]| >= 2
  }

  /** The property loop raises exactly when a row is short; otherwise it
      ends with the last `storage_handler`, the last `transactional`, and
      `'true'` for the purge flag exactly when some row set it. */
  lemma {:induction false} PropScanValues(props: seq<seq<Obj>>)
    ensures Fold(InitialScan, props, PropStep).Ok? <==> PairRows(props)
    ensures Fold(InitialScan, props, PropStep).Ok? ==>
      Fold(InitialScan, props, PropStep).value
      == PropScan(LastWith(props, "storage_handler", Str("")), LastWith(props, "transactional", Str("")),
                  if PurgeSet(props) then Str("true") else Str("false"))
  {
    if |props| > 0 {
      var init := props[..|props| - 1];
      var p := props[|props| - 1];
      assert props == init + [p];
      FoldSnoc(InitialScan, init, p, PropStep);
      PropScanValues(init);
      assert PairRows(props) <==> PairRows(init) && |p| >= 2 by {
        assert forall k :: 0 <= k < |init| ==> props[k] == init[k];
      }
      if PairRows(props) {
        assert PurgeSet(props) <==> PurgeSet(init) || (p[0] == Str("external.table.purge") && p[1] == Str("true")) by {
          assert forall k :: 0 <= k < |init| ==> props[k] == init[k];
          if p[0] == Str("external.table.purge") && p[1] == Str("true") {
            assert props[|props| - 1] == p;
          }
        }
      }
    }
  }

  /** The property loop. */
  method ScanTableParams(props: seq<seq<Obj>>) returns (r: Result<PropScan>)
    ensures r == Fold(InitialScan, props, PropStep)
  {
    var handler, transactional, externalPurge := Str(""), Str(""), Str("false");
    var i := 0;
    while i < |props|
      invariant 0 <= i <= |props|
      invariant Fold(InitialScan, props[..i], PropStep) == Ok(PropScan(handler, transactional, externalPurge))
    {
      assert props[..i + 1] == props[..i] + [props[i]];
      FoldSnoc(InitialScan, props[..i], props[i], PropStep);
      var prop := props[i];
      if |prop| < 2 {
        FoldStops(InitialScan, props, PropStep, i + 1);
        return if |prop| == 0 then Cell(prop, 0).PropagateFailure() else Cell(prop, 1).PropagateFailure();
      }
      if prop[0] == Str("storage_handler") {
        handler := prop[1];
      }
      if prop[0] == Str("transactional") {
        transactional := prop[1];
      }
      if prop[0] == Str("external.table.purge") && prop[1] == Str("true") {
        externalPurge := Str("true");
      }
      i := i + 1;
    }
    assert props[..i] == props;
    return Ok(PropScan(handler, transactional, externalPurge));
  }

  // ---------------------------------------------------------------------
  // One table row

  /** Why a table is left alone. */
  datatype Skip = NotExternal | IcebergSerdeAlready | NotEligible | IcebergHandlerAlready | TransactionalTable

  /** The log line for a table left alone; three of them end without a
      newline. */
  function SkipMessage(name: Obj, s: Skip): string
  {
    var head := "Table : " + Show(name);
    match s
    case NotExternal => head + " is not an EXTERNAL table\n"
    case IcebergSerdeAlready => head + " is already an Iceberg table"
    case NotEligible => head + " is not eligible to convert to Iceberg\n"
    case IcebergHandlerAlready => head + " is already an Iceberg table"
    case TransactionalTable => head + " is a transactional table"
  }

  /** The parameter rows the metastore returns for a table (none when the
      query fails, which raises before they are used). */
  function ParamRows(source: Source, tableId: Obj): seq<seq<Obj>>
  {
    match source(TableParams(tableId))
    case Fetched(rows, _) => rows
    case _ => []
  }

  /** The reference decision for a listed table (`TBL_ID`, `TBL_NAME`,
      `TBL_TYPE`, …, `SLIB`): the checks in the order they are made, the
      parameters read as the last value of each key. `None` means the
      table is converted. */
  function Verdict(source: Source, entry: seq<Obj>): Option<Skip>
    requires |entry| >= 8
  {
    var props := ParamRows(source, entry[0]);
    if entry[2] != Str("EXTERNAL_TABLE") then Some(NotExternal)
    else if entry[7] == Str(IcebergSerde) then Some(IcebergSerdeAlready)
    else if !(entry[7].Str? && entry[7].s in ValidFormats) then Some(NotEligible)
    else if LastWith(props, "storage_handler", Str("")) == Str(IcebergHandler) then Some(IcebergHandlerAlready)
    else if LastWith(props, "transactional", Str("")) == Str("true") then Some(TransactionalTable)
    else None
  }

  /** A listed table that gets a statement. */
  predicate Converts(source: Source, entry: seq<Obj>)
  {
    |entry| >= 8 && Verdict(source, entry) == None
  }

  /** What has been written to the two files. */
  datatype Written = Written(sql: string, log: string)

  /** One pass of the row loop. The debug line reads `entry[7]` before any
      check, so a short row raises. */
  function MigrationStep(version: string, source: Source, w: Written, entry: seq<Obj>): Result<Written>
  {
    if |entry| < 8 then Err(IndexError)
    else
      var skip := (s: Skip) => Ok(Written(w.sql, w.log + SkipMessage(entry[1], s)));
      if entry[2] != Str("EXTERNAL_TABLE") then skip(NotExternal)
      else if entry[7] == Str(IcebergSerde) then skip(IcebergSerdeAlready)
      else if !(entry[7].Str? && entry[7].s in ValidFormats) then skip(NotEligible)
      else
        var props :- RowsOf(source(TableParams(entry[0])));
        var scan :- Fold(InitialScan, props, PropStep);
        if scan.handler == Str(IcebergHandler) then skip(IcebergHandlerAlready)
        else if scan.transactional == Str("true") then skip(TransactionalTable)
        else Ok(Written(w.sql + AlterStatement(version, entry[1]), w.log))
  }

  function MigrationStepOf(version: string, source: Source): (Written, seq<Obj>) -> Result<Written>
  {
    (w, entry) => MigrationStep(version, source, w, entry)
  }

  /** A row raises exactly when it is short, or when it reaches the
      parameter query and that query fails or returns a short row. */
  lemma MigrationStepFails(version: string, source: Source, w: Written, entry: seq<Obj>)
    ensures MigrationStep(version, source, w, entry).Err? <==>
      |entry| < 8
      || (entry[2] == Str("EXTERNAL_TABLE") && entry[7].Str? && entry[7].s in ValidFormats
          && (!source(TableParams(entry[0])).Fetched? || !PairRows(ParamRows(source, entry[0]))))
  {
    if |entry| >= 8 && source(TableParams(entry[0])).Fetched? {
      PropScanValues(source(TableParams(entry[0])).rows);
    }
  }

  /** A row that does not raise writes the statement when the reference
      decision converts the table, and otherwise exactly the log line for
      the reason it is skipped. */
  lemma MigrationStepWrites(version: string, source: Source, w: Written, entry: seq<Obj>)
    requires MigrationStep(version, source, w, entry).Ok?
    ensures |entry| >= 8
    ensures var next := MigrationStep(version, source, w, entry).value;
      match Verdict(source, entry)
      case None => next == Written(w.sql + AlterStatement(version, entry[1]), w.log)
      case Some(s) => next == Written(w.sql, w.log + SkipMessage(entry[1], s))
  {
    if entry[2] == Str("EXTERNAL_TABLE") && entry[7].Str? && entry[7].s in ValidFormats {
      PropScanValues(source(TableParams(entry[0])).rows);
    }
  }

  /** The Iceberg serde is not one of the valid formats, so a table already
      on it is never converted. */
  lemma IcebergSerdeNeverConverts(source: Source, entry: seq<Obj>)
    requires |entry| >= 8 && entry[7] == Str(IcebergSerde)
    ensures !Converts(source, entry)
  {
  }

  /** One pass of the row loop. */
  method MigrateRow(version: string, source: Source, sql: string, log: string, entry: seq<Obj>)
    returns (next: Result<Written>)
    ensures next == MigrationStep(version, source, Written(sql, log), entry)
  {
    if |entry| < 8 {
      return Err(IndexError);
    }
    if entry[2] != Str("EXTERNAL_TABLE") {
      return Ok(Written(sql, log + SkipMessage(entry[1], NotExternal)));
    }
    if entry[7] == Str(IcebergSerde) {
      return Ok(Written(sql, log + SkipMessage(entry[1], IcebergSerdeAlready)));
    }
    if !(entry[7].Str? && entry[7].s in ValidFormats) {
      return Ok(Written(sql, log + SkipMessage(entry[1], NotEligible)));
    }
    var fetched := RowsOf(source(TableParams(entry[0])));
    if fetched.Err? {
      return Err(fetched.error);
    }
    var scan := ScanTableParams(fetched.value);
    if scan.Err? {
      return Err(scan.error);
    }
    if scan.value.handler == Str(IcebergHandler) {
      return Ok(Written(sql, log + SkipMessage(entry[1], IcebergHandlerAlready)));
    }
    if scan.value.transactional == Str("true") {
      return Ok(Written(sql, log + SkipMessage(entry[1], TransactionalTable)));
    }
    return Ok(Written(sql + AlterStatement(version, entry[1]), log));
  }

  // ---------------------------------------------------------------------
  // The whole run

  /** What a call leaves behind: whether the two files were opened (the
      table list is fetched first), what was written to them, and whether
      an exception was caught and printed. */
  datatype MigrationRun = MigrationRun(filesOpened: bool, written: Written, caught: bool)

  /** `create_iceberg_migration_statements`: the row loop inside the
      `try`; an exception ends it with what was written so far. */
  function Migration(m: IcebergMigration, source: Source, catalog: string): MigrationRun
  {
    match source(IcebergCandidates(catalog))
    case FetchFailed => MigrationRun(false, Written("", ""), true)
    case NonePair => MigrationRun(true, Written("", ""), true)
    case Fetched(rows, _) =>
      var p := Scan(Written("", ""), rows, MigrationStepOf(m.version, source));
      MigrationRun(true, p.state, !p.completed)
  }

  /** The reference: the statements of the converted tables, in row
      order, one per table. */
  function Alters(version: string, source: Source, rows: seq<seq<Obj>>): (r: seq<string>)
    ensures |r| <= |rows|
  {
    if |rows| == 0 then []
    else
      var entry := rows[|rows| - 1];
      Alters(version, source, rows[..|rows| - 1])
      + if Converts(source, entry) then [AlterStatement(version, entry[1])] else []
  }

  /** A loop that gets through every row has written the statements of the
      converted tables, in row order. */
  lemma {:induction false} ScanWritesAlters(version: string, source: Source, rows: seq<seq<Obj>>)
    requires Scan(Written("", ""), rows, MigrationStepOf(version, source)).completed
    ensures Scan(Written("", ""), rows, MigrationStepOf(version, source)).state.sql
         == Concat(Alters(version, source, rows))
  {
    if |rows| > 0 {
      var step := MigrationStepOf(version, source);
      var init := rows[..|rows| - 1];
      var entry := rows[|rows| - 1];
      var q := Scan(Written("", ""), init, step);
      ScanWritesAlters(version, source, init);
      AltersStepSql(version, source, q.state, rows);
    }
  }

  /** A loop cut short by an exception at row `n` has written the
      statements of the converted tables among the rows before it. */
  lemma ScanWritesPrefix(version: string, source: Source, rows: seq<seq<Obj>>, n: nat)
    requires n < |rows|
    requires Scan(Written("", ""), rows[..n], MigrationStepOf(version, source)).completed
    requires !Scan(Written("", ""), rows[..n + 1], MigrationStepOf(version, source)).completed
    ensures Scan(Written("", ""), rows, MigrationStepOf(version, source)).state.sql
         == Concat(Alters(version, source, rows[..n]))
  {
    ScanWritesAlters(version, source, rows[..n]);
    ScanNext(Written("", ""), rows, MigrationStepOf(version, source), n);
    ScanStops(Written("", ""), rows, MigrationStepOf(version, source), n + 1);
  }

  /** The last row, when the loop gets through it, adds its statement, if
      any, to the statements already written. */
  lemma AltersStepSql(version: string, source: Source, w: Written, rows: seq<seq<Obj>>)
    requires |rows| > 0 && w.sql == Concat(Alters(version, source, rows[..|rows| - 1]))
    requires MigrationStep(version, source, w, rows[|rows| - 1]).Ok?
    ensures MigrationStep(version, source, w, rows[|rows| - 1]).value.sql == Concat(Alters(version, source, rows))
  {
    var init := Alters(version, source, rows[..|rows| - 1]);
    var entry := rows[|rows| - 1];
    MigrationStepWrites(version, source, w, entry);
    if Converts(source, entry) {
      ConcatAppend(init, AlterStatement(version, entry[1]));
    } else {
      assert init + [] == init;
    }
  }

  /** A run that completes writes exactly the statements of the converted
      tables, in row order, at most one per row; the stored
      `table_properties` plays no part. */
  lemma MigrationWritesAlters(m: IcebergMigration, source: Source, catalog: string, props: string)
    ensures Migration(m.(tableProperties := props), source, catalog) == Migration(m, source, catalog)
    ensures var run := Migration(m, source, catalog);
      run.filesOpened && !run.caught ==>
        var rows := source(IcebergCandidates(catalog)).rows;
        run.written.sql == Concat(Alters(m.version, source, rows)) && |Alters(m.version, source, rows)| <= |rows|
  {
    var run := Migration(m, source, catalog);
    if run.filesOpened && !run.caught {
      var rows := source(IcebergCandidates(catalog)).rows;
      ScanWritesAlters(m.version, source, rows);
    }
  }

  /** A bare `None` from the table listing fails to unpack before any
      file is opened; `(None, None)` unpacks, both files are opened, and
      the loop over `None` raises before anything is written. Either way
      the failure is caught. */
  lemma MigrationListFails(m: IcebergMigration, source: Source, catalog: string)
    ensures !Migration(m, source, catalog).filesOpened <==> source(IcebergCandidates(catalog)).FetchFailed?
    ensures !source(IcebergCandidates(catalog)).Fetched? ==>
      Migration(m, source, catalog).caught && Migration(m, source, catalog).written == Written("", "")
  {
  }

  /** One more row of a loop that has not raised yet, in terms of the step
      itself. */
  lemma MigrationScanNext(version: string, source: Source, rows: seq<seq<Obj>>, i: nat)
    requires i < |rows| && Scan(Written("", ""), rows[..i], MigrationStepOf(version, source)).completed
    ensures var p := Scan(Written("", ""), rows[..i], MigrationStepOf(version, source)).state;
      var next := MigrationStep(version, source, p, rows[i]);
      Scan(Written("", ""), rows[..i + 1], MigrationStepOf(version, source))
        == if next.Ok? then Partial(next.value, true) else Partial(p, false)
  {
    ScanNext(Written("", ""), rows, MigrationStepOf(version, source), i);
  }

  /** `create_iceberg_migration_statements`: the table list, then the row
      loop writing to the statements file and the log file. */
  method CreateIcebergMigrationStatements(m: IcebergMigration, source: Source, catalog: string)
    returns (filesOpened: bool, sql: string, log: string, caught: bool)
    ensures MigrationRun(filesOpened, Written(sql, log), caught) == Migration(m, source, catalog)
  {
    var listed := source(IcebergCandidates(catalog));
    if listed.FetchFailed? {
      return false, "", "", true;
    }
    if listed.NonePair? {
      return true, "", "", true;
    }
    var rows := listed.rows;
    sql, log := "", "";
    var i := 0;
    while i < |rows|
      invariant 0 <= i <= |rows|
      invariant Scan(Written("", ""), rows[..i], MigrationStepOf(m.version, source)) == Partial(Written(sql, log), true)
    {
      MigrationScanNext(m.version, source, rows, i);
      var next := MigrateRow(m.version, source, sql, log, rows[i]);
      if next.Err? {
        ScanStops(Written("", ""), rows, MigrationStepOf(m.version, source), i + 1);
        return true, sql, log, true;
      }
      sql, log := next.value.sql, next.value.log;
      i := i + 1;
    }
    assert rows[..i] == rows;
    return true, sql, log, false;
  }
}
