/** The database backup: the header, the CREATE DATABASE statement, every
    table's DDL, the view statements and the function statements, written in
    that order to the backup file; an exception at any point is caught, and
    what was written stays written. */
module DatabaseBackup {
  import opened Base
  import opened PyObj
  import opened Metastore
  import opened TableDdl
  import Config

  const Header := "-- Beginning of backup\n"
  const CreateDatabaseHeader := "-- Create Database\n"

  /** What `database_schema_backup` returns, the text it leaves in the
      backup file, and whether it caught and logged an exception. */
  datatype BackupOutcome = BackupOutcome(schema: Obj, written: string, caught: bool)

  /** `db_schema` once `schemas` exists: only `default` with its
      `tables`. */
  function SchemaWith(tables: Entries): Obj
  {
    Dict([("schemas", Dict([("default", Dict([("tables", Dict(tables))]))]))])
  }

  // ---------------------------------------------------------------------
  // Statement formats

  /** The database statement, from `results[0]` and `results[1]` of the
      whole `dbo.query` result (see `Metastore.DatabaseCells`). */
  function CreateDatabaseStatement(catalog: string, comment: Obj, location: Obj): string
  {
    "CREATE DATABASE IF NOT EXISTS " + catalog + " \n COMMENT \"" + Show(comment)
    + "\" \n LOCATION \"" + Show(location) + "\";\n"
  }

  /** `<opening><name> as (<text>);`, with the name from the third cell of
      the view row. */
  function CreateViewText(opening: string, info: seq<Obj>, viewText: Obj): Result<string>
  {
    match Cell(info, 2)
    case Ok(name) => Ok(opening + Show(name) + " as (" + Show(viewText) + ");\n")
    case Err(e) => Err(e)
  }

  /** The view statement as the backup computes it: the whole row tuple is
      compared with the kind names, and a tuple never equals a string. */
  function ViewStatementAsWritten(info: seq<Obj>): Result<string>
  {
    match Cell(info, 1)
    case Err(e) => Err(e)
    case Ok(viewText) =>
      if Tuple(info) == Str("VIRTUAL_VIEW") then CreateViewText("CREATE VIEW ", info, viewText)
      else if Tuple(info) == Str("MATERIALIZED_VIEW") then CreateViewText("CREATE MATERIALIZED VIEW ", info, viewText)
      else Ok("")
  }

  /** The view statement with the kind taken from the `TBL_TYPE` cell. */
  function ViewStatement(info: seq<Obj>): Result<string>
  {
    match Cell(info, 1)
    case Err(e) => Err(e)
    case Ok(viewText) =>
      if info[0] == Str("VIRTUAL_VIEW") then CreateViewText("CREATE VIEW ", info, viewText)
      else if info[0] == Str("MATERIALIZED_VIEW") then CreateViewText("CREATE MATERIALIZED VIEW ", info, viewText)
      else Ok("")
  }

  /** As written, every view row yields the empty statement. */
  lemma ViewStatementAsWrittenIsEmpty(info: seq<Obj>)
    ensures ViewStatementAsWritten(info) == if |info| >= 2 then Ok("") else Err(IndexError)
  {
  }

  /** With the kind read from its cell, a view or materialized view whose
      name is text gets its CREATE statement, and any other kind gets
      none. */
  lemma ViewStatementIntended(info: seq<Obj>, name: string)
    requires |info| >= 3 && info[2] == Str(name)
    ensures info[0] == Str("VIRTUAL_VIEW") ==>
      ViewStatement(info) == Ok("CREATE VIEW " + name + " as (" + Show(info[1]) + ");\n")
    ensures info[0] == Str("MATERIALIZED_VIEW") ==>
      ViewStatement(info) == Ok("CREATE MATERIALIZED VIEW " + name + " as (" + Show(info[1]) + ");\n")
    ensures info[0] != Str("VIRTUAL_VIEW") && info[0] != Str("MATERIALIZED_VIEW") ==> ViewStatement(info) == Ok("")
  {
    assert Cell(info, 1) == Ok(info[1]);
    if info[0] == Str("VIRTUAL_VIEW") {
      assert ViewStatement(info) == Ok("CREATE VIEW " + name + " as (" + Show(info[1]) + ");\n") by {
        assert Cell(info, 2) == Ok(Str(name));
        assert Show(Str(name)) == name;
        assert ViewStatement(info) == CreateViewText("CREATE VIEW ", info, info[1]);
      }
    } else if info[0] == Str("MATERIALIZED_VIEW") {
      assert ViewStatement(info) == Ok("CREATE MATERIALIZED VIEW " + name + " as (" + Show(info[1]) + ");\n") by {
        assert Cell(info, 2) == Ok(Str(name));
        assert Show(Str(name)) == name;
        assert ViewStatement(info) == CreateViewText("CREATE MATERIALIZED VIEW ", info, info[1]);
      }
    }
  }

  /** The row `('VIRTUAL_VIEW', 'select 1', 'v')`: the backup writes nothing
      for it, where `CREATE VIEW v as (select 1);` was meant. */
  lemma ViewStatementCounterexample()
    ensures ViewStatementAsWritten([Str("VIRTUAL_VIEW"), Str("select 1"), Str("v")]) == Ok("")
    ensures ViewStatement([Str("VIRTUAL_VIEW"), Str("select 1"), Str("v")]) == Ok("CREATE VIEW v as (select 1);\n")
  {
    ViewStatementIntended([Str("VIRTUAL_VIEW"), Str("select 1"), Str("v")], "v");
    assert "CREATE VIEW " + "v" + " as (" + "select 1" + ");\n" == "CREATE VIEW v as (select 1);\n";
  }

  /** `CREATE <FUNC_TYPE> FUNCTION <FUNC_NAME> AS <CLASS_NAME>;` from a
      `(CLASS_NAME, FUNC_NAME, FUNC_TYPE, OWNER_NAME)` row. */
  function FunctionStatement(row: seq<Obj>): (r: Result<string>)
    ensures r.Ok? <==> |row| >= 3
  {
    var kind :- Cell(row, 2);
    Ok("CREATE " + Show(kind) + " FUNCTION " + Show(row[1]) + " AS " + Show(row[0]) + ";\n")
  }

  /** The six words of a function statement, joined by spaces. */
  lemma FunctionWordsJoin(className: string, name: string, kind: string)
    ensures Join(["CREATE", kind, "FUNCTION", name, "AS", className + ";\n"], " ")
         == "CREATE " + kind + " FUNCTION " + name + " AS " + className + ";\n"
  {
    var words := ["CREATE", kind, "FUNCTION", name, "AS", className + ";\n"];
    var tail := className + ";\n";
    var j4 := "AS" + " " + tail;
    assert Join(words[4..], " ") == j4 by {
      assert words[4..][1..] == words[5..];
    }
    var j3 := name + " " + j4;
    assert Join(words[3..], " ") == j3 by {
      assert words[3..][1..] == words[4..];
    }
    var j2 := "FUNCTION" + " " + j3;
    assert Join(words[2..], " ") == j2 by {
      assert words[2..][1..] == words[3..];
    }
    var j1 := kind + " " + j2;
    assert Join(words[1..], " ") == j1 by {
      assert words[1..][1..] == words[2..];
    }
    assert Join(words, " ") == "CREATE" + " " + j1;
    // The same text, grouped the way the statement builds it.
    var p1 := "CREATE " + kind;
    var p2 := p1 + " FUNCTION " + name;
    var p3 := p2 + " AS " + className;
    assert "CREATE" + " " + j1 == p1 + " " + j2;
    assert p1 + " " + j2 == p1 + " FUNCTION " + name + " " + j4;
    assert p2 + " " + j4 == p3 + ";\n";
  }

  /** The statement is its six words joined by spaces. */
  lemma FunctionStatementJoin(className: string, name: string, kind: string, owner: Obj)
    ensures FunctionStatement([Str(className), Str(name), Str(kind), owner])
         == Ok(Join(["CREATE", kind, "FUNCTION", name, "AS", className + ";\n"], " "))
  {
    FunctionWordsJoin(className, name, kind);
    var row := [Str(className), Str(name), Str(kind), owner];
    assert Cell(row, 2) == Ok(Str(kind));
  }

  /** The words of a function statement are the keyword pieces and the
      row's kind, name and class, in that order, when none of them holds a
      space. */
  lemma FunctionStatementWords(className: string, name: string, kind: string, owner: Obj)
    requires ' ' !in className && ' ' !in name && ' ' !in kind
    ensures var r := FunctionStatement([Str(className), Str(name), Str(kind), owner]);
      r.Ok? && Split(r.value, ' ') == ["CREATE", kind, "FUNCTION", name, "AS", className + ";\n"]
  {
    var words := ["CREATE", kind, "FUNCTION", name, "AS", className + ";\n"];
    FunctionStatementJoin(className, name, kind, owner);
    assert ' ' !in "CREATE" && ' ' !in "FUNCTION" && ' ' !in "AS" && ' ' !in className + ";\n";
    assert forall k :: 0 <= k < |words| ==> ' ' !in words[k];
    SplitJoinWords(words, ' ');
  }

  // ---------------------------------------------------------------------
  // The loops

  /** The tables map and the backup text so far. */
  datatype TablesRun = TablesRun(tables: Entries, written: string)

  /** One listed table: its DDL is written and its dictionary stored under
      its name. */
  function TableBackupStep(source: Source, catalog: string, queries: seq<(string, string)>, singleLine: bool,
                           run: TablesRun, row: seq<Obj>): Result<TablesRun>
  {
    var name :- Cell(row, 0);
    var key :- AsKey(name);
    var b := TableBackup(source, "hive", catalog, key, queries, singleLine);
    Ok(TablesRun(Set(run.tables, key, if b.tableDict.Some? then b.tableDict.value else Null), run.written + b.written))
  }

  function TableBackupStepOf(source: Source, catalog: string, queries: seq<(string, string)>, singleLine: bool)
    : (TablesRun, seq<Obj>) -> Result<TablesRun>
  {
    (run: TablesRun, row: seq<Obj>) => TableBackupStep(source, catalog, queries, singleLine, run, row)
  }

  /** One more listed table, in terms of the step itself. */
  lemma TablesScanNext(source: Source, catalog: string, queries: seq<(string, string)>, singleLine: bool,
                       run0: TablesRun, rows: seq<seq<Obj>>, i: nat)
    requires i < |rows| && Scan(run0, rows[..i], TableBackupStepOf(source, catalog, queries, singleLine)).completed
    ensures var p := Scan(run0, rows[..i], TableBackupStepOf(source, catalog, queries, singleLine)).state;
      var next := TableBackupStep(source, catalog, queries, singleLine, p, rows[i]);
      Scan(run0, rows[..i + 1], TableBackupStepOf(source, catalog, queries, singleLine))
        == if next.Ok? then Partial(next.value, true) else Partial(p, false)
  {
    ScanNext(run0, rows, TableBackupStepOf(source, catalog, queries, singleLine), i);
  }

  /** What one listed view adds to the backup: its row is fetched by id,
      and nothing is added when no row comes back. */
  function ViewText(source: Source, catalog: string, row: seq<Obj>): Result<string>
  {
    var id :- Cell(row, 0);
    var infos :- RowsOf(source(ViewInfo(catalog, id)));
    if |infos| == 0 then Ok("") else ViewStatement(infos[0])
  }

  /** The same, with the view statement as the backup computes it. */
  function ViewTextAsWritten(source: Source, catalog: string, row: seq<Obj>): Result<string>
  {
    var id :- Cell(row, 0);
    var infos :- RowsOf(source(ViewInfo(catalog, id)));
    if |infos| == 0 then Ok("") else ViewStatementAsWritten(infos[0])
  }

  /** One listed view: its statement is written. */
  function ViewBackupStep(source: Source, catalog: string, written: string, row: seq<Obj>): Result<string>
  {
    AppendText(written, ViewText(source, catalog, row))
  }

  function ViewBackupStepOf(source: Source, catalog: string): (string, seq<Obj>) -> Result<string>
  {
    (written: string, row: seq<Obj>) => ViewBackupStep(source, catalog, written, row)
  }

  function ViewBackupStepAsWrittenOf(source: Source, catalog: string): (string, seq<Obj>) -> Result<string>
  {
    (written: string, row: seq<Obj>) => AppendText(written, ViewTextAsWritten(source, catalog, row))
  }

  function FunctionBackupStep(written: string, row: seq<Obj>): Result<string>
  {
    var statement :- FunctionStatement(row);
    Ok(written + statement)
  }

  // ---------------------------------------------------------------------
  // The backup

  /** The view loop, then the function loop, each behind its switch,
      from the text written so far. The view loop uses the statement as the
      backup computes it, which is always empty (`ViewsWriteNothing`). */
  function ViewsAndFunctions(cfg: Config.Config, source: Source, catalog: string, w: string): Partial<string>
  {
    var v := if Config.Enabled(cfg, "schema_backup", "include_views")
             then (match RowsOf(source(ViewList(catalog)))
                   case Err(_) => Partial(w, false)
                   case Ok(viewRows) => Scan(w, viewRows, ViewBackupStepAsWrittenOf(source, catalog)))
             else Partial(w, true);
    if !v.completed then v
    else if Config.Enabled(cfg, "schema_backup", "include_functions")
    then (match RowsOf(source(FunctionList(catalog)))
          case Err(_) => Partial(v.state, false)
          case Ok(funcRows) => Scan(v.state, funcRows, FunctionBackupStep))
    else v
  }

  /** Everything after the database statement: the tables, then the views
      and functions. */
  function AfterDatabase(cfg: Config.Config, source: Source, catalog: string,
                         queries: seq<(string, string)>, w: string): BackupOutcome
  {
    match RowsOf(source(TableList(catalog)))
    case Err(_) => BackupOutcome(SchemaWith([]), w, true)
    case Ok(tableRows) =>
      var singleLine := Config.Enabled(cfg, "schema_backup", "single_line_statement");
      var t := Scan(TablesRun([], w), tableRows, TableBackupStepOf(source, catalog, queries, singleLine));
      var schema := SchemaWith(t.state.tables);
      if !t.completed then BackupOutcome(schema, t.state.written, true)
      else
        var vf := ViewsAndFunctions(cfg, source, catalog, t.state.written);
        BackupOutcome(schema, vf.state, !vf.completed)
  }

  /** `DatabaseBackup.database_schema_backup`, with the switches of the
      `schema_backup` section. */
  function DatabaseBackupOf(cfg: Config.Config, source: Source, catalog: string,
                            queries: seq<(string, string)>): BackupOutcome
  {
    if !Config.Enabled(cfg, "schema_backup", "create_db_statement") then
      AfterDatabase(cfg, source, catalog, queries, Header)
    else
      match FirstTwo(Answer(source(DatabaseInfo(catalog))))
      case Err(_) => BackupOutcome(Dict([]), Header, true)
      case Ok(None) => BackupOutcome(Null, Header, false)
      case Ok(Some((comment, location))) =>
        AfterDatabase(cfg, source, catalog, queries,
                      Header + CreateDatabaseHeader + CreateDatabaseStatement(catalog, comment, location))
  }

  /** `DatabaseBackup.database_schema_backup`, run loop by loop. */
  method DatabaseSchemaBackup(cfg: Config.Config, source: Source, catalog: string, queries: seq<(string, string)>)
    returns (dbSchema: Obj, written: string, caught: bool)
    ensures BackupOutcome(dbSchema, written, caught) == DatabaseBackupOf(cfg, source, catalog, queries)
  {
    written := Header;
    if Config.Enabled(cfg, "schema_backup", "create_db_statement") {
      var cells := FirstTwo(Answer(source(DatabaseInfo(catalog))));
      if cells.Err? {
        return Dict([]), written, true;
      } else if cells.value.None? {
        return Null, written, false;
      }
      var (comment, location) := cells.value.value;
      written := written + CreateDatabaseHeader + CreateDatabaseStatement(catalog, comment, location);
    }
    var tableRows := RowsOf(source(TableList(catalog)));
    if tableRows.Err? {
      return SchemaWith([]), written, true;
    }
    var singleLine := Config.Enabled(cfg, "schema_backup", "single_line_statement");
    var tables, completed;
    tables, written, completed := BackupTables(source, catalog, queries, singleLine, tableRows.value, written);
    dbSchema := SchemaWith(tables);
    if !completed {
      return dbSchema, written, true;
    }
    written, completed := BackupViewsAndFunctions(cfg, source, catalog, written);
    return dbSchema, written, !completed;
  }

  /** The view and function loops. */
  method BackupViewsAndFunctions(cfg: Config.Config, source: Source, catalog: string, text: string)
    returns (written: string, completed: bool)
    ensures Partial(written, completed) == ViewsAndFunctions(cfg, source, catalog, text)
  {
    written, completed := text, true;
    if Config.Enabled(cfg, "schema_backup", "include_views") {
      var viewRows := RowsOf(source(ViewList(catalog)));
      if viewRows.Err? {
        return written, false;
      }
      written, completed := RunScan(written, viewRows.value, ViewBackupStepAsWrittenOf(source, catalog));
      if !completed {
        return written, false;
      }
    }
    if Config.Enabled(cfg, "schema_backup", "include_functions") {
      var funcRows := RowsOf(source(FunctionList(catalog)));
      if funcRows.Err? {
        return written, false;
      }
      written, completed := RunScan(written, funcRows.value, FunctionBackupStep);
    }
  }

  /** One pass of the tables loop: the listed table's DDL is written and
      its dictionary stored under its name. */
  method BackupTableRow(source: Source, catalog: string, queries: seq<(string, string)>, singleLine: bool,
                        tables: Entries, written: string, row: seq<Obj>)
    returns (next: Result<TablesRun>)
    ensures next == TableBackupStep(source, catalog, queries, singleLine, TablesRun(tables, written), row)
  {
    if |row| == 0 {
      next := Err(IndexError);
    } else if !row[0].Str? {
      next := Err(NonStringKey);
    } else {
      var tableDict, tableText := BackupTableDdl(source, "hive", catalog, row[0].s, queries, singleLine);
      next := Ok(TablesRun(Set(tables, row[0].s, if tableDict.Some? then tableDict.value else Null), written + tableText));
    }
  }

  /** The tables loop, writing each table's DDL with the DDL
      synthesiser. */
  method BackupTables(source: Source, catalog: string, queries: seq<(string, string)>, singleLine: bool,
                      rows: seq<seq<Obj>>, text: string)
    returns (tables: Entries, written: string, completed: bool)
    ensures Partial(TablesRun(tables, written), completed)
            == Scan(TablesRun([], text), rows, TableBackupStepOf(source, catalog, queries, singleLine))
  {
    tables, written := [], text;
    var i := 0;
    while i < |rows|
      invariant 0 <= i <= |rows|
      invariant Scan(TablesRun([], text), rows[..i], TableBackupStepOf(source, catalog, queries, singleLine))
                == Partial(TablesRun(tables, written), true)
    {
      TablesScanNext(source, catalog, queries, singleLine, TablesRun([], text), rows, i);
      var next := BackupTableRow(source, catalog, queries, singleLine, tables, written, rows[i]);
      if next.Err? {
        ScanStops(TablesRun([], text), rows, TableBackupStepOf(source, catalog, queries, singleLine), i + 1);
        return tables, written, false;
      }
      tables, written := next.value.tables, next.value.written;
      i := i + 1;
    }
    assert rows[..i] == rows;
    return tables, written, true;
  }

  // ---------------------------------------------------------------------
  // Properties

  /** Every step of the three loops only appends to the text. */
  lemma StepsAppend(source: Source, catalog: string, queries: seq<(string, string)>, singleLine: bool)
    ensures forall run, row :: TableBackupStepOf(source, catalog, queries, singleLine)(run, row).Ok? ==>
      IsPrefix(run.written, TableBackupStepOf(source, catalog, queries, singleLine)(run, row).value.written)
    ensures forall w, row :: ViewBackupStepOf(source, catalog)(w, row).Ok? ==>
      IsPrefix(w, ViewBackupStepOf(source, catalog)(w, row).value)
    ensures forall w, row :: FunctionBackupStep(w, row).Ok? ==> IsPrefix(w, FunctionBackupStep(w, row).value)
  {
    forall run, row | TableBackupStepOf(source, catalog, queries, singleLine)(run, row).Ok?
      ensures IsPrefix(run.written, TableBackupStepOf(source, catalog, queries, singleLine)(run, row).value.written)
    {
      assert TableBackupStepOf(source, catalog, queries, singleLine)(run, row)
          == TableBackupStep(source, catalog, queries, singleLine, run, row);
    }
    forall w, row | ViewBackupStepOf(source, catalog)(w, row).Ok?
      ensures IsPrefix(w, ViewBackupStepOf(source, catalog)(w, row).value)
    {
      assert ViewBackupStepOf(source, catalog)(w, row) == ViewBackupStep(source, catalog, w, row);
    }
  }

  lemma ViewsAndFunctionsExtend(cfg: Config.Config, source: Source, catalog: string, w: string)
    ensures IsPrefix(w, ViewsAndFunctions(cfg, source, catalog, w).state)
  {
    StepsAppend(source, catalog, [], false);
    var same := (t: string) => t;
    var viewRows := RowsOf(source(ViewList(catalog)));
    var w2 := w;
    if Config.Enabled(cfg, "schema_backup", "include_views") && viewRows.Ok? {
      ViewsWriteNothing(source, catalog, w, viewRows.value);
      w2 := Scan(w, viewRows.value, ViewBackupStepAsWrittenOf(source, catalog)).state;
    }
    var funcRows := RowsOf(source(FunctionList(catalog)));
    if Config.Enabled(cfg, "schema_backup", "include_functions") && funcRows.Ok? {
      ScanExtends(w2, funcRows.value, FunctionBackupStep, same);
      var w3 := Scan(w2, funcRows.value, FunctionBackupStep).state;
      assert w2[..|w|] == w && w3[..|w2|] == w2;
      assert w3[..|w|] == w3[..|w2|][..|w|];
    }
  }

  lemma AfterDatabaseExtends(cfg: Config.Config, source: Source, catalog: string,
                             queries: seq<(string, string)>, w: string)
    ensures IsPrefix(w, AfterDatabase(cfg, source, catalog, queries, w).written)
  {
    var tableRows := RowsOf(source(TableList(catalog)));
    if tableRows.Ok? {
      var singleLine := Config.Enabled(cfg, "schema_backup", "single_line_statement");
      var step := TableBackupStepOf(source, catalog, queries, singleLine);
      StepsAppend(source, catalog, queries, singleLine);
      ScanExtends(TablesRun([], w), tableRows.value, step, (run: TablesRun) => run.written);
      var t := Scan(TablesRun([], w), tableRows.value, step);
      var w2 := t.state.written;
      if t.completed {
        ViewsAndFunctionsExtend(cfg, source, catalog, w2);
        var w3 := ViewsAndFunctions(cfg, source, catalog, w2).state;
        assert w2[..|w|] == w && w3[..|w2|] == w2;
        assert w3[..|w|] == w3[..|w2|][..|w|];
      }
    }
  }

  /** With the database statement switched on and any answer but a bare
      `None`, the backup text begins with the header and the statement,
      whose COMMENT and LOCATION are the two cells `Metastore.DatabaseCells`
      describes: the list of row tuples and the list of column names, or
      `None` twice for `(None, None)` (`NoneStatement`). */
  lemma DatabaseStatementFirst(cfg: Config.Config, source: Source, catalog: string, queries: seq<(string, string)>,
                          comment: Obj, location: Obj)
    requires Config.Enabled(cfg, "schema_backup", "create_db_statement")
    requires FirstTwo(Answer(source(DatabaseInfo(catalog)))) == Ok(Some((comment, location)))
    ensures IsPrefix(Header + CreateDatabaseHeader + CreateDatabaseStatement(catalog, comment, location),
                     DatabaseBackupOf(cfg, source, catalog, queries).written)
  {
    var w1 := Header + CreateDatabaseHeader + CreateDatabaseStatement(catalog, comment, location);
    AfterDatabaseExtends(cfg, source, catalog, queries, w1);
  }

  /** Whatever happens, the backup text begins with the header; with the
      database statement switched on, a bare `None` from the database query
      is caught with only the header written. */
  lemma BackupBeginsWithHeader(cfg: Config.Config, source: Source, catalog: string, queries: seq<(string, string)>)
    ensures IsPrefix(Header, DatabaseBackupOf(cfg, source, catalog, queries).written)
    ensures Config.Enabled(cfg, "schema_backup", "create_db_statement") && source(DatabaseInfo(catalog)).FetchFailed? ==>
      DatabaseBackupOf(cfg, source, catalog, queries) == BackupOutcome(Dict([]), Header, true)
  {
    var dbInfo := source(DatabaseInfo(catalog));
    DatabaseCells(dbInfo);
    if !Config.Enabled(cfg, "schema_backup", "create_db_statement") {
      AfterDatabaseExtends(cfg, source, catalog, queries, Header);
    } else if !dbInfo.FetchFailed? {
      var (comment, location) := FirstTwo(Answer(dbInfo)).value.value;
      var w1 := Header + CreateDatabaseHeader + CreateDatabaseStatement(catalog, comment, location);
      var w := DatabaseBackupOf(cfg, source, catalog, queries).written;
      DatabaseStatementFirst(cfg, source, catalog, queries, comment, location);
      assert w1[..|Header|] == Header;
      assert w[..|Header|] == w[..|w1|][..|Header|];
    }
  }

  /** The statement for `(None, None)`. */
  lemma NoneStatement(catalog: string)
    ensures CreateDatabaseStatement(catalog, Null, Null)
         == "CREATE DATABASE IF NOT EXISTS " + catalog + " \n COMMENT \"None\" \n LOCATION \"None\";\n"
  {
    var head := "CREATE DATABASE IF NOT EXISTS " + catalog;
    assert CreateDatabaseStatement(catalog, Null, Null)
        == head + " \n COMMENT \"" + "None" + "\" \n LOCATION \"" + "None" + "\";\n" by {
      assert Show(Null) == "None";
    }
    assert " \n COMMENT \"" + "None" + "\" \n LOCATION \"" + "None" + "\";\n"
        == " \n COMMENT \"None\" \n LOCATION \"None\";\n";
  }

  /** As written, the view loop never changes the backup text. */
  lemma {:induction false} ViewsWriteNothing(source: Source, catalog: string, w: string, rows: seq<seq<Obj>>)
    ensures Scan(w, rows, ViewBackupStepAsWrittenOf(source, catalog)).state == w
  {
    if |rows| > 0 {
      ViewsWriteNothing(source, catalog, w, rows[..|rows| - 1]);
      var p := Scan(w, rows[..|rows| - 1], ViewBackupStepAsWrittenOf(source, catalog));
      var row := rows[|rows| - 1];
      if |row| > 0 && RowsOf(source(ViewInfo(catalog, row[0]))).Ok? {
        var infos := RowsOf(source(ViewInfo(catalog, row[0]))).value;
        if |infos| > 0 {
          ViewStatementAsWrittenIsEmpty(infos[0]);
        }
      }
      assert ViewTextAsWritten(source, catalog, row).Ok? ==> ViewTextAsWritten(source, catalog, row) == Ok("");
      assert p.state + "" == p.state;
    }
  }

  /** With the function statements switched off, the views and functions
      part of the backup leaves the text as it was, whatever views are
      listed. */
  lemma ViewsAddNothing(cfg: Config.Config, source: Source, catalog: string, w: string)
    requires !Config.Enabled(cfg, "schema_backup", "include_functions")
    ensures ViewsAndFunctions(cfg, source, catalog, w).state == w
  {
    var viewRows := RowsOf(source(ViewList(catalog)));
    if Config.Enabled(cfg, "schema_backup", "include_views") && viewRows.Ok? {
      ViewsWriteNothing(source, catalog, w, viewRows.value);
    }
  }

  /** The view loop writes the statement of every listed view whose row is
      found, in row order, and raises exactly when some view raises. */
  lemma ViewsWritten(source: Source, catalog: string, w: string, rows: seq<seq<Obj>>)
    ensures Fold(w, rows, ViewBackupStepOf(source, catalog)).Ok?
        <==> Texts(rows, (row: seq<Obj>) => ViewText(source, catalog, row)).Ok?
    ensures var texts := Texts(rows, (row: seq<Obj>) => ViewText(source, catalog, row));
      texts.Ok? ==> Fold(w, rows, ViewBackupStepOf(source, catalog)) == Ok(w + Concat(texts.value))
  {
    FoldAppendsTexts(w, rows, (row: seq<Obj>) => ViewText(source, catalog, row), ViewBackupStepOf(source, catalog));
  }

  /** The function loop writes one statement per row, in row order, and
      raises exactly when some row's statement raises. */
  lemma FunctionsWritten(w: string, rows: seq<seq<Obj>>)
    ensures Fold(w, rows, FunctionBackupStep).Ok? <==> Texts(rows, FunctionStatement).Ok?
    ensures Texts(rows, FunctionStatement).Ok? ==>
      Fold(w, rows, FunctionBackupStep) == Ok(w + Concat(Texts(rows, FunctionStatement).value))
  {
    forall a: string, row: seq<Obj>
      ensures FunctionBackupStep(a, row)
           == AppendText(a, FunctionStatement(row))
    {
    }
    FoldAppendsTexts(w, rows, FunctionStatement, FunctionBackupStep);
  }

  /** When the tables loop completes, every name in `tables` maps to the
      dictionary its DDL backup returned (`None` when it returned
      nothing). */
  lemma {:induction false} TablesBackedUp(source: Source, catalog: string, queries: seq<(string, string)>,
                                          singleLine: bool, w: string, rows: seq<seq<Obj>>)
    requires Fold(TablesRun([], w), rows, TableBackupStepOf(source, catalog, queries, singleLine)).Ok?
    ensures var run := Fold(TablesRun([], w), rows, TableBackupStepOf(source, catalog, queries, singleLine)).value;
      forall name :: HasKey(run.tables, name) ==>
        var b := TableBackup(source, "hive", catalog, name, queries, singleLine);
        Lookup(run.tables, name) == Some(if b.tableDict.Some? then b.tableDict.value else Null)
  {
    if |rows| > 0 {
      var init := rows[..|rows| - 1];
      var step := TableBackupStepOf(source, catalog, queries, singleLine);
      TablesBackedUp(source, catalog, queries, singleLine, w, init);
      var r0 := Fold(TablesRun([], w), init, step).value;
      var row := rows[|rows| - 1];
      assert step(r0, row) == TableBackupStep(source, catalog, queries, singleLine, r0, row);
      var name := row[0].s;
      var r := Fold(TablesRun([], w), rows, step).value;
      forall other | HasKey(r.tables, other)
        ensures var b := TableBackup(source, "hive", catalog, other, queries, singleLine);
          Lookup(r.tables, other) == Some(if b.tableDict.Some? then b.tableDict.value else Null)
      {
        if other != name {
          assert Lookup(r.tables, other) == Lookup(r0.tables, other);
        }
      }
    }
  }
}
