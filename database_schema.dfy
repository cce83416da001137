/** The live comparison's database assembly: the database properties, then
    one table schema per listed table, then one entry per view, then the
    functions; an exception at any point is caught and the dictionary built
    so far is returned. */
module DatabaseSchema {
  import opened Base
  import opened PyObj
  import opened Metastore
  import opened TableSchema
  import Config

  /** The parts of `db_schema` built so far. `schemas` says whether
      `db_schema['schemas']['default']['tables']` has been created. */
  datatype Assembly = Assembly(properties: Option<Entries>, schemas: bool, tables: Entries, views: Option<Entries>)

  const Nothing := Assembly(None, false, [], None)

  /** `db_schema['schemas']['default']`. */
  function DefaultSchema(a: Assembly): Entries
  {
    [("tables", Dict(a.tables))] + (if a.views.Some? then [("views", Dict(a.views.value))] else [])
  }

  /** The dictionary as Python holds it. */
  function Assemble(a: Assembly): Obj
  {
    Dict((if a.properties.Some? then [("properties", Dict(a.properties.value))] else [])
         + (if a.schemas then [("schemas", Dict([("default", Dict(DefaultSchema(a)))]))] else []))
  }

  /** What `get_database_schema` returns, and whether it caught and logged
      an exception on the way. */
  datatype Gathered = Gathered(schema: Obj, caught: bool)

  // ---------------------------------------------------------------------
  // The phases

  /** The database properties: `comment` and `location` are `results[0]`
      and `results[1]` of the whole `dbo.query` result; `None` is the
      "database not found" branch, which returns early without an
      exception, and an error is what `len(results)` raises. */
  function DatabaseProperties(f: Fetch): (r: Result<Option<Entries>>)
    ensures r.Err? <==> f.FetchFailed?
    ensures r.Ok? ==> r.value.Some?
  {
    DatabaseCells(f);
    match FirstTwo(Answer(f))
    case Err(e) => Err(e)
    case Ok(None) => Ok(None)
    case Ok(Some((comment, location))) => Ok(Some([("comment", comment), ("location", location)]))
  }

  /** The value stored for a table: its schema, or `None`. */
  function TableEntryOf(source: Source, catalog: string, name: string, queries: seq<(string, string)>): Obj
  {
    match TableSchemaOf(source, "hive", catalog, name, queries)
    case Some(d) => d
    case None => Null
  }

  /** One listed table: `tables[row[0]] = get_table_schema(..., row[0], ...)`. */
  function TableRowStep(source: Source, catalog: string, queries: seq<(string, string)>,
                        tables: Entries, row: seq<Obj>): Result<Entries>
  {
    var name :- Cell(row, 0);
    var key :- AsKey(name);
    Ok(Set(tables, key, TableEntryOf(source, catalog, key, queries)))
  }

  function TableStepOf(source: Source, catalog: string, queries: seq<(string, string)>): (Entries, seq<Obj>) -> Result<Entries>
  {
    (tables: Entries, row: seq<Obj>) => TableRowStep(source, catalog, queries, tables, row)
  }

  /** The tables loop; the listing query failing raises before any row. */
  function TablesPhase(source: Source, catalog: string, queries: seq<(string, string)>): Partial<Entries>
  {
    match RowsOf(source(TableList(catalog)))
    case Err(_) => Partial([], false)
    case Ok(rows) => Scan([], rows, TableStepOf(source, catalog, queries))
  }

  /** The entry of one view from its `(TBL_TYPE, VIEW_EXPANDED_TEXT,
      TBL_NAME)` row: its name, and `definition` plus, for the two view
      kinds only, `type`. */
  function ViewEntry(info: seq<Obj>): (r: Result<(string, Obj)>)
    ensures r.Ok? <==> |info| >= 3 && info[2].Str?
    ensures r.Ok? ==> r.value.0 == info[2].s && r.value.1.Dict?
    ensures r.Ok? ==> Lookup(r.value.1.entries, "definition") == Some(info[1])
    ensures r.Ok? ==> (HasKey(r.value.1.entries, "type")
                       <==> info[0] == Str("VIRTUAL_VIEW") || info[0] == Str("MATERIALIZED_VIEW"))
    ensures r.Ok? && HasKey(r.value.1.entries, "type") ==> Lookup(r.value.1.entries, "type") == Some(info[0])
  {
    var text :- Cell(info, 1);
    var nameObj :- Cell(info, 2);
    var name :- AsKey(nameObj);
    var kind := info[0];
    var typed := kind == Str("VIRTUAL_VIEW") || kind == Str("MATERIALIZED_VIEW");
    var entry := Set([], "definition", text);
    Ok((name, Dict(if typed then Set(entry, "type", kind) else entry)))
  }

  /** One listed view: its row is fetched by id; a view without a row is
      skipped. */
  function ViewRowStep(source: Source, catalog: string, views: Entries, row: seq<Obj>): Result<Entries>
  {
    var id :- Cell(row, 0);
    var infos :- RowsOf(source(ViewInfo(catalog, id)));
    if |infos| == 0 then Ok(views)
    else
      var (name, entry) :- ViewEntry(infos[0]);
      Ok(Set(views, name, entry))
  }

  function ViewStepOf(source: Source, catalog: string): (Entries, seq<Obj>) -> Result<Entries>
  {
    (views: Entries, row: seq<Obj>) => ViewRowStep(source, catalog, views, row)
  }

  function ViewsPhase(source: Source, catalog: string): Partial<Entries>
  {
    match RowsOf(source(ViewList(catalog)))
    case Err(_) => Partial([], false)
    case Ok(rows) => Scan([], rows, ViewStepOf(source, catalog))
  }

  /** The functions loop: `functions` was never created under `default`,
      so the first row raises a `KeyError`; only an empty listing lets the
      loop complete. */
  function FunctionsPhase(source: Source, catalog: string): (completed: bool)
  {
    match RowsOf(source(FunctionList(catalog)))
    case Err(_) => false
    case Ok(rows) => |rows| == 0
  }

  /** The parts `get_database_schema` builds before it returns, with the
      switches of the `compare` section, and whether it caught and logged an
      exception on the way. */
  function GatherParts(cfg: Config.Config, source: Source, catalog: string,
                       queries: seq<(string, string)>): (Assembly, bool)
  {
    var propsOn := Config.Enabled(cfg, "compare", "compare_database_properties");
    var p := if propsOn then DatabaseProperties(source(DatabaseInfo(catalog))) else Ok(Some([]));
    var a1 := if propsOn then Nothing.(properties := Some(if p.Ok? && p.value.Some? then p.value.value else [])) else Nothing;
    if p.Err? then (a1, true)
    else if p.value.None? then (a1, false)
    else
      var t := if Config.Enabled(cfg, "compare", "compare_tables") then TablesPhase(source, catalog, queries)
               else Partial([], true);
      var a2 := a1.(schemas := true, tables := t.state);
      if !t.completed then (a2, true)
      else
        var v := if Config.Enabled(cfg, "compare", "compare_views") then Some(ViewsPhase(source, catalog)) else None;
        var a3 := if v.Some? then a2.(views := Some(v.value.state)) else a2;
        if v.Some? && !v.value.completed then (a3, true)
        else (a3, Config.Enabled(cfg, "compare", "compare_functions") && !FunctionsPhase(source, catalog))
  }

  /** `DatabaseCompare.get_database_schema`. */
  function DatabaseSchemaOf(cfg: Config.Config, source: Source, catalog: string,
                            queries: seq<(string, string)>): Gathered
  {
    var (a, caught) := GatherParts(cfg, source, catalog, queries);
    Gathered(Assemble(a), caught)
  }

  /** `DatabaseCompare.get_database_schema`, run loop by loop. */
  method GetDatabaseSchema(cfg: Config.Config, source: Source, catalog: string,
                           queries: seq<(string, string)>) returns (dbSchema: Obj, caught: bool)
    ensures Gathered(dbSchema, caught) == DatabaseSchemaOf(cfg, source, catalog, queries)
  {
    var a := Nothing;
    if Config.Enabled(cfg, "compare", "compare_database_properties") {
      var p := DatabaseProperties(source(DatabaseInfo(catalog)));
      a := a.(properties := Some(if p.Ok? && p.value.Some? then p.value.value else []));
      if p.Err? {
        return Assemble(a), true;
      } else if p.value.None? {
        return Assemble(a), false;
      }
    }
    a := a.(schemas := true);
    if Config.Enabled(cfg, "compare", "compare_tables") {
      var listing := RowsOf(source(TableList(catalog)));
      if listing.Err? {
        return Assemble(a), true;
      }
      var tables, completed := ListTables(source, catalog, queries, listing.value);
      a := a.(tables := tables);
      if !completed {
        return Assemble(a), true;
      }
    }
    if Config.Enabled(cfg, "compare", "compare_views") {
      a := a.(views := Some([]));
      var listing := RowsOf(source(ViewList(catalog)));
      if listing.Err? {
        return Assemble(a), true;
      }
      var views, completed := RunScan([], listing.value, ViewStepOf(source, catalog));
      a := a.(views := Some(views));
      if !completed {
        return Assemble(a), true;
      }
    }
    if Config.Enabled(cfg, "compare", "compare_functions") {
      var listing := RowsOf(source(FunctionList(catalog)));
      if listing.Err? || |listing.value| > 0 {
        return Assemble(a), true;
      }
    }
    return Assemble(a), false;
  }

  /** The tables loop, fetching each table's schema with the schema
      builder. */
  method ListTables(source: Source, catalog: string, queries: seq<(string, string)>, rows: seq<seq<Obj>>)
    returns (tables: Entries, completed: bool)
    ensures Partial(tables, completed) == Scan([], rows, TableStepOf(source, catalog, queries))
  {
    tables := [];
    var i := 0;
    while i < |rows|
      invariant 0 <= i <= |rows|
      invariant Scan([], rows[..i], TableStepOf(source, catalog, queries)) == Partial(tables, true)
    {
      assert rows[..i + 1][..i] == rows[..i];
      var row := rows[i];
      if |row| == 0 || !row[0].Str? {
        ScanStops([], rows, TableStepOf(source, catalog, queries), i + 1);
        return tables, false;
      }
      var tableDict := GetTableSchema(source, "hive", catalog, row[0].s, queries);
      tables := Set(tables, row[0].s, if tableDict.Some? then tableDict.value else Null);
      i := i + 1;
    }
    assert rows[..i] == rows;
    return tables, true;
  }

  // ---------------------------------------------------------------------
  // Reading the result

  /** `db_schema['properties']`, when present. */
  function PropertiesOf(o: Obj): Option<Obj>
  {
    if o.Dict? then Lookup(o.entries, "properties") else None
  }

  /** `db_schema['schemas']['default']`, when present. */
  function DefaultOf(o: Obj): Option<Entries>
  {
    if o.Dict? && Lookup(o.entries, "schemas").Some? && Lookup(o.entries, "schemas").value.Dict?
       && Lookup(Lookup(o.entries, "schemas").value.entries, "default").Some?
       && Lookup(Lookup(o.entries, "schemas").value.entries, "default").value.Dict?
    then Some(Lookup(Lookup(o.entries, "schemas").value.entries, "default").value.entries)
    else None
  }

  lemma AssembleReads(a: Assembly)
    ensures PropertiesOf(Assemble(a)) == if a.properties.Some? then Some(Dict(a.properties.value)) else None
    ensures a.schemas ==> DefaultOf(Assemble(a)) == Some(DefaultSchema(a))
    ensures !a.schemas ==> DefaultOf(Assemble(a)) == None
  {
    var props: Entries := if a.properties.Some? then [("properties", Dict(a.properties.value))] else [];
    var schemas: Entries := if a.schemas then [("schemas", Dict([("default", Dict(DefaultSchema(a)))]))] else [];
    var d := props + schemas;
    assert Assemble(a) == Dict(d);
    if a.schemas {
      var inner: Entries := [("default", Dict(DefaultSchema(a)))];
      assert Lookup(inner, "default") == Some(Dict(DefaultSchema(a)));
      assert Lookup(schemas, "schemas") == Some(Dict(inner));
      if a.properties.Some? {
        assert d[0].0 != "schemas";
        assert d[1..] == schemas;
        assert Lookup(d, "schemas") == Lookup(schemas, "schemas");
      } else {
        assert d == schemas;
      }
    } else {
      assert d == props;
    }
  }

  /** `default` only ever holds `tables` and, when views were gathered,
      `views`: the functions map is never created. */
  lemma NoFunctionsMap(a: Assembly)
    ensures KeySet(DefaultSchema(a)) == {"tables"} + (if a.views.Some? then {"views"} else {})
    ensures !HasKey(DefaultSchema(a), "functions")
  {
    var d := DefaultSchema(a);
    assert HasKey(d, "tables") by { assert d[0].0 == "tables"; }
    if a.views.Some? {
      assert HasKey(d, "views") by { assert d[1].0 == "views"; }
    }
  }

  // ---------------------------------------------------------------------
  // Properties

  /** With the properties switched on, a fetched database row yields the
      whole result rows as `comment` and the column names as `location`,
      `(None, None)` yields `None` for both, and either way the run goes
      on; a bare `None` is caught with nothing else gathered. */
  lemma PropertiesAreRowsAndColumns(cfg: Config.Config, source: Source, catalog: string,
                                    queries: seq<(string, string)>)
    requires Config.Enabled(cfg, "compare", "compare_database_properties")
    ensures var g := DatabaseSchemaOf(cfg, source, catalog, queries);
      match source(DatabaseInfo(catalog))
      case Fetched(rows, cols) =>
        PropertiesOf(g.schema) == Some(Dict([("comment", RowsObj(rows)), ("location", StrList(cols))]))
        && DefaultOf(g.schema).Some?
      case NonePair =>
        PropertiesOf(g.schema) == Some(Dict([("comment", Null), ("location", Null)])) && DefaultOf(g.schema).Some?
      case FetchFailed =>
        g.caught && PropertiesOf(g.schema) == Some(Dict([])) && DefaultOf(g.schema) == None
  {
    var f := source(DatabaseInfo(catalog));
    DatabaseCells(f);
    var a := GatherParts(cfg, source, catalog, queries).0;
    assert a.properties == Some(if f.FetchFailed? then [] else DatabaseProperties(f).value.value);
    assert !f.FetchFailed? ==> a.schemas;
    AssembleReads(a);
  }

  /** The names of the listed tables. */
  function ListedNames(rows: seq<seq<Obj>>): set<string>
  {
    if |rows| == 0 then {}
    else
      var row := rows[|rows| - 1];
      ListedNames(rows[..|rows| - 1]) + (if |row| > 0 && row[0].Str? then {row[0].s} else {})
  }

  /** One table row that completes stores its table under its name. */
  lemma TableRowStepShape(source: Source, catalog: string, queries: seq<(string, string)>,
                          t0: Entries, row: seq<Obj>)
    requires TableStepOf(source, catalog, queries)(t0, row).Ok?
    ensures |row| > 0 && row[0].Str?
    ensures TableStepOf(source, catalog, queries)(t0, row).value
            == Set(t0, row[0].s, TableEntryOf(source, catalog, row[0].s, queries))
  {
    assert TableStepOf(source, catalog, queries)(t0, row) == TableRowStep(source, catalog, queries, t0, row);
  }

  /** A completed tables loop stores exactly the listed names. */
  lemma {:induction false} TablesNamed(source: Source, catalog: string, queries: seq<(string, string)>,
                                       rows: seq<seq<Obj>>)
    requires Fold([], rows, TableStepOf(source, catalog, queries)).Ok?
    ensures KeySet(Fold([], rows, TableStepOf(source, catalog, queries)).value) == ListedNames(rows)
  {
    if |rows| > 0 {
      var init := rows[..|rows| - 1];
      var step := TableStepOf(source, catalog, queries);
      TablesNamed(source, catalog, queries, init);
      var t0 := Fold([], init, step).value;
      var row := rows[|rows| - 1];
      TableRowStepShape(source, catalog, queries, t0, row);
    }
  }

  /** A completed tables loop maps every stored name to that table's
      schema, or `None` when the schema builder returned `None`. */
  lemma {:induction false} TablesMapped(source: Source, catalog: string, queries: seq<(string, string)>,
                                        rows: seq<seq<Obj>>)
    requires Fold([], rows, TableStepOf(source, catalog, queries)).Ok?
    ensures var t := Fold([], rows, TableStepOf(source, catalog, queries)).value;
      forall name :: HasKey(t, name) ==> Lookup(t, name) == Some(TableEntryOf(source, catalog, name, queries))
  {
    if |rows| > 0 {
      var init := rows[..|rows| - 1];
      var step := TableStepOf(source, catalog, queries);
      TablesMapped(source, catalog, queries, init);
      var t0 := Fold([], init, step).value;
      var row := rows[|rows| - 1];
      TableRowStepShape(source, catalog, queries, t0, row);
      var t := Set(t0, row[0].s, TableEntryOf(source, catalog, row[0].s, queries));
      assert Fold([], rows, step).value == t;
      forall name | HasKey(t, name)
        ensures Lookup(t, name) == Some(TableEntryOf(source, catalog, name, queries))
      {
        if name != row[0].s {
          assert Lookup(t, name) == Lookup(t0, name);
        }
      }
    }
  }

  /** The view entries a completed loop stores, in order: for every listed
      view that has a row, its name and entry. */
  function ViewPairs(source: Source, catalog: string, rows: seq<seq<Obj>>): Entries
  {
    if |rows| == 0 then []
    else
      var row := rows[|rows| - 1];
      var found :=
        if |row| > 0 && RowsOf(source(ViewInfo(catalog, row[0]))).Ok?
           && |RowsOf(source(ViewInfo(catalog, row[0]))).value| > 0
           && ViewEntry(RowsOf(source(ViewInfo(catalog, row[0]))).value[0]).Ok?
        then [ViewEntry(RowsOf(source(ViewInfo(catalog, row[0]))).value[0]).value]
        else [];
      ViewPairs(source, catalog, rows[..|rows| - 1]) + found
  }

  /** A completed views loop holds exactly the found views, keyed by
      `TBL_NAME`; a name found twice keeps its last entry. */
  lemma {:induction false} ViewsMapped(source: Source, catalog: string, rows: seq<seq<Obj>>)
    requires Fold([], rows, ViewStepOf(source, catalog)).Ok?
    ensures Fold([], rows, ViewStepOf(source, catalog)).value == FromPairs(ViewPairs(source, catalog, rows))
  {
    if |rows| > 0 {
      var init := rows[..|rows| - 1];
      ViewsMapped(source, catalog, init);
      var pairs := ViewPairs(source, catalog, init);
      var v0 := Fold([], init, ViewStepOf(source, catalog)).value;
      var row := rows[|rows| - 1];
      assert ViewStepOf(source, catalog)(v0, row) == ViewRowStep(source, catalog, v0, row);
      var infos := RowsOf(source(ViewInfo(catalog, row[0]))).value;
      if |infos| > 0 {
        var last := ViewEntry(infos[0]).value;
        assert ViewPairs(source, catalog, rows) == pairs + [last];
        assert (pairs + [last])[..|pairs + [last]| - 1] == pairs;
      } else {
        assert ViewPairs(source, catalog, rows) == pairs;
      }
    }
  }

  /** Every stored view entry is the entry of a found view row: its
      definition is the view text and it has a type exactly for the two
      view kinds. */
  lemma ViewEntryShape(info: seq<Obj>)
    requires |info| >= 3 && info[2].Str?
    ensures ViewEntry(info).Ok? && ViewEntry(info).value.0 == info[2].s
    ensures var e := ViewEntry(info).value.1;
      e.Dict? && Lookup(e.entries, "definition") == Some(info[1])
      && (info[0] == Str("VIRTUAL_VIEW") ==> Lookup(e.entries, "type") == Some(Str("VIRTUAL_VIEW")))
      && (info[0] == Str("MATERIALIZED_VIEW") ==> Lookup(e.entries, "type") == Some(Str("MATERIALIZED_VIEW")))
      && (info[0] != Str("VIRTUAL_VIEW") && info[0] != Str("MATERIALIZED_VIEW") ==> !HasKey(e.entries, "type"))
  {
  }

  /** When the listing and every table row complete, `tables` under
      `default` holds exactly the listed names, each mapped to that table's
      schema or `None`. */
  lemma ListedTablesGathered(cfg: Config.Config, source: Source, catalog: string,
                             queries: seq<(string, string)>, rows: seq<seq<Obj>>, cols: seq<string>)
    requires Config.Enabled(cfg, "compare", "compare_database_properties") ==> !source(DatabaseInfo(catalog)).FetchFailed?
    requires Config.Enabled(cfg, "compare", "compare_tables")
    requires source(TableList(catalog)) == Fetched(rows, cols)
    requires Fold([], rows, TableStepOf(source, catalog, queries)).Ok?
    ensures var d := DefaultOf(DatabaseSchemaOf(cfg, source, catalog, queries).schema);
      d.Some? && Lookup(d.value, "tables").Some? && Lookup(d.value, "tables").value.Dict?
      && var t := Lookup(d.value, "tables").value.entries;
      KeySet(t) == ListedNames(rows)
      && forall name :: HasKey(t, name) ==> Lookup(t, name) == Some(TableEntryOf(source, catalog, name, queries))
  {
    var a := GatherParts(cfg, source, catalog, queries).0;
    assert a.schemas && a.tables == Fold([], rows, TableStepOf(source, catalog, queries)).value;
    AssembleReads(a);
    assert Lookup(DefaultSchema(a), "tables") == Some(Dict(a.tables));
    TablesNamed(source, catalog, queries, rows);
    TablesMapped(source, catalog, queries, rows);
  }

  /** When tables and views complete, `views` under `default` maps each
      found view name to the entry of its last row. */
  lemma ListedViewsGathered(cfg: Config.Config, source: Source, catalog: string,
                            queries: seq<(string, string)>, rows: seq<seq<Obj>>, cols: seq<string>)
    requires Config.Enabled(cfg, "compare", "compare_database_properties") ==> !source(DatabaseInfo(catalog)).FetchFailed?
    requires Config.Enabled(cfg, "compare", "compare_tables") ==> TablesPhase(source, catalog, queries).completed
    requires Config.Enabled(cfg, "compare", "compare_views")
    requires source(ViewList(catalog)) == Fetched(rows, cols)
    requires Fold([], rows, ViewStepOf(source, catalog)).Ok?
    ensures var d := DefaultOf(DatabaseSchemaOf(cfg, source, catalog, queries).schema);
      d.Some? && Lookup(d.value, "views") == Some(Dict(FromPairs(ViewPairs(source, catalog, rows))))
  {
    var a := GatherParts(cfg, source, catalog, queries).0;
    assert a.schemas && a.views == Some(Fold([], rows, ViewStepOf(source, catalog)).value);
    AssembleReads(a);
    var d := DefaultSchema(a);
    assert d[1..] == [("views", Dict(a.views.value))];
    assert Lookup(d, "views") == Some(Dict(a.views.value));
    ViewsMapped(source, catalog, rows);
  }

  /** A listing of tables that fails (a bare `None` or `(None, None)`) is
      caught after the properties: the result has the properties when they
      are switched on, and the `schemas` skeleton with no table and no
      `views`. */
  lemma FailedTableListingCaught(cfg: Config.Config, source: Source, catalog: string,
                                 queries: seq<(string, string)>)
    requires Config.Enabled(cfg, "compare", "compare_database_properties") ==> !source(DatabaseInfo(catalog)).FetchFailed?
    requires Config.Enabled(cfg, "compare", "compare_tables")
    requires !source(TableList(catalog)).Fetched?
    ensures var g := DatabaseSchemaOf(cfg, source, catalog, queries);
      var skeleton := ("schemas", Dict([("default", Dict([("tables", Dict([]))]))]));
      g.caught
      && (Config.Enabled(cfg, "compare", "compare_database_properties") ==>
            var props := DatabaseProperties(source(DatabaseInfo(catalog))).value.value;
            g.schema == Dict([("properties", Dict(props)), skeleton]))
      && (!Config.Enabled(cfg, "compare", "compare_database_properties") ==> g.schema == Dict([skeleton]))
  {
    var propsOn := Config.Enabled(cfg, "compare", "compare_database_properties");
    var props := if propsOn then Some(DatabaseProperties(source(DatabaseInfo(catalog))).value.value) else None;
    var a := Assembly(props, true, [], None);
    assert GatherParts(cfg, source, catalog, queries) == (a, true);
    assert DefaultSchema(a) == [("tables", Dict([]))];
  }

  /** No result ever holds a functions map under `default`. */
  lemma NoFunctionsGathered(cfg: Config.Config, source: Source, catalog: string, queries: seq<(string, string)>)
    ensures var d := DefaultOf(DatabaseSchemaOf(cfg, source, catalog, queries).schema);
      d.Some? ==> !HasKey(d.value, "functions")
  {
    var a := GatherParts(cfg, source, catalog, queries).0;
    AssembleReads(a);
    NoFunctionsMap(a);
  }

  /** With every other part complete, any function row makes the run end
      in a caught `KeyError`. */
  lemma FunctionRowsAreCaught(cfg: Config.Config, source: Source, catalog: string,
                              queries: seq<(string, string)>, rows: seq<seq<Obj>>, cols: seq<string>)
    requires Config.Enabled(cfg, "compare", "compare_functions")
    requires source(FunctionList(catalog)) == Fetched(rows, cols) && |rows| > 0
    ensures DatabaseSchemaOf(cfg, source, catalog, queries).caught
  {
    assert !FunctionsPhase(source, catalog);
  }

  /** Only an empty or disabled functions listing, after every other part
      completed, lets the run finish without a caught exception. */
  lemma UncaughtExactly(cfg: Config.Config, source: Source, catalog: string, queries: seq<(string, string)>)
    ensures !DatabaseSchemaOf(cfg, source, catalog, queries).caught <==>
      (Config.Enabled(cfg, "compare", "compare_database_properties") ==> !source(DatabaseInfo(catalog)).FetchFailed?)
      && (Config.Enabled(cfg, "compare", "compare_tables") ==> TablesPhase(source, catalog, queries).completed)
      && (Config.Enabled(cfg, "compare", "compare_views") ==> ViewsPhase(source, catalog).completed)
      && (Config.Enabled(cfg, "compare", "compare_functions") ==> FunctionsPhase(source, catalog))
  {
  }
}
