/** The per-table DDL synthesiser of the schema backup: the tagged query
    battery is run in order, each answer updates the pieces of one
    `CREATE TABLE` statement, and the statement is written followed by one
    `ALTER TABLE ... ADD PARTITION` statement per partition. */
module TableDdl {
  import opened Base
  import opened PyObj
  import opened Metastore

  /** The local variables of the synthesiser between two queries. The
      variables Python binds only on some paths are `Option`s: reading one
      that is still `None` raises `NameError`. */
  datatype DdlState = DdlState(
    ids: Ids,
    tableName: Option<Obj>,
    tableType: string,
    columnString: string,
    tblProperties: string,
    serdeProperties: string,
    storedBy: string,
    locationString: string,
    rowFormat: string,
    formatString: string,
    partitionKeyString: string,
    tableComment: string,
    sortedByString: string,
    bucketString: Option<string>,
    clusteredByString: Option<string>,
    alterStatements: Option<seq<string>>,
    dict: Entries)

  /** The state before the first query: type `TABLE`, every clause empty. */
  const InitialDdl := DdlState(InitialIds, None, "TABLE", "", "", "", "", "", "", "", "", "", "", None, None, None, [])

  /** Whether the fold goes on, or stops because the table is not in the
      metastore. */
  datatype Outcome = Continue(st: DdlState) | NotFound

  // ---------------------------------------------------------------------
  // Q1: the table's identity

  /** The keyword after `CREATE`: managed tables are plain `TABLE`s,
      external tables `EXTERNAL TABLE`s, any other type is used verbatim. */
  function TableKeyword(ttype: string): (r: string)
    ensures Strip(ttype) == "MANAGED_TABLE" ==> r == "TABLE"
    ensures Strip(ttype) == "EXTERNAL_TABLE" ==> r == "EXTERNAL TABLE"
    ensures Strip(ttype) != "MANAGED_TABLE" && Strip(ttype) != "EXTERNAL_TABLE" ==> r == ttype
  {
    var t := Strip(ttype);
    if t == "MANAGED_TABLE" then "TABLE" else if t == "EXTERNAL_TABLE" then "EXTERNAL TABLE" else ttype
  }

  /** Q1: no row means the table is not in the metastore; otherwise the
      first row gives the name, the id and the type. */
  function IdentityStep(st: DdlState, recs: seq<Entries>): (r: Result<Outcome>)
    ensures r == Ok(NotFound) <==> |recs| == 0
    ensures |recs| > 0 && Field(recs[0], "TBL_TYPE").Str? ==> r.Ok?
    ensures r.Err? <==> |recs| > 0 && !Field(recs[0], "TBL_TYPE").Str?
    ensures r.Ok? && r.value.Continue? ==>
      var row := recs[0];
      var next := r.value.st;
      next.tableName == Some(Field(row, "TBL_NAME"))
      && next.ids == st.ids.(tableId := Field(row, "TBL_ID"))
      && Lookup(next.dict, "type") == Some(Str(Strip(Field(row, "TBL_TYPE").s)))
      && (forall key :: key != "type" ==> Lookup(next.dict, key) == Lookup(st.dict, key))
      && next.tableType == TableKeyword(Field(row, "TBL_TYPE").s)
      && next == st.(tableName := next.tableName, ids := next.ids, dict := next.dict, tableType := next.tableType)
  {
    if |recs| == 0 then Ok(NotFound)
    else
      var row := recs[0];
      var ttype := Field(row, "TBL_TYPE");
      var stripped :- StrippedType(ttype);
      Ok(Continue(st.(
        tableName := Some(Field(row, "TBL_NAME")),
        ids := st.ids.(tableId := Field(row, "TBL_ID")),
        dict := Set(st.dict, "type", Str(stripped)),
        tableType := TableKeyword(ttype.s))))
  }

  // ---------------------------------------------------------------------
  // Q2: the storage descriptor

  /** The format clause after the storage-descriptor row: a present input
      format replaces the clause, a present output format is appended. */
  function FormatClause(previous: string, inputFormat: Obj, outputFormat: Obj): string
  {
    (if inputFormat != Null then "\nSTORED AS INPUTFORMAT\n  '" + Show(inputFormat) + "'" else previous)
    + (if outputFormat != Null then "\nOUTPUTFORMAT\n  '" + Show(outputFormat) + "'" else "")
  }

  /** Q2: bucket count, location and formats from the first row; the ids
      of the storage descriptor and the database URIs for later queries. */
  function StorageStep(st: DdlState, recs: seq<Entries>): Result<DdlState>
  {
    if |recs| == 0 then Ok(st)
    else
      var row := recs[0];
      var location := Field(row, "LOCATION");
      var dbLocationUri := Field(row, "DB_LOCATION_URI");
      var numBuckets := Field(row, "NUM_BUCKETS");
      var bucketed :- Positive(numBuckets);
      var managed :- DeriveManagedUri(dbLocationUri, Field(row, "DB_MANAGED_LOCATION_URI"));
      var recorded :- NeedsLocation(dbLocationUri, location);
      var withBucket := if bucketed then Set(st.dict, "bucket", BucketInfo(numBuckets)) else st.dict;
      Ok(st.(
        ids := st.ids.(sdId := Field(row, "SD_ID"), cdId := Field(row, "CD_ID"),
                       dbLocationUri := dbLocationUri, dbManagedUri := managed),
        bucketString := Some(if bucketed then "\nINTO " + Show(numBuckets) + " BUCKETS" else ""),
        locationString := if recorded then "\nLOCATION\n  '" + Show(location) + "'" else st.locationString,
        dict := if recorded then Set(withBucket, "location", location) else withBucket,
        formatString := FormatClause(st.formatString, Field(row, "INPUT_FORMAT"), Field(row, "OUTPUT_FORMAT"))))
  }

  /** A positive bucket count yields the `INTO n BUCKETS` suffix and the
      `bucket` entry; any other count yields an empty suffix and leaves the
      entry alone. */
  lemma StorageBucketRule(st: DdlState, recs: seq<Entries>, n: int)
    requires |recs| > 0 && Field(recs[0], "NUM_BUCKETS") == Int(n)
    requires StorageStep(st, recs).Ok?
    ensures var next := StorageStep(st, recs).value;
      next.bucketString == Some(if n > 0 then "\nINTO " + IntToString(n) + " BUCKETS" else "")
      && (n > 0 ==> Lookup(next.dict, "bucket") == Some(BucketInfo(Int(n))))
      && (n <= 0 ==> Lookup(next.dict, "bucket") == Lookup(st.dict, "bucket"))
  {
  }

  /** The location is recorded exactly when the database URI and the
      location are both set and the location lies outside the database
      directory; otherwise the clause and the entry stay as they were. */
  lemma StorageLocationRule(st: DdlState, recs: seq<Entries>, dbUri: string, location: string)
    requires |recs| > 0
    requires Field(recs[0], "DB_LOCATION_URI") == Str(dbUri) && Field(recs[0], "LOCATION") == Str(location)
    requires StorageStep(st, recs).Ok?
    ensures var next := StorageStep(st, recs).value;
      var recorded := dbUri != "" && location != "" && !Contains(location, dbUri);
      (recorded ==> next.locationString == "\nLOCATION\n  '" + location + "'"
                    && Lookup(next.dict, "location") == Some(Str(location)))
      && (!recorded ==> next.locationString == st.locationString
                        && Lookup(next.dict, "location") == Lookup(st.dict, "location"))
  {
    var row := recs[0];
    var recorded := dbUri != "" && location != "" && !Contains(location, dbUri);
    assert NeedsLocation(Str(dbUri), Str(location)) == Ok(recorded);
    var bucketed := Positive(Field(row, "NUM_BUCKETS")).value;
    var withBucket := if bucketed then Set(st.dict, "bucket", BucketInfo(Field(row, "NUM_BUCKETS"))) else st.dict;
    if recorded {
      assert Show(Str(location)) == location;
      assert StorageStep(st, recs).value.dict == Set(withBucket, "location", Str(location));
    } else {
      assert StorageStep(st, recs).value.dict == withBucket;
      assert Lookup(withBucket, "location") == Lookup(st.dict, "location");
    }
  }

  // ---------------------------------------------------------------------
  // Q3: table parameters

  /** One `'key'='value'` item of the TBLPROPERTIES list. */
  function PropertyText(key: string, value: Obj): string
  {
    "'" + key + "'='" + Show(value) + "'"
  }

  /** The variables the parameter loop updates. */
  datatype Params = Params(dict: Entries, props: Entries, arr: seq<string>, storedBy: string, tableComment: string)

  /** One iteration of the parameter loop. */
  function ParamStep(p: Params, entry: Entries): Result<Params>
  {
    var key :- Column(entry, "PARAM_KEY");
    match RouteOf(key)
    case Dropped => Ok(p)
    case StoredBy =>
      var value :- Column(entry, "PARAM_VALUE");
      Ok(p.(storedBy := "\nSTORED BY\n  '" + Show(value) + "'", dict := Set(p.dict, "stored_by", value)))
    case TableComment =>
      var value :- Column(entry, "PARAM_VALUE");
      Ok(p.(tableComment := "\nCOMMENT '" + Show(value) + "'", dict := Set(p.dict, "comment", value)))
    case Statistic =>
      var value :- Column(entry, "PARAM_VALUE");
      var name :- AsKey(key);
      Ok(p.(props := Set(p.props, name, value)))
    case Property =>
      var value :- Column(entry, "PARAM_VALUE");
      var name :- AsKey(key);
      Ok(p.(props := Set(p.props, name, value), arr := p.arr + [PropertyText(name, value)]))
  }

  /** The loop's variables on entry: `properties` reset to `{}`, no item. */
  function ParamsStart(st: DdlState): Params
  {
    Params(Set(st.dict, "properties", Dict([])), [], [], st.storedBy, st.tableComment)
  }

  /** Q3: route every parameter, then build the TBLPROPERTIES clause. */
  function PropertiesStep(st: DdlState, recs: seq<Entries>): Result<DdlState>
  {
    var p :- Fold(ParamsStart(st), recs, ParamStep);
    Ok(st.(
      dict := Set(p.dict, "properties", Dict(p.props)),
      storedBy := p.storedBy,
      tableComment := p.tableComment,
      tblProperties := if |p.arr| > 0 then "\nTBLPROPERTIES(\n  " + Join(p.arr, ",\n  ") + ")" else ""))
  }

  /** The Q3 loop. */
  method RouteParameters(st: DdlState, recs: seq<Entries>) returns (r: Result<DdlState>)
    ensures r == PropertiesStep(st, recs)
  {
    var p0 := ParamsStart(st);
    var dict, props, arr, storedBy, comment := p0.dict, [], [], st.storedBy, st.tableComment;
    var i := 0;
    while i < |recs|
      invariant 0 <= i <= |recs|
      invariant Fold(p0, recs[..i], ParamStep) == Ok(Params(dict, props, arr, storedBy, comment))
    {
      assert recs[..i + 1][..i] == recs[..i];
      var entry := recs[i];
      var key := Column(entry, "PARAM_KEY");
      if key.Err? {
        FoldStops(p0, recs, ParamStep, i + 1);
        return Err(key.error);
      }
      var route := RouteOf(key.value);
      if route != Dropped {
        var value := Column(entry, "PARAM_VALUE");
        if value.Err? {
          FoldStops(p0, recs, ParamStep, i + 1);
          return Err(value.error);
        }
        if route == StoredBy {
          storedBy := "\nSTORED BY\n  '" + Show(value.value) + "'";
          dict := Set(dict, "stored_by", value.value);
        } else if route == TableComment {
          comment := "\nCOMMENT '" + Show(value.value) + "'";
          dict := Set(dict, "comment", value.value);
        } else {
          var name := AsKey(key.value);
          if name.Err? {
            FoldStops(p0, recs, ParamStep, i + 1);
            return Err(name.error);
          }
          props := Set(props, name.value, value.value);
          if route == Property {
            arr := arr + [PropertyText(name.value, value.value)];
          }
        }
      }
      i := i + 1;
    }
    assert recs[..i] == recs;
    var tbl := if |arr| > 0 then "\nTBLPROPERTIES(\n  " + Join(arr, ",\n  ") + ")" else "";
    return Ok(st.(dict := Set(dict, "properties", Dict(props)), storedBy := storedBy,
                  tableComment := comment, tblProperties := tbl));
  }

  /** The parameters emitted in TBLPROPERTIES, in order. */
  function EmittedPairs(recs: seq<Entries>): Entries
  {
    if |recs| == 0 then []
    else
      var e := recs[|recs| - 1];
      var key := Field(e, "PARAM_KEY");
      EmittedPairs(recs[..|recs| - 1])
      + (if key.Str? && RouteOf(key) == Property then [(key.s, Field(e, "PARAM_VALUE"))] else [])
  }

  function PropertyTexts(pairs: Entries): (r: seq<string>)
    ensures |r| == |pairs|
    ensures forall k :: 0 <= k < |pairs| ==> r[k] == "'" + pairs[k].0 + "'='" + Show(pairs[k].1) + "'"
  {
    seq(|pairs|, k requires 0 <= k < |pairs| => PropertyText(pairs[k].0, pairs[k].1))
  }

  /** What one parameter does to `properties` and to the items. */
  lemma ParamStepRouting(p: Params, e: Entries)
    requires ParamStep(p, e).Ok?
    ensures var q := ParamStep(p, e).value;
      var key := Field(e, "PARAM_KEY");
      var value := Field(e, "PARAM_VALUE");
      q.props == (if key.Str? && Recorded(key) then Set(p.props, key.s, value) else p.props)
      && q.arr == p.arr + (if key.Str? && RouteOf(key) == Property then [PropertyText(key.s, value)] else [])
  {
  }

  /** The loop builds `properties` from exactly the recorded parameters. */
  lemma {:induction false} ParamsFoldProps(p0: Params, recs: seq<Entries>)
    requires p0.props == []
    requires Fold(p0, recs, ParamStep).Ok?
    ensures Fold(p0, recs, ParamStep).value.props == FromPairs(RecordedPairs(recs))
  {
    if |recs| > 0 {
      var init := recs[..|recs| - 1];
      ParamsFoldProps(p0, init);
      ParamStepRouting(Fold(p0, init, ParamStep).value, recs[|recs| - 1]);
      RecordedPropsSnoc(recs);
    }
  }

  lemma PropertyTextsSnoc(pairs: Entries, last: (string, Obj))
    ensures PropertyTexts(pairs + [last]) == PropertyTexts(pairs) + [PropertyText(last.0, last.1)]
  {
    assert forall k :: 0 <= k < |pairs| ==> (pairs + [last])[k] == pairs[k];
  }

  /** The TBLPROPERTIES items of the rows, one row at a time. */
  lemma EmittedTextsSnoc(recs: seq<Entries>)
    requires |recs| > 0
    ensures var e := recs[|recs| - 1];
      var key := Field(e, "PARAM_KEY");
      PropertyTexts(EmittedPairs(recs))
      == PropertyTexts(EmittedPairs(recs[..|recs| - 1]))
         + if key.Str? && RouteOf(key) == Property then [PropertyText(key.s, Field(e, "PARAM_VALUE"))] else []
  {
    var e := recs[|recs| - 1];
    var key := Field(e, "PARAM_KEY");
    var emitted := EmittedPairs(recs[..|recs| - 1]);
    var emitting := key.Str? && RouteOf(key) == Property;
    if emitting {
      PropertyTextsSnoc(emitted, (key.s, Field(e, "PARAM_VALUE")));
    } else {
      assert emitted + [] == emitted;
    }
  }

  /** The loop emits a TBLPROPERTIES item for exactly the emitted
      parameters, in row order. */
  lemma {:induction false} ParamsFoldItems(p0: Params, recs: seq<Entries>)
    requires p0.arr == []
    requires Fold(p0, recs, ParamStep).Ok?
    ensures Fold(p0, recs, ParamStep).value.arr == PropertyTexts(EmittedPairs(recs))
  {
    if |recs| > 0 {
      var init := recs[..|recs| - 1];
      ParamsFoldItems(p0, init);
      ParamStepRouting(Fold(p0, init, ParamStep).value, recs[|recs| - 1]);
      EmittedTextsSnoc(recs);
    }
  }

  /** The value of the last parameter row whose key takes `route`, if
      any. */
  function LastRouted(recs: seq<Entries>, route: Route): Option<Obj>
  {
    if |recs| == 0 then None
    else
      var e := recs[|recs| - 1];
      if RouteOf(Field(e, "PARAM_KEY")) == route then Some(Field(e, "PARAM_VALUE"))
      else LastRouted(recs[..|recs| - 1], route)
  }

  /** What one parameter does to the STORED BY and COMMENT clauses and to
      the dictionary. */
  lemma ParamStepDedicated(p: Params, e: Entries)
    requires ParamStep(p, e).Ok?
    ensures var q := ParamStep(p, e).value;
      var route := RouteOf(Field(e, "PARAM_KEY"));
      var value := Field(e, "PARAM_VALUE");
      q.storedBy == (if route == StoredBy then "\nSTORED BY\n  '" + Show(value) + "'" else p.storedBy)
      && q.tableComment == (if route == TableComment then "\nCOMMENT '" + Show(value) + "'" else p.tableComment)
      && q.dict == (if route == StoredBy then Set(p.dict, "stored_by", value)
                    else if route == TableComment then Set(p.dict, "comment", value)
                    else p.dict)
  {
  }

  /** Setting `properties` leaves the two dedicated entries alone, and
      setting either dedicated entry leaves the other alone. */
  lemma OtherThanProperties(d: Entries, v: Obj)
    ensures Lookup(Set(d, "properties", v), "stored_by") == Lookup(d, "stored_by")
    ensures Lookup(Set(d, "properties", v), "comment") == Lookup(d, "comment")
    ensures Lookup(Set(d, "stored_by", v), "comment") == Lookup(d, "comment")
    ensures Lookup(Set(d, "comment", v), "stored_by") == Lookup(d, "stored_by")
  {
    assert "stored_by" != "properties";
    assert "comment" != "properties";
    assert "comment" != "stored_by";
  }

  /** The STORED BY clause and the `stored_by` entry come from the last
      `storage_handler` row; without one they stay as they were. */
  lemma {:induction false} ParamsFoldStoredBy(p0: Params, recs: seq<Entries>)
    requires Fold(p0, recs, ParamStep).Ok?
    ensures var q := Fold(p0, recs, ParamStep).value;
      var handler := LastRouted(recs, StoredBy);
      q.storedBy == (if handler.Some? then "\nSTORED BY\n  '" + Show(handler.value) + "'" else p0.storedBy)
      && Lookup(q.dict, "stored_by") == (if handler.Some? then handler else Lookup(p0.dict, "stored_by"))
  {
    if |recs| > 0 {
      var init := recs[..|recs| - 1];
      var e := recs[|recs| - 1];
      ParamsFoldStoredBy(p0, init);
      var p := Fold(p0, init, ParamStep).value;
      assert Fold(p0, recs, ParamStep) == ParamStep(p, e);
      ParamStepDedicated(p, e);
      var q := ParamStep(p, e).value;
      if RouteOf(Field(e, "PARAM_KEY")) == StoredBy {
        assert LastRouted(recs, StoredBy) == Some(Field(e, "PARAM_VALUE"));
      } else {
        assert LastRouted(recs, StoredBy) == LastRouted(init, StoredBy);
        assert q.storedBy == p.storedBy;
        OtherThanProperties(p.dict, Field(e, "PARAM_VALUE"));
        assert Lookup(q.dict, "stored_by") == Lookup(p.dict, "stored_by");
      }
    }
  }

  /** The COMMENT clause and the `comment` entry come from the last
      `comment` row; without one they stay as they were. */
  lemma {:induction false} ParamsFoldComment(p0: Params, recs: seq<Entries>)
    requires Fold(p0, recs, ParamStep).Ok?
    ensures var q := Fold(p0, recs, ParamStep).value;
      var comment := LastRouted(recs, TableComment);
      q.tableComment == (if comment.Some? then "\nCOMMENT '" + Show(comment.value) + "'" else p0.tableComment)
      && Lookup(q.dict, "comment") == (if comment.Some? then comment else Lookup(p0.dict, "comment"))
  {
    if |recs| > 0 {
      var init := recs[..|recs| - 1];
      var e := recs[|recs| - 1];
      ParamsFoldComment(p0, init);
      var p := Fold(p0, init, ParamStep).value;
      assert Fold(p0, recs, ParamStep) == ParamStep(p, e);
      ParamStepDedicated(p, e);
      var q := ParamStep(p, e).value;
      if RouteOf(Field(e, "PARAM_KEY")) == TableComment {
        assert LastRouted(recs, TableComment) == Some(Field(e, "PARAM_VALUE"));
      } else {
        assert LastRouted(recs, TableComment) == LastRouted(init, TableComment);
        assert q.tableComment == p.tableComment;
        OtherThanProperties(p.dict, Field(e, "PARAM_VALUE"));
        assert Lookup(q.dict, "comment") == Lookup(p.dict, "comment");
      }
    }
  }

  /** After Q3 the `properties` entry maps every recorded key to the value
      of its last row, the skipped and dedicated keys never appear in it,
      and TBLPROPERTIES lists the emitted parameters in row order (and is
      empty when there are none). */
  lemma PropertiesRouting(st: DdlState, recs: seq<Entries>)
    requires PropertiesStep(st, recs).Ok?
    ensures var next := PropertiesStep(st, recs).value;
      var props := FromPairs(RecordedPairs(recs));
      Lookup(next.dict, "properties") == Some(Dict(props))
      && (forall key :: Lookup(props, key) == LastValue(RecordedPairs(recs), key))
      && (forall key :: HasKey(props, key) ==> Recorded(Str(key)))
      && (EmittedPairs(recs) == [] ==> next.tblProperties == "")
      && (EmittedPairs(recs) != [] ==>
            next.tblProperties == "\nTBLPROPERTIES(\n  " + Join(PropertyTexts(EmittedPairs(recs)), ",\n  ") + ")")
  {
    ParamsFoldProps(ParamsStart(st), recs);
    ParamsFoldItems(ParamsStart(st), recs);
    RecordedPairsRecorded(recs);
  }

  /** After Q3 the STORED BY clause and the `stored_by` entry hold the
      value of the last `storage_handler` row, and the COMMENT clause and
      the `comment` entry that of the last `comment` row; without such a
      row they stay as they were. */
  lemma DedicatedRouting(st: DdlState, recs: seq<Entries>)
    requires PropertiesStep(st, recs).Ok?
    ensures var next := PropertiesStep(st, recs).value;
      var handler := LastRouted(recs, StoredBy);
      next.storedBy == (if handler.Some? then "\nSTORED BY\n  '" + Show(handler.value) + "'" else st.storedBy)
      && Lookup(next.dict, "stored_by") == (if handler.Some? then handler else Lookup(st.dict, "stored_by"))
    ensures var next := PropertiesStep(st, recs).value;
      var comment := LastRouted(recs, TableComment);
      next.tableComment == (if comment.Some? then "\nCOMMENT '" + Show(comment.value) + "'" else st.tableComment)
      && Lookup(next.dict, "comment") == (if comment.Some? then comment else Lookup(st.dict, "comment"))
  {
    var p0 := ParamsStart(st);
    var p := Fold(p0, recs, ParamStep).value;
    var next := PropertiesStep(st, recs).value;
    assert next.storedBy == p.storedBy && next.tableComment == p.tableComment
        && next.dict == Set(p.dict, "properties", Dict(p.props));
    OtherThanProperties(p.dict, Dict(p.props));
    OtherThanProperties(st.dict, Dict([]));
    ParamsFoldStoredBy(p0, recs);
    ParamsFoldComment(p0, recs);
  }

  // ---------------------------------------------------------------------
  // Q6, Q9, Q11, Q12, Q16: clauses built from every row

  /** One `'key'='value'` item of WITH SERDEPROPERTIES. */
  function SerdePropertyText(entry: Entries): Result<string>
  {
    var key :- Column(entry, "PARAM_KEY");
    var value :- Column(entry, "PARAM_VALUE");
    Ok("'" + Show(key) + "'='" + Show(value) + "'")
  }

  /** One column definition: `` `name` type ``, with ` COMMENT 'c'` when
      the comment is not NULL. */
  function ColumnText(entry: Entries): Result<string>
  {
    var comment :- Column(entry, "COMMENT");
    var name :- Column(entry, "COLUMN_NAME");
    var ctype :- Column(entry, "TYPE_NAME");
    Ok("`" + Show(name) + "` " + Show(ctype) + (if comment == Null then "" else " COMMENT '" + Show(comment) + "'"))
  }

  /** The variables the column loop updates: the definitions and the
      `columns` entry. */
  datatype Columns = Columns(arr: seq<string>, columns: Entries)

  function ColumnStep(c: Columns, entry: Entries): Result<Columns>
  {
    var text :- ColumnText(entry);
    var name :- AsKey(Field(entry, "COLUMN_NAME"));
    var ctype := Field(entry, "TYPE_NAME");
    Ok(Columns(c.arr + [text], Set(c.columns, name, Dict([("type", ctype), ("comment", Str(""))]))))
  }

  /** Q9: the column list and the `columns` entry. */
  function ColumnsStep(st: DdlState, recs: seq<Entries>): Result<DdlState>
  {
    var c :- Fold(Columns([], []), recs, ColumnStep);
    Ok(st.(dict := Set(Set(st.dict, "columns", Dict([])), "columns", Dict(c.columns)),
           columnString := if |c.arr| > 0 then Join(c.arr, ",\n  ") else st.columnString))
  }

  /** The Q9 loop. */
  method RenderColumns(st: DdlState, recs: seq<Entries>) returns (r: Result<DdlState>)
    ensures r == ColumnsStep(st, recs)
  {
    var arr: seq<string> := [];
    var columns: Entries := [];
    var i := 0;
    while i < |recs|
      invariant 0 <= i <= |recs|
      invariant Fold(Columns([], []), recs[..i], ColumnStep) == Ok(Columns(arr, columns))
    {
      assert recs[..i + 1][..i] == recs[..i];
      var entry := recs[i];
      var text := ColumnText(entry);
      if text.Err? {
        FoldStops(Columns([], []), recs, ColumnStep, i + 1);
        return Err(text.error);
      }
      arr := arr + [text.value];
      var name := AsKey(Field(entry, "COLUMN_NAME"));
      if name.Err? {
        FoldStops(Columns([], []), recs, ColumnStep, i + 1);
        return Err(name.error);
      }
      columns := Set(columns, name.value, Dict([("type", Field(entry, "TYPE_NAME")), ("comment", Str(""))]));
      i := i + 1;
    }
    assert recs[..i] == recs;
    var dict := Set(Set(st.dict, "columns", Dict([])), "columns", Dict(columns));
    return Ok(st.(dict := dict, columnString := if |arr| > 0 then Join(arr, ",\n  ") else st.columnString));
  }

  /** What one column row does to the definitions and to `columns`. */
  lemma ColumnStepShape(c: Columns, e: Entries)
    requires ColumnStep(c, e).Ok?
    ensures var d := ColumnStep(c, e).value;
      ColumnText(e) == Ok(d.arr[|d.arr| - 1]) && d.arr == c.arr + [d.arr[|d.arr| - 1]]
      && Field(e, "COLUMN_NAME").Str?
      && KeySet(d.columns) == KeySet(c.columns) + {Field(e, "COLUMN_NAME").s}
  {
  }

  /** The column loop yields one definition per row, in row order. */
  lemma ColumnsFoldTexts(recs: seq<Entries>)
    requires Fold(Columns([], []), recs, ColumnStep).Ok?
    ensures var c := Fold(Columns([], []), recs, ColumnStep).value;
      |c.arr| == |recs| && forall k :: 0 <= k < |recs| ==> ColumnText(recs[k]) == Ok(c.arr[k])
  {
    forall c: Columns, e: Entries | ColumnStep(c, e).Ok?
      ensures ColumnText(e).Ok? && ColumnStep(c, e).value.arr == c.arr + [ColumnText(e).value]
    {
      ColumnStepShape(c, e);
    }
    FoldCollects(Columns([], []), recs, ColumnStep, ColumnText, (c: Columns) => c.arr);
  }

  /** The column names of the rows, as a set. */
  function ColumnNames(recs: seq<Entries>): set<string>
  {
    if |recs| == 0 then {}
    else
      var name := Field(recs[|recs| - 1], "COLUMN_NAME");
      ColumnNames(recs[..|recs| - 1]) + (if name.Str? then {name.s} else {})
  }

  /** The `columns` entry is keyed by exactly the rows' column names. */
  lemma {:induction false} ColumnsFoldKeys(recs: seq<Entries>)
    requires Fold(Columns([], []), recs, ColumnStep).Ok?
    ensures KeySet(Fold(Columns([], []), recs, ColumnStep).value.columns) == ColumnNames(recs)
  {
    if |recs| > 0 {
      var init := recs[..|recs| - 1];
      ColumnsFoldKeys(init);
      var c0 := Fold(Columns([], []), init, ColumnStep).value;
      ColumnStepShape(c0, recs[|recs| - 1]);
    }
  }

  /** Every row's column name is in the set of names. */
  lemma {:induction false} ColumnNamesCover(recs: seq<Entries>, k: nat)
    requires k < |recs| && Field(recs[k], "COLUMN_NAME").Str?
    ensures Field(recs[k], "COLUMN_NAME").s in ColumnNames(recs)
  {
    if k < |recs| - 1 {
      ColumnNamesCover(recs[..|recs| - 1], k);
    }
  }

  /** Q6: the SORTED BY clause, kept as it was when there is no row. */
  function SortStep(st: DdlState, recs: seq<Entries>): Result<DdlState>
  {
    var arr :- MapRecords(recs, SortKeyText);
    Ok(if |arr| > 0 then st.(sortedByString := " SORTED BY (" + Join(arr, ", ") + ")") else st)
  }

  /** Q11: the WITH SERDEPROPERTIES clause, kept as it was when there is no
      row. */
  function SerdePropertiesStep(st: DdlState, recs: seq<Entries>): Result<DdlState>
  {
    var arr :- MapRecords(recs, SerdePropertyText);
    Ok(if |arr| > 0 then st.(serdeProperties := "\nWITH SERDEPROPERTIES (\n  " + Join(arr, ",\n ") + "\n)") else st)
  }

  /** Q12: the skew list is built and then discarded. */
  function SkewStep(st: DdlState, recs: seq<Entries>): Result<DdlState>
  {
    var _ :- MapRecords(recs, SkewedColumnText);
    Ok(st)
  }

  /** Q16: the PARTITIONED BY clause, kept as it was when there is no row. */
  function PartitionKeysStep(st: DdlState, recs: seq<Entries>): Result<DdlState>
  {
    var arr :- MapRecords(recs, PartitionKeyText);
    Ok(if |arr| > 0 then st.(partitionKeyString := "\nPARTITIONED BY (\n  " + Join(arr, ", ") + ")") else st)
  }

  /** Skew information never reaches the statement: when every row has the
      skewed column name, Q12 leaves the state as it was. */
  lemma SkewIgnored(st: DdlState, recs: seq<Entries>)
    requires forall k :: 0 <= k < |recs| ==> HasKey(recs[k], "SKEWED_COL_NAME")
    ensures SkewStep(st, recs) == Ok(st)
  {
    assert forall k :: 0 <= k < |recs| ==> SkewedColumnText(recs[k]).Ok?;
  }

  // ---------------------------------------------------------------------
  // Q10, Q17: single-row clauses

  /** Q10: the serde library of the first row; its id for later queries. */
  function SerdeStep(st: DdlState, recs: seq<Entries>): Result<DdlState>
  {
    if |recs| == 0 then Ok(st)
    else
      var slib := Field(recs[0], "SLIB");
      Ok(st.(ids := st.ids.(serdeId := Field(recs[0], "SERDE_ID")),
             rowFormat := "\nROW FORMAT SERDE\n  '" + Show(slib) + "'",
             dict := Set(st.dict, "serde", slib)))
  }

  /** Q17: the CLUSTERED BY clause, which embeds the SORTED BY clause and
      the bucket suffix known so far; empty without a bucket column. */
  function ClusterStep(st: DdlState, recs: seq<Entries>): Result<DdlState>
  {
    if |recs| > 0 && Field(recs[0], "PARAM_VALUE") != Null then
      match st.bucketString
      case None => Err(NameError("bucket_string"))
      case Some(bucket) =>
        Ok(st.(clusteredByString := Some("\nCLUSTERED BY (" + Show(Field(recs[0], "PARAM_VALUE")) + ") "
                                         + st.sortedByString + " " + bucket)))
    else Ok(st.(clusteredByString := Some("")))
  }

  // ---------------------------------------------------------------------
  // Q18: partitions

  /** The partition spec of `ADD PARTITION (...)` from a partition name
      `key=value`: kept as it is when the value parses as an integer,
      otherwise the value is quoted. A name that does not split into
      exactly two pieces at `=` raises. */
  function PartitionSpec(partName: Obj): Result<string>
  {
    var (key, value) :- SplitPartitionName(partName);
    if IsIntLiteral(value) then Ok(partName.s) else Ok(key + "='" + value + "'")
  }

  /** A partition name is accepted exactly when it holds one `=`. */
  lemma PartitionSpecAccepts(s: string)
    ensures PartitionSpec(Str(s)).Ok? <==> Count(s, '=') == 1
  {
    SplitPartitionNameExactly(s);
  }

  /** For a key and a value without `=`, the spec is `key=value` for an
      integer value and `key='value'` for any other value. */
  lemma PartitionSpecQuoting(key: string, value: string)
    requires '=' !in key && '=' !in value
    ensures PartitionSpec(Str(key + "=" + value))
            == Ok(if IsIntLiteral(value) then key + "=" + value else key + "='" + value + "'")
  {
    SplitPartitionNamePieces(key, value);
  }

  /** One partition statement. */
  function AlterStatement(catalog: string, tableName: Option<Obj>, entry: Entries): Result<string>
  {
    var partName :- Column(entry, "PART_NAME");
    var spec :- PartitionSpec(partName);
    var name :- if tableName.Some? then Ok(tableName.value) else Err(NameError("table_name"));
    var location :- Column(entry, "LOCATION");
    Ok("ALTER TABLE " + catalog + "." + Show(name) + " ADD PARTITION (" + spec + ") LOCATION '" + Show(location) + "';\n")
  }

  /** Q18: one statement per row, in row order. */
  function PartitionsStep(st: DdlState, catalog: string, recs: seq<Entries>): Result<DdlState>
  {
    var arr :- MapRecords(recs, entry => AlterStatement(catalog, st.tableName, entry));
    Ok(st.(alterStatements := Some(arr)))
  }

  // ---------------------------------------------------------------------
  // The query battery

  /** The update one tagged query makes; unknown tags change nothing. */
  function TableStep(st: DdlState, catalog: string, tag: string, recs: seq<Entries>): Result<DdlState>
  {
    if tag == "Q2" then StorageStep(st, recs)
    else if tag == "Q3" then PropertiesStep(st, recs)
    else if tag == "Q6" then SortStep(st, recs)
    else if tag == "Q9" then ColumnsStep(st, recs)
    else if tag == "Q10" then SerdeStep(st, recs)
    else if tag == "Q11" then SerdePropertiesStep(st, recs)
    else if tag == "Q12" then SkewStep(st, recs)
    else if tag == "Q16" then PartitionKeysStep(st, recs)
    else if tag == "Q17" then ClusterStep(st, recs)
    else if tag == "Q18" then PartitionsStep(st, catalog, recs)
    else Ok(st)
  }

  /** The outcome of one tagged query. Only an empty Q1 answer stops the
      battery without an exception. */
  function DdlStep(st: DdlState, catalog: string, tag: string, recs: seq<Entries>): (r: Result<Outcome>)
    ensures r == Ok(NotFound) <==> tag == "Q1" && |recs| == 0
  {
    if tag == "Q1" then IdentityStep(st, recs)
    else
      var next :- TableStep(st, catalog, tag, recs);
      Ok(Continue(next))
  }

  /** The state after the queries, run in order, each formatted with the
      ids found by the queries before it. */
  function DdlFold(source: Source, database: string, catalog: string, table: string,
                   queries: seq<(string, string)>): Result<Outcome>
  {
    if |queries| == 0 then Ok(Continue(InitialDdl))
    else
      var prev :- DdlFold(source, database, catalog, table, queries[..|queries| - 1]);
      match prev
      case NotFound => Ok(NotFound)
      case Continue(st) =>
        var (tag, template) := queries[|queries| - 1];
        var recs :- Records(source(TableRequest(database, catalog, table, template, st.ids)));
        DdlStep(st, catalog, tag, recs)
  }

  /** Once the battery stops, the remaining queries are never run. */
  lemma {:induction false} DdlFoldStops(source: Source, database: string, catalog: string, table: string,
                                        queries: seq<(string, string)>, n: nat)
    requires n <= |queries|
    requires var r := DdlFold(source, database, catalog, table, queries[..n]); r.Err? || r == Ok(NotFound)
    ensures DdlFold(source, database, catalog, table, queries) == DdlFold(source, database, catalog, table, queries[..n])
    decreases |queries| - n
  {
    if n < |queries| {
      assert queries[..n + 1][..n] == queries[..n];
      DdlFoldStops(source, database, catalog, table, queries, n + 1);
    } else {
      assert queries[..n] == queries;
    }
  }

  // ---------------------------------------------------------------------
  // The statement

  /** The clauses after the column list, in order; the LOCATION clause
      only for tables that are not plain `TABLE`s. */
  function Clauses(st: DdlState, clustered: string): (r: seq<string>)
    ensures st.tableType == "TABLE" ==> |r| == 8
    ensures st.tableType != "TABLE" ==> |r| == 9 && r[6] == st.locationString
    ensures r[0] == st.tableComment && r[1] == st.partitionKeyString && r[2] == clustered
    ensures r[3] == st.rowFormat && r[4] == st.serdeProperties && r[5] == st.formatString
    ensures r[|r| - 2] == st.storedBy && r[|r| - 1] == st.tblProperties
  {
    [st.tableComment, st.partitionKeyString, clustered, st.rowFormat, st.serdeProperties, st.formatString]
    + (if st.tableType == "TABLE" then [] else [st.locationString])
    + [st.storedBy, st.tblProperties]
  }

  /** The CREATE statement; it reads the table name and the CLUSTERED BY
      clause, which raise when Q1 or Q17 never ran. */
  function CreateStatement(st: DdlState, catalog: string): Result<string>
  {
    match (st.tableName, st.clusteredByString)
    case (None, _) => Err(NameError("table_name"))
    case (_, None) => Err(NameError("clustered_by_string"))
    case (Some(name), Some(clustered)) =>
      Ok("CREATE " + st.tableType + " `" + catalog + "`.`" + Show(name) + "`(\n  " + st.columnString + ") "
         + Join(Clauses(st, clustered), " ") + ";\n\n")
  }

  /** The text written for the CREATE statement: with line breaks removed
      and one newline at the end, or verbatim. */
  function Render(create: string, singleLine: bool): string
  {
    if singleLine then RemoveNewlines(create) + "\n" else create
  }

  /** In single-line mode the statement is exactly one line. */
  lemma SingleLineIsOneLine(create: string)
    ensures Split(Render(create, true), '\n') == [RemoveNewlines(create), ""]
  {
    SplitPair(RemoveNewlines(create), "", '\n');
    assert RemoveNewlines(create) + "\n" == RemoveNewlines(create) + ['\n'] + "";
  }

  /** A statement that has no line breaks is written unchanged in either
      mode, except for the newline single-line mode appends. */
  lemma SingleLinePreservesText(create: string)
    requires '\n' !in create && '\r' !in create
    ensures Render(create, true) == create + "\n"
  {
    RemoveNewlinesNone(create);
  }

  /** What `backup_table_ddl` returns and writes. */
  datatype Backup = Backup(tableDict: Option<Obj>, written: string)

  /** The specification of one table's backup: nothing is written when the
      table is missing or an exception is raised before the CREATE
      statement is written; when Q18 never ran the CREATE statement is
      written and the missing statements list then raises. */
  function TableBackup(source: Source, database: string, catalog: string, table: string,
                       queries: seq<(string, string)>, singleLine: bool): Backup
  {
    match DdlFold(source, database, catalog, table, queries)
    case Err(_) => Backup(None, "")
    case Ok(NotFound) => Backup(None, "")
    case Ok(Continue(st)) =>
      match CreateStatement(st, catalog)
      case Err(_) => Backup(None, "")
      case Ok(create) =>
        match st.alterStatements
        case None => Backup(None, Render(create, singleLine))
        case Some(alters) => Backup(Some(Dict(st.dict)), Render(create, singleLine) + Concat(alters))
  }

  /** `DatabaseBackup.backup_table_ddl`: runs the queries in order and
      returns the table dictionary and the text written to the output. */
  method BackupTableDdl(source: Source, database: string, catalog: string, table: string,
                        queries: seq<(string, string)>, singleLine: bool)
    returns (tableDict: Option<Obj>, written: string)
    ensures Backup(tableDict, written) == TableBackup(source, database, catalog, table, queries, singleLine)
  {
    var st := InitialDdl;
    var i := 0;
    while i < |queries|
      invariant 0 <= i <= |queries|
      invariant DdlFold(source, database, catalog, table, queries[..i]) == Ok(Continue(st))
    {
      assert queries[..i + 1][..i] == queries[..i];
      var (tag, template) := queries[i];
      var recs := Records(source(TableRequest(database, catalog, table, template, st.ids)));
      if recs.Err? {
        DdlFoldStops(source, database, catalog, table, queries, i + 1);
        return None, "";
      }
      var outcome := RunQuery(st, catalog, tag, recs.value);
      if outcome.Err? || outcome.value.NotFound? {
        DdlFoldStops(source, database, catalog, table, queries, i + 1);
        return None, "";
      }
      st := outcome.value.st;
      i := i + 1;
    }
    assert queries[..i] == queries;
    var create := CreateStatement(st, catalog);
    if create.Err? {
      return None, "";
    }
    written := Render(create.value, singleLine);
    if st.alterStatements.None? {
      return None, written;
    }
    written := WriteAll(written, st.alterStatements.value);
    return Some(Dict(st.dict)), written;
  }

  /** The update one tagged query makes, with the Q3 and Q9 loops run as
      loops. */
  method RunQuery(st: DdlState, catalog: string, tag: string, recs: seq<Entries>) returns (outcome: Result<Outcome>)
    ensures outcome == DdlStep(st, catalog, tag, recs)
  {
    if tag == "Q1" {
      return IdentityStep(st, recs);
    }
    var next: Result<DdlState>;
    if tag == "Q3" {
      next := RouteParameters(st, recs);
    } else if tag == "Q9" {
      next := RenderColumns(st, recs);
    } else {
      next := TableStep(st, catalog, tag, recs);
    }
    outcome := if next.Ok? then Ok(Continue(next.value)) else Err(next.error);
  }

  /** The `for alter_statement in alter_statements: ofd.write(...)` loop. */
  method WriteAll(text: string, statements: seq<string>) returns (written: string)
    ensures written == text + Concat(statements)
  {
    written := text;
    for j := 0 to |statements|
      invariant written == text + Concat(statements[..j])
    {
      ConcatAppend(statements[..j], statements[j]);
      assert statements[..j + 1] == statements[..j] + [statements[j]];
      written := written + statements[j];
    }
    assert statements[..|statements|] == statements;
  }

  // ---------------------------------------------------------------------
  // Properties of the whole backup

  /** A table missing from the metastore (Q1 first, with no row) is
      neither returned nor written, whatever the other queries are. */
  lemma MissingTableWritesNothing(source: Source, database: string, catalog: string, table: string,
                                  queries: seq<(string, string)>, singleLine: bool, cols: seq<string>)
    requires |queries| > 0 && queries[0].0 == "Q1"
    requires source(TableRequest(database, catalog, table, queries[0].1, InitialIds)) == Fetched([], cols)
    ensures TableBackup(source, database, catalog, table, queries, singleLine) == Backup(None, "")
  {
    assert queries[..1][..0] == [];
    DdlFoldStops(source, database, catalog, table, queries, 1);
  }

  /** Whenever a dictionary is returned, the CREATE statement was written
      first and then every partition statement, in row order. */
  lemma BackupShape(source: Source, database: string, catalog: string, table: string,
                    queries: seq<(string, string)>, singleLine: bool)
    ensures var b := TableBackup(source, database, catalog, table, queries, singleLine);
      b.tableDict.Some? ==>
        exists st: DdlState, create: string ::
          DdlFold(source, database, catalog, table, queries) == Ok(Continue(st))
          && CreateStatement(st, catalog) == Ok(create)
          && st.alterStatements.Some?
          && b.written == Render(create, singleLine) + Concat(st.alterStatements.value)
  {
  }

  /** A plain `TABLE` never carries a LOCATION clause, whatever location
      was recorded; every other table type carries the recorded one right
      after the format clause. */
  lemma LocationOnlyForNonManaged(st: DdlState, catalog: string, location: string)
    ensures st.tableType == "TABLE" ==>
      CreateStatement(st, catalog) == CreateStatement(st.(locationString := location), catalog)
    ensures st.tableType != "TABLE" ==>
      Clauses(st, "")[5..7] == [st.formatString, st.locationString]
  {
  }

  /** Q18 produces exactly one statement per partition row, each naming
      the table found by Q1. */
  lemma PartitionStatements(st: DdlState, catalog: string, recs: seq<Entries>)
    requires PartitionsStep(st, catalog, recs).Ok?
    ensures var alters := PartitionsStep(st, catalog, recs).value.alterStatements;
      alters.Some? && |alters.value| == |recs|
      && (forall k :: 0 <= k < |recs| ==> AlterStatement(catalog, st.tableName, recs[k]) == Ok(alters.value[k]))
      && (|recs| > 0 ==> st.tableName.Some?)
  {
    if |recs| > 0 {
      var alters := PartitionsStep(st, catalog, recs).value.alterStatements.value;
      assert AlterStatement(catalog, st.tableName, recs[0]) == Ok(alters[0]);
    }
  }
}
